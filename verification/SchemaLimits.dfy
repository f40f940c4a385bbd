/** Where the claim ends: with undeclared names, or with `oneOf`, `not` or `if` above what will be closed, the
    rewritten schema accepts more than before. */
module SchemaLimits {
  import opened Wrappers
  import opened Text
  import opened JsonValues
  import opened StrictSchema
  import opened SchemaPointers
  import opened SchemaForms
  import opened SchemaMeaning

  /** Any object at all; once rewritten, only the empty one. */
  const ANY_OBJECT := Obj(map["type" := Str("object")])

  lemma AnyObjectTakes(fuel: nat, root: Json, v: Json, rd: Reader)
    requires v.Obj?
    ensures Closable(ANY_OBJECT) && Accepts(fuel, root, ANY_OBJECT, v, rd)
    ensures Drops(ANY_OBJECT, v) <==> v.fields != map[]
  {
    var f := ANY_OBJECT.fields;
    assert f.Keys == {"type"} && HasType(f["type"], v);
  }

  /** A value whose names are not those the schema declares. */
  predicate Drops(d: Json, v: Json)
    requires Closable(d)
  {
    v.Obj? ==> v.fields.Keys != PropertiesOf(d.fields).fields.Keys
  }

  lemma DroppedIsRefused(fuel: nat, root: Json, d: Json, v: Json, rd: Reader)
    requires Closable(d) && Drops(d, v)
    ensures !Accepts(fuel, root, Rewrite(d), v, rd)
  {
    if Accepts(fuel, root, Rewrite(d), v, rd) {
      ClosedMeansExactNames(fuel, root, d, v, rd);
    }
  }

  /** Exactly one of: anything, and `d`. So it takes what `d` does not. */
  function EitherOne(d: Json): Json { Obj(map["oneOf" := Arr([Bool(true), d])]) }

  /** A schema that has nothing but combinators is as good as they are. */
  lemma OnlyCombined(fuel: nat, root: Json, s: Json, v: Json, rd: Reader)
    requires s.Obj? && s.fields.Keys <= {"oneOf", "not", "$defs"}
    ensures Accepts(fuel, root, s, v, rd) <==> CombinedOk(fuel, root, s, v, rd)
  {
    var f := s.fields;
    assert "type" !in f && "required" !in f && "$ref" !in f && "items" !in f && "additionalProperties" !in f;
    assert NamedAt(f, "properties") == map[] && NamedAt(f, "patternProperties") == map[];
    assert MembersOk(fuel, root, s, v, rd);
    NothingElse(fuel, root, s, v, rd);
  }

  lemma NothingElse(fuel: nat, root: Json, s: Json, v: Json, rd: Reader)
    requires s.Obj? && s.fields.Keys !! {"contains", "propertyNames", "dependencies", "if"}
    ensures HeldOk(fuel, root, s, v, rd) && ConditionOk(fuel, root, s, v, rd)
  {
    assert NamedAt(s.fields, "dependencies") == map[];
  }

  lemma OneOfTwo(fuel: nat, root: Json, s: Json, l: seq<Json>, v: Json, rd: Reader)
    requires s.Obj? && "oneOf" in s.fields && s.fields["oneOf"] == Arr(l) && |l| == 2
    requires Accepts(fuel, root, l[0], v, rd)
    ensures OneOk(fuel, root, s, v, rd) <==> !Accepts(fuel, root, l[1], v, rd)
  {
    if !Accepts(fuel, root, l[1], v, rd) {
      assert forall j :: 0 <= j < |l| && Accepts(fuel, root, l[j], v, rd) ==> j == 0;
    }
  }

  lemma EitherOneMeans(fuel: nat, root: Json, d: Json, v: Json, rd: Reader)
    ensures Accepts(fuel, root, EitherOne(d), v, rd) <==> !Accepts(fuel, root, d, v, rd)
  {
    OnlyCombined(fuel, root, EitherOne(d), v, rd);
    OneOfTwo(fuel, root, EitherOne(d), [Bool(true), d], v, rd);
  }

  lemma EitherOneRewritten(d: Json)
    ensures Rewrite(EitherOne(d)) == EitherOne(Rewrite(d))
  {
    var s := EitherOne(d);
    HeldAt(s, "oneOf");
    FormOfItems("oneOf", s.fields["oneOf"], true);
    assert RewriteHeld(s)["oneOf"].items == [Bool(true), Rewrite(d)];
    assert Rewrite(s).fields == EitherOne(Rewrite(d)).fields;
  }

  /** With `oneOf`: two alternatives both took a value, and after the rewrite only one does. */
  lemma OneOfWidens(fuel: nat, d: Json, v: Json, rd: Reader)
    requires Closable(d) && Drops(d, v) && Accepts(fuel, EitherOne(d), d, v, rd)
    ensures !Accepts(fuel, EitherOne(d), EitherOne(d), v, rd)
    ensures Accepts(fuel, Rewrite(EitherOne(d)), Rewrite(EitherOne(d)), v, rd)
  {
    EitherOneMeans(fuel, EitherOne(d), d, v, rd);
    EitherOneRewritten(d);
    DroppedIsRefused(fuel, EitherOne(Rewrite(d)), d, v, rd);
    EitherOneMeans(fuel, EitherOne(Rewrite(d)), Rewrite(d), v, rd);
  }

  lemma DefinitionX(s: Json, definition: Json)
    requires HasKey(s, "$defs") && s.fields["$defs"] == Obj(map["x" := definition])
    ensures Resolve(s, Str("#/$defs/x")) == Some(definition)
  {
    assert "#/" + ("$defs" + "/" + "x") == "#/$defs/x";
    ResolveNamed(s, "$defs", "x");
  }

  lemma RefersToX(fuel: nat, root: Json, s: Json, definition: Json, v: Json, rd: Reader)
    requires HasKey(root, "$defs") && root.fields["$defs"] == Obj(map["x" := definition])
    requires HasKey(s, "$ref") && s.fields["$ref"] == Str("#/$defs/x")
    ensures Accepts(fuel, root, s, v, rd) <==> fuel > 0 && Accepts(fuel - 1, root, definition, v, rd)
  {
    DefinitionX(root, definition);
    FollowsRef(fuel, root, s, definition, v, rd);
  }

  function Refuses(definition: Json): Json {
    Obj(map["not" := Obj(map["$ref" := Str("#/$defs/x")]), "$defs" := Obj(map["x" := definition])])
  }

  lemma OnlyNegation(fuel: nat, root: Json, s: Json, v: Json, rd: Reader)
    requires s.Obj? && s.fields.Keys == {"not", "$defs"}
    ensures Accepts(fuel, root, s, v, rd) <==> !Accepts(fuel, root, s.fields["not"], v, rd)
  {
    OnlyCombined(fuel, root, s, v, rd);
    assert ListAt(s.fields, "allOf") == [] && "anyOf" !in s.fields && "oneOf" !in s.fields;
  }

  lemma RefusesMeans(fuel: nat, definition: Json, v: Json, rd: Reader)
    requires fuel > 0
    ensures var s := Refuses(definition); Accepts(fuel, s, s, v, rd) <==> !Accepts(fuel - 1, s, definition, v, rd)
  {
    var s := Refuses(definition);
    assert s.fields.Keys == {"not", "$defs"};
    OnlyNegation(fuel, s, s, v, rd);
    RefersToX(fuel, s, s.fields["not"], definition, v, rd);
  }

  /** The rewrite goes into the definitions and leaves the rest of these schemas alone. */
  lemma OnlyDefinitions(s: Json, definition: Json)
    requires s.Obj? && s.fields.Keys <= {"not", "if", "then", "$defs"}
    requires "$defs" in s.fields && s.fields["$defs"] == Obj(map["x" := definition])
    ensures Rewrite(s) == Obj(s.fields["$defs" := Obj(map["x" := Rewrite(definition)])])
  {
    var table := RewriteField("$defs", s.fields["$defs"]);
    assert table.fields == map["x" := Rewrite(definition)];
    assert !IsObjectSchema(RewriteHeld(s)) by { assert "type" !in RewriteHeld(s); }
    forall k | k in s.fields && k != "$defs" ensures RewriteHeld(s)[k] == s.fields[k] { HeldAt(s, k); }
    assert RewriteHeld(s) == s.fields["$defs" := table];
  }

  lemma RefusesRewritten(definition: Json)
    ensures Rewrite(Refuses(definition)) == Refuses(Rewrite(definition))
  {
    OnlyDefinitions(Refuses(definition), definition);
    assert Refuses(definition).fields["$defs" := Obj(map["x" := Rewrite(definition)])] ==
      Refuses(Rewrite(definition)).fields;
  }

  lemma NegationGrows(fuel: nat, s: Json, t: Json, d: Json, e: Json, v: Json, rd: Reader)
    requires fuel > 0 && s == Refuses(d) && t == Refuses(e)
    requires Accepts(fuel - 1, s, d, v, rd) && !Accepts(fuel - 1, t, e, v, rd)
    ensures !Accepts(fuel, s, s, v, rd) && Accepts(fuel, t, t, v, rd)
  {
    RefusesMeans(fuel, d, v, rd);
    RefusesMeans(fuel, e, v, rd);
  }

  /** With `not` above a reference (`s` is `Refuses(d)`): the definition is closed, so its negation grows. */
  lemma NotWidens(fuel: nat, s: Json, d: Json, v: Json, rd: Reader)
    requires fuel > 0 && s == Refuses(d) && Closable(d) && Drops(d, v) && Accepts(fuel - 1, s, d, v, rd)
    ensures !Accepts(fuel, s, s, v, rd) && Accepts(fuel, Rewrite(s), Rewrite(s), v, rd)
  {
    var e := Rewrite(d);
    var t := Refuses(e);
    DroppedIsRefused(fuel - 1, t, d, v, rd);
    NegationGrows(fuel, s, t, d, e, v, rd);
    RefusesRewritten(d);
  }

  /** Whatever is `x` is refused. */
  function RefusesIf(definition: Json): Json {
    Obj(map["if" := Obj(map["$ref" := Str("#/$defs/x")]), "then" := Bool(false),
      "$defs" := Obj(map["x" := definition])])
  }

  lemma OnlyConditional(fuel: nat, root: Json, s: Json, v: Json, rd: Reader)
    requires s.Obj? && s.fields.Keys == {"if", "then", "$defs"}
    ensures Accepts(fuel, root, s, v, rd) <==> ConditionOk(fuel, root, s, v, rd)
  {
    var f := s.fields;
    assert "type" !in f && "required" !in f && "$ref" !in f && "items" !in f && "additionalProperties" !in f;
    assert NamedAt(f, "properties") == map[] && NamedAt(f, "patternProperties") == map[] &&
      NamedAt(f, "dependencies") == map[];
    assert ListAt(f, "allOf") == [] && "contains" !in f && "propertyNames" !in f;
    assert MembersOk(fuel, root, s, v, rd) && HeldOk(fuel, root, s, v, rd) && CombinedOk(fuel, root, s, v, rd);
  }

  lemma RefusesIfMeans(fuel: nat, definition: Json, v: Json, rd: Reader)
    requires fuel > 0
    ensures var s := RefusesIf(definition); Accepts(fuel, s, s, v, rd) <==> !Accepts(fuel - 1, s, definition, v, rd)
  {
    var s := RefusesIf(definition);
    assert s.fields.Keys == {"if", "then", "$defs"};
    OnlyConditional(fuel, s, s, v, rd);
    RefersToX(fuel, s, s.fields["if"], definition, v, rd);
    assert !Accepts(fuel, s, s.fields["then"], v, rd);
  }

  lemma RefusesIfRewritten(definition: Json)
    ensures Rewrite(RefusesIf(definition)) == RefusesIf(Rewrite(definition))
  {
    OnlyDefinitions(RefusesIf(definition), definition);
    assert RefusesIf(definition).fields["$defs" := Obj(map["x" := Rewrite(definition)])] ==
      RefusesIf(Rewrite(definition)).fields;
  }

  lemma ConditionFails(fuel: nat, s: Json, t: Json, d: Json, e: Json, v: Json, rd: Reader)
    requires fuel > 0 && s == RefusesIf(d) && t == RefusesIf(e)
    requires Accepts(fuel - 1, s, d, v, rd) && !Accepts(fuel - 1, t, e, v, rd)
    ensures !Accepts(fuel, s, s, v, rd) && Accepts(fuel, t, t, v, rd)
  {
    RefusesIfMeans(fuel, d, v, rd);
    RefusesIfMeans(fuel, e, v, rd);
  }

  /** With `if` above a reference (`s` is `RefusesIf(d)`): fewer values meet the condition, so fewer are refused. */
  lemma IfWidens(fuel: nat, s: Json, d: Json, v: Json, rd: Reader)
    requires fuel > 0 && s == RefusesIf(d) && Closable(d) && Drops(d, v) && Accepts(fuel - 1, s, d, v, rd)
    ensures !Accepts(fuel, s, s, v, rd) && Accepts(fuel, Rewrite(s), Rewrite(s), v, rd)
  {
    var e := Rewrite(d);
    var t := RefusesIf(e);
    DroppedIsRefused(fuel - 1, t, d, v, rd);
    ConditionFails(fuel, s, t, d, e, v, rd);
    RefusesIfRewritten(d);
  }

  /** The value was refused, and the rewritten schema accepts it. */
  ghost predicate Widens(fuel: nat, s: Json, v: Json, rd: Reader) {
    !Accepts(fuel, s, s, v, rd) && Accepts(fuel, Rewrite(s), Rewrite(s), v, rd)
  }

  /** All three, for any schema that takes a value everywhere and drops it once it is closed. */
  lemma AllWiden(fuel: nat, d: Json, v: Json, rd: Reader)
    requires Closable(d) && Drops(d, v) && forall n: nat, root: Json :: Accepts(n, root, d, v, rd)
    ensures Widens(fuel, EitherOne(d), v, rd)
    ensures fuel > 0 ==> Widens(fuel, Refuses(d), v, rd) && Widens(fuel, RefusesIf(d), v, rd)
  {
    assert Accepts(fuel, EitherOne(d), d, v, rd);
    OneOfWidens(fuel, d, v, rd);
    if fuel > 0 {
      assert Accepts(fuel - 1, Refuses(d), d, v, rd) && Accepts(fuel - 1, RefusesIf(d), d, v, rd);
      NotWidens(fuel, Refuses(d), d, v, rd);
      IfWidens(fuel, RefusesIf(d), d, v, rd);
    }
  }

  /** All three, at the schema of any object (`d` is `ANY_OBJECT`) and every object but the empty one. */
  lemma AnyObjectWidens(fuel: nat, d: Json, v: Json, rd: Reader)
    requires d == ANY_OBJECT && v.Obj? && v.fields != map[]
    ensures Widens(fuel, EitherOne(d), v, rd)
    ensures fuel > 0 ==> Widens(fuel, Refuses(d), v, rd) && Widens(fuel, RefusesIf(d), v, rd)
  {
    forall n: nat, root: Json ensures Closable(d) && Drops(d, v) && Accepts(n, root, d, v, rd) {
      AnyObjectTakes(n, root, v, rd);
    }
    AllWiden(fuel, d, v, rd);
  }

  /** An object that must have one name, which is not among its properties. */
  function Needs(name: string): Json {
    Obj(map["type" := Str("object"), "required" := Arr([Str(name)])])
  }

  lemma NeedsIsClosable(s: Json, name: string)
    requires s == Needs(name)
    ensures Closable(s) && CleanBelow(s, AnyRef) && !Declared(s.fields)
  {
    assert Str(name) in s.fields["required"].items;
    forall k | k in s.fields ensures CleanField(k, s.fields[k], AnyRef) {
      assert k == "type" || k == "required";
    }
  }

  /** The strict form of an object schema without properties. */
  predicate IsBare(t: Json) {
    && t.Obj? && t.fields.Keys == {"type", "properties", "additionalProperties", "required"}
    && t.fields["type"] == Str("object") && t.fields["required"] == Arr([])
  }

  lemma NeedsRewritten(s: Json, name: string)
    requires s == Needs(name)
    ensures IsBare(Rewrite(s))
  {
    FormOfLimits(s, true);
    FormAt(s, true, "type");
    HeldAt(s, "type");
    HeldAt(s, "required");
    assert RewriteHeld(s) == s.fields;
    assert Sorted({}) == [] && Strs([]) == [];
  }

  lemma BareTakesEmpty(fuel: nat, t: Json, v: Json, rd: Reader)
    requires IsBare(t) && v == Obj(map[])
    ensures Accepts(fuel, t, t, v, rd)
  {
    assert HasType(t.fields["type"], v);
    NothingElse(fuel, t, t, v, rd);
    assert ListAt(t.fields, "allOf") == [];
  }

  /** The rewrite drops the name: the empty object (`v`) was refused, and is accepted afterwards. */
  lemma NeedsWidens(fuel: nat, s: Json, name: string, v: Json, rd: Reader)
    requires s == Needs(name) && v == Obj(map[])
    ensures Widens(fuel, s, v, rd) && !NarrowsAll(fuel, s, s, rd)
  {
    NeedsIsClosable(s, name);
    NeedsRewritten(s, name);
    BareTakesEmpty(fuel, Rewrite(s), v, rd);
    UndeclaredIsMissing(fuel, s, s, v, rd);
  }
}
