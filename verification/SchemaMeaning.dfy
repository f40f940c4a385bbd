/** Which values a schema accepts, after JSON Schema draft-07 (core, section 8.3; validation,
    sections 6.1.1 and 6.4 to 6.7), and that the strict rewrite only narrows it. */
module SchemaMeaning {
  import opened Wrappers
  import opened Text
  import opened JsonValues
  import opened StrictSchema
  import opened SchemaPointers
  import opened SchemaForms

  /** How patterns match names, and what every keyword not modelled here asserts of a value. */
  datatype Reader = Reader(matches: (string, string) -> bool, other: (string, Json, Json) -> bool)

  const MODELLED := {
    "$ref", "$defs", "definitions", "type", "required", "properties", "patternProperties", "additionalProperties",
    "items", "additionalItems", "contains", "propertyNames", "dependencies", "if", "then", "else",
    "allOf", "anyOf", "oneOf", "not"
  }

  predicate HasType(t: Json, v: Json) {
    t.Str? && (match t.text
               case "object" => v.Obj? case "array" => v.Arr? case "string" => v.Str? case "boolean" => v.Bool?
               case "null" => v.Null? case "integer" => v.Num? case "number" => v.Num? case _ => false)
  }

  predicate TypeOk(f: map<string, Json>, v: Json) {
    "type" in f ==> if f["type"].Arr? then exists t :: t in f["type"].items && HasType(t, v) else HasType(f["type"], v)
  }

  predicate RequiredOk(f: map<string, Json>, v: Json) {
    "required" in f && f["required"].Arr? && v.Obj? ==>
      forall n :: n in f["required"].items && n.Str? ==> n.text in v.fields
  }

  predicate OthersOk(f: map<string, Json>, v: Json, rd: Reader) {
    forall k :: k in f && k !in MODELLED ==> rd.other(k, f[k], v)
  }

  /** At most `fuel` references are followed on the way to a value. */
  predicate Accepts(fuel: nat, root: Json, s: Json, v: Json, rd: Reader)
    decreases fuel, s, 2
  {
    if s.Bool? then s.truth
    else if !s.Obj? then true
    else if "$ref" in s.fields then
      fuel > 0 &&
        var target := Resolve(root, s.fields["$ref"]); target.Some? && Accepts(fuel - 1, root, target.value, v, rd)
    else
      && TypeOk(s.fields, v) && RequiredOk(s.fields, v) && OthersOk(s.fields, v, rd)
      && MembersOk(fuel, root, s, v, rd) && ItemsOk(fuel, root, s, v, rd) && CombinedOk(fuel, root, s, v, rd)
      && HeldOk(fuel, root, s, v, rd) && ConditionOk(fuel, root, s, v, rd)
  }

  predicate Matched(f: map<string, Json>, name: string, rd: Reader) {
    exists p :: p in NamedAt(f, "patternProperties") && rd.matches(p, name)
  }

  predicate MembersOk(fuel: nat, root: Json, s: Json, v: Json, rd: Reader)
    requires s.Obj?
    decreases fuel, s, 0
  {
    var f := s.fields;
    v.Obj? ==> forall k :: k in v.fields ==>
      && (k in NamedAt(f, "properties") ==> Accepts(fuel, root, NamedAt(f, "properties")[k], v.fields[k], rd))
      && (forall p :: p in NamedAt(f, "patternProperties") && rd.matches(p, k) ==>
            Accepts(fuel, root, NamedAt(f, "patternProperties")[p], v.fields[k], rd))
      && ("additionalProperties" in f && k !in NamedAt(f, "properties") && !Matched(f, k, rd) ==>
            Accepts(fuel, root, f["additionalProperties"], v.fields[k], rd))
  }

  predicate ItemsOk(fuel: nat, root: Json, s: Json, v: Json, rd: Reader)
    requires s.Obj?
    decreases fuel, s, 0
  {
    var f := s.fields;
    v.Arr? && "items" in f ==> forall i :: 0 <= i < |v.items| ==>
      if !f["items"].Arr? then Accepts(fuel, root, f["items"], v.items[i], rd)
      else if i < |f["items"].items| then Accepts(fuel, root, f["items"].items[i], v.items[i], rd)
      else "additionalItems" in f ==> Accepts(fuel, root, f["additionalItems"], v.items[i], rd)
  }

  predicate CombinedOk(fuel: nat, root: Json, s: Json, v: Json, rd: Reader)
    requires s.Obj?
    decreases fuel, s, 1
  {
    var f := s.fields;
    && (forall i :: 0 <= i < |ListAt(f, "allOf")| ==> Accepts(fuel, root, ListAt(f, "allOf")[i], v, rd))
    && ("anyOf" in f && f["anyOf"].Arr? ==>
          exists i :: 0 <= i < |ListAt(f, "anyOf")| && Accepts(fuel, root, ListAt(f, "anyOf")[i], v, rd))
    && ("oneOf" in f && f["oneOf"].Arr? ==> OneOk(fuel, root, s, v, rd))
    && ("not" in f ==> !Accepts(fuel, root, f["not"], v, rd))
  }

  predicate OneOk(fuel: nat, root: Json, s: Json, v: Json, rd: Reader)
    requires s.Obj?
    decreases fuel, s, 0
  {
    var l := ListAt(s.fields, "oneOf");
    exists i :: 0 <= i < |l| && Accepts(fuel, root, l[i], v, rd)
             && forall j :: 0 <= j < |l| && Accepts(fuel, root, l[j], v, rd) ==> j == i
  }

  /** `contains`, `propertyNames` and `dependencies`. */
  predicate HeldOk(fuel: nat, root: Json, s: Json, v: Json, rd: Reader)
    requires s.Obj?
    decreases fuel, s, 0
  {
    var f := s.fields;
    && ("contains" in f && v.Arr? ==>
      exists i :: 0 <= i < |v.items| && Accepts(fuel, root, f["contains"], v.items[i], rd))
    && ("propertyNames" in f && v.Obj? ==> forall k :: k in v.fields ==>
      Accepts(fuel, root, f["propertyNames"], Str(k), rd))
    && (v.Obj? ==> forall k :: k in NamedAt(f, "dependencies") && k in v.fields ==>
          var d := NamedAt(f, "dependencies")[k];
          if d.Arr? then NamesIn(d.items, v.fields) else Accepts(fuel, root, d, v, rd))
  }

  predicate NamesIn(names: seq<Json>, fields: map<string, Json>) {
    forall n :: n in names && n.Str? ==> n.text in fields
  }

  predicate ConditionOk(fuel: nat, root: Json, s: Json, v: Json, rd: Reader)
    requires s.Obj?
    decreases fuel, s, 0
  {
    var f := s.fields;
    "if" in f ==>
      if Accepts(fuel, root, f["if"], v, rd) then "then" in f ==> Accepts(fuel, root, f["then"], v, rd)
      else "else" in f ==> Accepts(fuel, root, f["else"], v, rd)
  }

  // ---- without references the document around a schema does not matter -----------------------------

  /** Every reference-free schema inside this one accepts the same values in two documents. */
  ghost predicate SameInside(fuel: nat, a: Json, b: Json, s: Json, rd: Reader) {
    forall t, v :: t < s && RefFree(t) ==> (Accepts(fuel, a, t, v, rd) <==> Accepts(fuel, b, t, v, rd))
  }

  lemma InsideOf(s: Json, key: string, name: string)
    requires RefFree(s) && s.Obj?
    ensures key in s.fields ==> RefFree(s.fields[key]) && s.fields[key] < s
    ensures name in NamedAt(s.fields, key) ==> RefFree(NamedAt(s.fields, key)[name]) && NamedAt(s.fields, key)[name] < s
    ensures forall i :: 0 <= i < |ListAt(s.fields, key)| ==>
            RefFree(ListAt(s.fields, key)[i]) && ListAt(s.fields, key)[i] < s
  {
    if key in s.fields && s.fields[key].Obj? && name in s.fields[key].fields {
      assert s.fields[key].fields[name] < s.fields[key] < s;
    }
    if key in s.fields && s.fields[key].Arr? {
      forall i | 0 <= i < |s.fields[key].items| ensures s.fields[key].items[i] < s {
        assert s.fields[key].items[i] < s.fields[key] < s;
      }
    }
  }

  lemma MembersIdle(fuel: nat, a: Json, b: Json, s: Json, v: Json, rd: Reader)
    requires RefFree(s) && s.Obj? && SameInside(fuel, a, b, s, rd) && MembersOk(fuel, a, s, v, rd)
    ensures MembersOk(fuel, b, s, v, rd)
  {
    var f := s.fields;
    InsideOf(s, "additionalProperties", "");
    if v.Obj? {
      forall k | k in v.fields && k in NamedAt(f, "properties")
        ensures Accepts(fuel, b, NamedAt(f, "properties")[k], v.fields[k], rd)
      {
        InsideOf(s, "properties", k);
      }
      forall k, p | k in v.fields && p in NamedAt(f, "patternProperties") && rd.matches(p, k)
        ensures Accepts(fuel, b, NamedAt(f, "patternProperties")[p], v.fields[k], rd)
      {
        InsideOf(s, "patternProperties", p);
      }
    }
  }

  lemma ItemsIdle(fuel: nat, a: Json, b: Json, s: Json, v: Json, rd: Reader)
    requires RefFree(s) && s.Obj? && SameInside(fuel, a, b, s, rd) && ItemsOk(fuel, a, s, v, rd)
    ensures ItemsOk(fuel, b, s, v, rd)
  {
    InsideOf(s, "items", "");
    InsideOf(s, "additionalItems", "");
    assert "items" in s.fields && s.fields["items"].Arr? ==> ListAt(s.fields, "items") == s.fields["items"].items;
  }

  lemma ListIdle(fuel: nat, a: Json, b: Json, s: Json, key: string, v: Json, rd: Reader)
    requires RefFree(s) && s.Obj? && SameInside(fuel, a, b, s, rd)
    ensures var l := ListAt(s.fields, key);
            forall i :: 0 <= i < |l| ==> (Accepts(fuel, a, l[i], v, rd) <==> Accepts(fuel, b, l[i], v, rd))
  {
    InsideOf(s, key, "");
  }

  lemma OneIdle(fuel: nat, a: Json, b: Json, s: Json, v: Json, rd: Reader)
    requires RefFree(s) && s.Obj? && SameInside(fuel, a, b, s, rd) && OneOk(fuel, a, s, v, rd)
    ensures OneOk(fuel, b, s, v, rd)
  {
    var l := ListAt(s.fields, "oneOf");
    ListIdle(fuel, a, b, s, "oneOf", v, rd);
    var i :| 0 <= i < |l| && Accepts(fuel, a, l[i], v, rd)
             && forall j :: 0 <= j < |l| && Accepts(fuel, a, l[j], v, rd) ==> j == i;
    assert Accepts(fuel, b, l[i], v, rd);
  }

  lemma CombinedIdle(fuel: nat, a: Json, b: Json, s: Json, v: Json, rd: Reader)
    requires RefFree(s) && s.Obj? && SameInside(fuel, a, b, s, rd) && CombinedOk(fuel, a, s, v, rd)
    ensures CombinedOk(fuel, b, s, v, rd)
  {
    var f := s.fields;
    ListIdle(fuel, a, b, s, "allOf", v, rd);
    ListIdle(fuel, a, b, s, "anyOf", v, rd);
    if "anyOf" in f && f["anyOf"].Arr? {
      var i :| 0 <= i < |ListAt(f, "anyOf")| && Accepts(fuel, a, ListAt(f, "anyOf")[i], v, rd);
      assert Accepts(fuel, b, ListAt(f, "anyOf")[i], v, rd);
    }
    if "oneOf" in f && f["oneOf"].Arr? { OneIdle(fuel, a, b, s, v, rd); }
    InsideOf(s, "not", "");
  }

  lemma HeldIdle(fuel: nat, a: Json, b: Json, s: Json, v: Json, rd: Reader)
    requires RefFree(s) && s.Obj? && SameInside(fuel, a, b, s, rd) && HeldOk(fuel, a, s, v, rd)
    ensures HeldOk(fuel, b, s, v, rd)
  {
    InsideOf(s, "contains", "");
    InsideOf(s, "propertyNames", "");
    if v.Obj? {
      forall k | k in NamedAt(s.fields, "dependencies") && k in v.fields && !NamedAt(s.fields, "dependencies")[k].Arr?
        ensures Accepts(fuel, b, NamedAt(s.fields, "dependencies")[k], v, rd)
      {
        InsideOf(s, "dependencies", k);
      }
    }
  }

  lemma ConditionIdle(fuel: nat, a: Json, b: Json, s: Json, v: Json, rd: Reader)
    requires RefFree(s) && s.Obj? && SameInside(fuel, a, b, s, rd) && ConditionOk(fuel, a, s, v, rd)
    ensures ConditionOk(fuel, b, s, v, rd)
  {
    InsideOf(s, "if", "");
    InsideOf(s, "then", "");
    InsideOf(s, "else", "");
  }

  lemma BelowIdle(fuel: nat, a: Json, b: Json, s: Json, v: Json, rd: Reader)
    requires RefFree(s) && s.Obj? && SameInside(fuel, a, b, s, rd) && AcceptsBelow(fuel, a, s, v, rd)
    ensures AcceptsBelow(fuel, b, s, v, rd)
  {
    MembersIdle(fuel, a, b, s, v, rd);
    ItemsIdle(fuel, a, b, s, v, rd);
    CombinedIdle(fuel, a, b, s, v, rd);
    HeldIdle(fuel, a, b, s, v, rd);
    ConditionIdle(fuel, a, b, s, v, rd);
  }

  lemma AcceptsInParts(fuel: nat, root: Json, s: Json, v: Json, rd: Reader)
    requires s.Obj? && "$ref" !in s.fields
    ensures Accepts(fuel, root, s, v, rd) <==> RequiredOk(s.fields, v) && AcceptsBelow(fuel, root, s, v, rd)
  {
  }

  lemma IdleOneWay(fuel: nat, a: Json, b: Json, s: Json, v: Json, rd: Reader)
    requires RefFree(s) && s.Obj? && SameInside(fuel, a, b, s, rd)
    ensures Accepts(fuel, a, s, v, rd) ==> Accepts(fuel, b, s, v, rd)
  {
    AcceptsInParts(fuel, a, s, v, rd);
    AcceptsInParts(fuel, b, s, v, rd);
    if AcceptsBelow(fuel, a, s, v, rd) { BelowIdle(fuel, a, b, s, v, rd); }
  }

  lemma SameBack(fuel: nat, a: Json, b: Json, s: Json, rd: Reader)
    requires SameInside(fuel, a, b, s, rd)
    ensures SameInside(fuel, b, a, s, rd)
  {
  }

  /** A schema without references means the same in every document. */
  lemma {:induction false} RootIsIdle(fuel: nat, a: Json, b: Json, s: Json, v: Json, rd: Reader)
    requires RefFree(s)
    ensures Accepts(fuel, a, s, v, rd) <==> Accepts(fuel, b, s, v, rd)
    decreases s
  {
    if s.Obj? {
      forall t, w | t < s && RefFree(t) ensures Accepts(fuel, a, t, w, rd) <==> Accepts(fuel, b, t, w, rd) {
        RootIsIdle(fuel, a, b, t, w, rd);
      }
      SameBack(fuel, a, b, s, rd);
      IdleOneWay(fuel, a, b, s, v, rd);
      IdleOneWay(fuel, b, a, s, v, rd);
    }
  }

  // ---- narrowing --------------------------------------------------------------------------------

  lemma {:induction false} Narrows(refs: Refs, fuel: nat, root: Json, s: Json, rewritten: bool, v: Json, rd: Reader)
    requires Document(root, refs) && Clean(s, refs) && Accepts(fuel, Rewrite(root), Form(s, rewritten), v, rd)
    ensures Accepts(fuel, root, s, v, rd)
    decreases fuel, s, 3
  {
    if s.Obj? {
      if "$ref" in s.fields {
        TargetNarrows(refs, fuel, root, s, rewritten, v, rd);
      } else {
        NarrowsBelow(refs, fuel, root, s, rewritten, v, rd);
        RequiredNarrows(s, rewritten, v);
      }
    }
  }

  /** A reference accepts what its target accepts. */
  lemma FollowsRef(fuel: nat, root: Json, s: Json, t: Json, v: Json, rd: Reader)
    requires HasKey(s, "$ref") && Resolve(root, s.fields["$ref"]) == Some(t)
    ensures Accepts(fuel, root, s, v, rd) <==> fuel > 0 && Accepts(fuel - 1, root, t, v, rd)
  {
  }

  lemma Followed(fuel: nat, root: Json, s: Json, v: Json, rd: Reader) returns (r: Json)
    requires HasKey(s, "$ref") && Accepts(fuel, root, s, v, rd)
    ensures fuel > 0 && Resolve(root, s.fields["$ref"]) == Some(r) && r != Bool(false)
    ensures Accepts(fuel - 1, root, r, v, rd)
  {
    r := Resolve(root, s.fields["$ref"]).value;
  }

  /** A reference leads to something that accepts nothing, or to a form of what it led to. */
  lemma {:induction false} TargetNarrows(refs: Refs, fuel: nat, root: Json, s: Json, rewritten: bool, v: Json,
                                         rd: Reader)
    requires Document(root, refs) && HasKey(s, "$ref") && refs(s.fields["$ref"])
    requires Accepts(fuel, Rewrite(root), Form(s, rewritten), v, rd)
    ensures Accepts(fuel, root, s, v, rd)
    decreases fuel, s, 2
  {
    ReferenceStays(s, rewritten);
    var r := Followed(fuel, Rewrite(root), Form(s, rewritten), v, rd);
    var t, form := TargetForm(root, refs, s.fields["$ref"], r);
    if Clean(t, refs) {
      Narrows(refs, fuel - 1, root, t, form, v, rd);
    } else {
      RootIsIdle(fuel - 1, root, Rewrite(root), t, v, rd);
    }
    FollowsRef(fuel, root, s, t, v, rd);
  }

  lemma ReferenceStays(s: Json, rewritten: bool)
    requires HasKey(s, "$ref")
    ensures HasKey(Form(s, rewritten), "$ref") && Form(s, rewritten).fields["$ref"] == s.fields["$ref"]
  {
  }

  lemma TargetForm(root: Json, refs: Refs, ref: Json, r: Json) returns (t: Json, rewritten: bool)
    requires Document(root, refs) && refs(ref) && Resolve(Rewrite(root), ref) == Some(r) && r != Bool(false)
    ensures Resolve(root, ref) == Some(t) && r == Form(t, rewritten)
    ensures Clean(t, refs) || (RefFree(t) && !rewritten)
  {
    assert Leads(r, Resolve(root, ref), refs);
    t := Resolve(root, ref).value;
    rewritten := r != t;
  }

  lemma RequiredNarrows(s: Json, rewritten: bool, v: Json)
    requires s.Obj? && "$ref" !in s.fields && Declared(s.fields) && RequiredOk(Form(s, rewritten).fields, v)
    ensures RequiredOk(s.fields, v)
  {
    FormOfLimits(s, rewritten);
    if v.Obj? && rewritten && CanBeClosed(s.fields) {
      RequiresAll(PropertiesOf(s.fields).fields.Keys, Form(s, rewritten).fields, v);
    }
  }

  lemma StrsAre(names: seq<string>)
    ensures forall n :: n in names ==> Str(n) in Strs(names)
    ensures forall j :: j in Strs(names) ==> j.Str? && j.text in names
  {
    forall n | n in names ensures Str(n) in Strs(names) {
      var i :| 0 <= i < |names| && names[i] == n;
      assert Strs(names)[i] == Str(n);
    }
  }

  lemma RequiresAll(names: set<string>, t: map<string, Json>, v: Json)
    requires "required" in t && t["required"] == Arr(Strs(Sorted(names))) && v.Obj?
    ensures RequiredOk(t, v) <==> names <= v.fields.Keys
  {
    var items := t["required"].items;
    StrsAre(Sorted(names));
    if RequiredOk(t, v) {
      forall n | n in names ensures n in v.fields { assert Str(n) in items; }
    }
  }

  /** Everything but the required names. */
  predicate AcceptsBelow(fuel: nat, root: Json, s: Json, v: Json, rd: Reader)
    requires s.Obj?
  {
    && TypeOk(s.fields, v) && OthersOk(s.fields, v, rd)
    && MembersOk(fuel, root, s, v, rd) && ItemsOk(fuel, root, s, v, rd) && CombinedOk(fuel, root, s, v, rd)
    && HeldOk(fuel, root, s, v, rd) && ConditionOk(fuel, root, s, v, rd)
  }

  lemma {:induction false} NarrowsBelow(refs: Refs, fuel: nat, root: Json, s: Json, rewritten: bool, v: Json,
                                        rd: Reader)
    requires s.Obj? && "$ref" !in s.fields && Form(s, rewritten).Obj?
    requires Document(root, refs) && CleanBelow(s, refs) && AcceptsBelow(fuel, Rewrite(root), Form(s, rewritten), v, rd)
    ensures AcceptsBelow(fuel, root, s, v, rd)
    decreases fuel, s, 2
  {
    var t := Form(s, rewritten);
    FormAt(s, rewritten, "type");
    if "type" in s.fields { assert t.fields["type"] == s.fields["type"]; }
    forall k | k in s.fields && k !in MODELLED ensures rd.other(k, s.fields[k], v) {
      FormAt(s, rewritten, k);
      assert HoldsAt(k) == Nothing && k in t.fields && t.fields[k] == s.fields[k];
    }
    MembersNarrow(refs, fuel, root, s, rewritten, v, rd);
    ItemsNarrow(refs, fuel, root, s, rewritten, v, rd);
    CombinedNarrow(refs, fuel, root, s, rewritten, v, rd);
    HeldNarrow(refs, fuel, root, s, rewritten, v, rd);
    ConditionNarrows(refs, fuel, root, s, rewritten, v, rd);
  }

  lemma {:induction false} MembersNarrow(refs: Refs, fuel: nat, root: Json, s: Json, rewritten: bool, v: Json,
                                         rd: Reader)
    requires s.Obj? && "$ref" !in s.fields && Form(s, rewritten).Obj?
    requires Document(root, refs) && CleanBelow(s, refs) && MembersOk(fuel, Rewrite(root), Form(s, rewritten), v, rd)
    ensures MembersOk(fuel, root, s, v, rd)
    decreases fuel, s, 1
  {
    if v.Obj? {
      forall k | k in v.fields
        ensures k in NamedAt(s.fields, "properties") ==>
                  Accepts(fuel, root, NamedAt(s.fields, "properties")[k], v.fields[k], rd)
        ensures forall p :: p in NamedAt(s.fields, "patternProperties") && rd.matches(p, k) ==>
                  Accepts(fuel, root, NamedAt(s.fields, "patternProperties")[p], v.fields[k], rd)
        ensures "additionalProperties" in s.fields && k !in NamedAt(s.fields, "properties") &&
                !Matched(s.fields, k, rd) ==>
                  Accepts(fuel, root, s.fields["additionalProperties"], v.fields[k], rd)
      {
        if k in NamedAt(s.fields, "properties") { PropertyNarrows(refs, fuel, root, s, rewritten, v, k, rd); }
        forall p | p in NamedAt(s.fields, "patternProperties") && rd.matches(p, k)
          ensures Accepts(fuel, root, NamedAt(s.fields, "patternProperties")[p], v.fields[k], rd)
        {
          PatternNarrows(refs, fuel, root, s, rewritten, v, k, p, rd);
        }
        if "additionalProperties" in s.fields && k !in NamedAt(s.fields, "properties") && !Matched(s.fields, k, rd) {
          AdditionalNarrows(refs, fuel, root, s, rewritten, v, k, rd);
        }
      }
    }
  }

  lemma {:induction false} PropertyNarrows(refs: Refs, fuel: nat, root: Json, s: Json,
                                           rewritten: bool, v: Json, k: string, rd: Reader)
    requires s.Obj? && "$ref" !in s.fields && Form(s, rewritten).Obj? && v.Obj? && k in v.fields
    requires Document(root, refs) && CleanBelow(s, refs) && MembersOk(fuel, Rewrite(root), Form(s, rewritten), v, rd)
    requires k in NamedAt(s.fields, "properties")
    ensures Accepts(fuel, root, NamedAt(s.fields, "properties")[k], v.fields[k], rd)
    decreases fuel, s, 0
  {
    FormOfProperties(s, rewritten);
    assert CleanField("properties", s.fields["properties"], refs);
    Narrows(refs, fuel, root, NamedAt(s.fields, "properties")[k], rewritten, v.fields[k], rd);
  }

  lemma {:induction false} PatternNarrows(refs: Refs, fuel: nat, root: Json, s: Json,
                                          rewritten: bool, v: Json, k: string, p: string, rd: Reader)
    requires s.Obj? && "$ref" !in s.fields && Form(s, rewritten).Obj? && v.Obj? && k in v.fields
    requires Document(root, refs) && CleanBelow(s, refs) && MembersOk(fuel, Rewrite(root), Form(s, rewritten), v, rd)
    requires p in NamedAt(s.fields, "patternProperties") && rd.matches(p, k)
    ensures Accepts(fuel, root, NamedAt(s.fields, "patternProperties")[p], v.fields[k], rd)
    decreases fuel, s, 0
  {
    PatternsStay(s, rewritten);
    assert CleanField("patternProperties", s.fields["patternProperties"], refs);
    Narrows(refs, fuel, root, NamedAt(s.fields, "patternProperties")[p], false, v.fields[k], rd);
  }

  lemma {:induction false} AdditionalNarrows(refs: Refs, fuel: nat, root: Json, s: Json,
                                             rewritten: bool, v: Json, k: string, rd: Reader)
    requires s.Obj? && "$ref" !in s.fields && Form(s, rewritten).Obj? && v.Obj? && k in v.fields
    requires Document(root, refs) && CleanBelow(s, refs) && MembersOk(fuel, Rewrite(root), Form(s, rewritten), v, rd)
    requires "additionalProperties" in s.fields && k !in NamedAt(s.fields, "properties") && !Matched(s.fields, k, rd)
    ensures Accepts(fuel, root, s.fields["additionalProperties"], v.fields[k], rd)
    decreases fuel, s, 0
  {
    var t := Form(s, rewritten).fields;
    FormOfProperties(s, rewritten);
    PatternsStay(s, rewritten);
    FormOfLimits(s, rewritten);
    assert !Matched(t, k, rd) && k !in NamedAt(t, "properties") && "additionalProperties" in t;
    assert Accepts(fuel, Rewrite(root), t["additionalProperties"], v.fields[k], rd);
    assert t["additionalProperties"] != Bool(false);
    assert CleanField("additionalProperties", s.fields["additionalProperties"], refs);
    Narrows(refs, fuel, root, s.fields["additionalProperties"], false, v.fields[k], rd);
  }

  lemma {:induction false} ItemsNarrow(refs: Refs, fuel: nat, root: Json, s: Json, rewritten: bool, v: Json, rd: Reader)
    requires s.Obj? && "$ref" !in s.fields && Form(s, rewritten).Obj?
    requires Document(root, refs) && CleanBelow(s, refs) && ItemsOk(fuel, Rewrite(root), Form(s, rewritten), v, rd)
    ensures ItemsOk(fuel, root, s, v, rd)
    decreases fuel, s, 0
  {
    var f, t := s.fields, Form(s, rewritten).fields;
    if v.Arr? && "items" in f {
      FormAt(s, rewritten, "items");
      FormAt(s, rewritten, "additionalItems");
      assert CleanField("items", f["items"], refs);
      if f["items"].Arr? { FormOfItems("items", f["items"], rewritten); } else { FormOfOne(f["items"], rewritten); }
      forall i | 0 <= i < |v.items|
        ensures if !f["items"].Arr? then Accepts(fuel, root, f["items"], v.items[i], rd)
                else if i < |f["items"].items| then Accepts(fuel, root, f["items"].items[i], v.items[i], rd)
                else "additionalItems" in f ==> Accepts(fuel, root, f["additionalItems"], v.items[i], rd)
      {
        if !f["items"].Arr? {
          Narrows(refs, fuel, root, f["items"], rewritten, v.items[i], rd);
        } else if i < |f["items"].items| {
          Narrows(refs, fuel, root, f["items"].items[i], rewritten, v.items[i], rd);
        } else if "additionalItems" in f {
          assert CleanField("additionalItems", f["additionalItems"], refs) &&
            t["additionalItems"] == f["additionalItems"];
          Narrows(refs, fuel, root, f["additionalItems"], false, v.items[i], rd);
        }
      }
    }
  }

  lemma {:induction false} CombinedNarrow(refs: Refs, fuel: nat, root: Json, s: Json, rewritten: bool, v: Json,
                                          rd: Reader)
    requires s.Obj? && "$ref" !in s.fields && Form(s, rewritten).Obj?
    requires Document(root, refs) && CleanBelow(s, refs) && CombinedOk(fuel, Rewrite(root), Form(s, rewritten), v, rd)
    ensures CombinedOk(fuel, root, s, v, rd)
    decreases fuel, s, 1
  {
    var f := s.fields;
    ListInForm(s, rewritten, "oneOf");
    AllNarrow(refs, fuel, root, s, rewritten, v, rd);
    if "anyOf" in f && f["anyOf"].Arr? { AnyNarrows(refs, fuel, root, s, rewritten, v, rd); }
    if "oneOf" in f && f["oneOf"].Arr? { OneStays(refs, fuel, root, s, rewritten, v, rd); }
    if "not" in f { NotStays(refs, fuel, root, s, rewritten, v, rd); }
  }

  lemma {:induction false} AllNarrow(refs: Refs, fuel: nat, root: Json, s: Json, rewritten: bool, v: Json, rd: Reader)
    requires s.Obj? && "$ref" !in s.fields && Form(s, rewritten).Obj? && Document(root, refs) && CleanBelow(s, refs)
    requires var l := ListAt(Form(s, rewritten).fields, "allOf");
             forall i :: 0 <= i < |l| ==> Accepts(fuel, Rewrite(root), l[i], v, rd)
    ensures var l := ListAt(s.fields, "allOf"); forall i :: 0 <= i < |l| ==> Accepts(fuel, root, l[i], v, rd)
    decreases fuel, s, 0
  {
    ListInForm(s, rewritten, "allOf");
    forall i | 0 <= i < |ListAt(s.fields, "allOf")| ensures Accepts(fuel, root, ListAt(s.fields, "allOf")[i], v, rd) {
      assert CleanField("allOf", s.fields["allOf"], refs);
      Narrows(refs, fuel, root, ListAt(s.fields, "allOf")[i], rewritten, v, rd);
    }
  }

  lemma {:induction false} AnyNarrows(refs: Refs, fuel: nat, root: Json, s: Json, rewritten: bool, v: Json, rd: Reader)
    requires s.Obj? && "$ref" !in s.fields && Form(s, rewritten).Obj? && Document(root, refs) && CleanBelow(s, refs)
    requires "anyOf" in s.fields && s.fields["anyOf"].Arr?
    requires CombinedOk(fuel, Rewrite(root), Form(s, rewritten), v, rd)
    ensures var l := ListAt(s.fields, "anyOf"); exists i :: 0 <= i < |l| && Accepts(fuel, root, l[i], v, rd)
    decreases fuel, s, 0
  {
    var t := Form(s, rewritten).fields;
    ListInForm(s, rewritten, "anyOf");
    var i :| 0 <= i < |ListAt(t, "anyOf")| && Accepts(fuel, Rewrite(root), ListAt(t, "anyOf")[i], v, rd);
    assert CleanField("anyOf", s.fields["anyOf"], refs);
    Narrows(refs, fuel, root, ListAt(s.fields, "anyOf")[i], rewritten, v, rd);
  }

  lemma OneStays(refs: Refs, fuel: nat, root: Json, s: Json, rewritten: bool, v: Json, rd: Reader)
    requires s.Obj? && "$ref" !in s.fields && Form(s, rewritten).Obj? && CleanBelow(s, refs)
    requires "oneOf" in s.fields && s.fields["oneOf"].Arr?
    ensures OneOk(fuel, Rewrite(root), Form(s, rewritten), v, rd) <==> OneOk(fuel, root, s, v, rd)
  {
    var l, t := ListAt(s.fields, "oneOf"), ListAt(Form(s, rewritten).fields, "oneOf");
    ListInForm(s, rewritten, "oneOf");
    assert CleanField("oneOf", s.fields["oneOf"], refs);
    forall i | 0 <= i < |l|
      ensures t[i] == l[i] && (Accepts(fuel, Rewrite(root), l[i], v, rd) <==> Accepts(fuel, root, l[i], v, rd))
    {
      StrictStays(l[i]);
      RootIsIdle(fuel, root, Rewrite(root), l[i], v, rd);
    }
    SameOne(fuel, Rewrite(root), root, Form(s, rewritten), s, v, rd);
    SameOne(fuel, root, Rewrite(root), s, Form(s, rewritten), v, rd);
  }

  lemma SameOne(fuel: nat, a: Json, b: Json, s: Json, t: Json, v: Json, rd: Reader)
    requires s.Obj? && t.Obj? && |ListAt(s.fields, "oneOf")| == |ListAt(t.fields, "oneOf")|
    requires forall i :: 0 <= i < |ListAt(s.fields, "oneOf")| ==>
               (Accepts(fuel, a, ListAt(s.fields, "oneOf")[i], v, rd) <==>
                 Accepts(fuel, b, ListAt(t.fields, "oneOf")[i], v, rd))
    ensures OneOk(fuel, a, s, v, rd) ==> OneOk(fuel, b, t, v, rd)
  {
    var l, m := ListAt(s.fields, "oneOf"), ListAt(t.fields, "oneOf");
    if OneOk(fuel, a, s, v, rd) {
      var i :| 0 <= i < |l| && Accepts(fuel, a, l[i], v, rd)
               && forall j :: 0 <= j < |l| && Accepts(fuel, a, l[j], v, rd) ==> j == i;
      assert Accepts(fuel, b, m[i], v, rd);
    }
  }

  lemma NotStays(refs: Refs, fuel: nat, root: Json, s: Json, rewritten: bool, v: Json, rd: Reader)
    requires s.Obj? && "$ref" !in s.fields && Form(s, rewritten).Obj? && CleanBelow(s, refs) && "not" in s.fields
    ensures "not" in Form(s, rewritten).fields
    ensures Accepts(fuel, Rewrite(root), Form(s, rewritten).fields["not"], v, rd) <==>
            Accepts(fuel, root, s.fields["not"], v, rd)
  {
    FormAt(s, rewritten, "not");
    assert CleanField("not", s.fields["not"], refs);
    RootIsIdle(fuel, root, Rewrite(root), s.fields["not"], v, rd);
  }

  lemma {:induction false} HeldNarrow(refs: Refs, fuel: nat, root: Json, s: Json, rewritten: bool, v: Json, rd: Reader)
    requires s.Obj? && "$ref" !in s.fields && Form(s, rewritten).Obj?
    requires Document(root, refs) && CleanBelow(s, refs) && HeldOk(fuel, Rewrite(root), Form(s, rewritten), v, rd)
    ensures HeldOk(fuel, root, s, v, rd)
    decreases fuel, s, 0
  {
    var f, t := s.fields, Form(s, rewritten).fields;
    FormAt(s, rewritten, "contains");
    FormAt(s, rewritten, "propertyNames");
    FormAt(s, rewritten, "dependencies");
    if "contains" in f && v.Arr? {
      assert CleanField("contains", f["contains"], refs) && t["contains"] == f["contains"];
      var i :| 0 <= i < |v.items| && Accepts(fuel, Rewrite(root), f["contains"], v.items[i], rd);
      Narrows(refs, fuel, root, f["contains"], false, v.items[i], rd);
    }
    if "propertyNames" in f && v.Obj? {
      assert CleanField("propertyNames", f["propertyNames"], refs) && t["propertyNames"] == f["propertyNames"];
      forall k | k in v.fields ensures Accepts(fuel, root, f["propertyNames"], Str(k), rd) {
        Narrows(refs, fuel, root, f["propertyNames"], false, Str(k), rd);
      }
    }
    if v.Obj? {
      assert NamedAt(t, "dependencies") == NamedAt(f, "dependencies");
      forall k | k in NamedAt(f, "dependencies") && k in v.fields && !NamedAt(f, "dependencies")[k].Arr?
        ensures Accepts(fuel, root, NamedAt(f, "dependencies")[k], v, rd)
      {
        assert CleanField("dependencies", f["dependencies"], refs);
        Narrows(refs, fuel, root, NamedAt(f, "dependencies")[k], false, v, rd);
      }
    }
  }

  lemma {:induction false} ConditionNarrows(refs: Refs, fuel: nat, root: Json, s: Json, rewritten: bool, v: Json,
                                            rd: Reader)
    requires s.Obj? && "$ref" !in s.fields && Form(s, rewritten).Obj?
    requires Document(root, refs) && CleanBelow(s, refs) && ConditionOk(fuel, Rewrite(root), Form(s, rewritten), v, rd)
    ensures ConditionOk(fuel, root, s, v, rd)
    decreases fuel, s, 0
  {
    var f, t := s.fields, Form(s, rewritten).fields;
    FormAt(s, rewritten, "if");
    FormAt(s, rewritten, "then");
    FormAt(s, rewritten, "else");
    if "if" in f {
      assert CleanField("if", f["if"], refs) && t["if"] == f["if"];
      RootIsIdle(fuel, root, Rewrite(root), f["if"], v, rd);
      var branch := if Accepts(fuel, root, f["if"], v, rd) then "then" else "else";
      if branch in f {
        assert CleanField(branch, f[branch], refs) && t[branch] == f[branch];
        Narrows(refs, fuel, root, f[branch], false, v, rd);
      }
    }
  }

  /** Every value a rewritten schema accepts was accepted before, however many references are followed. */
  lemma StrictOnlyNarrows(fuel: nat, schema: Json, v: Json, rd: Reader)
    requires Clean(schema, AnyRef) && Accepts(fuel, Rewrite(schema), Rewrite(schema), v, rd)
    ensures Accepts(fuel, schema, schema, v, rd)
  {
    CleanDocument(schema);
    Narrows(AnyRef, fuel, schema, schema, true, v, rd);
  }

  // ---- what strict means, and where narrowing ends ------------------------------------------------

  /** Rewritten, an object schema with object properties accepts only objects that have every declared name, and
      no further names but those a pattern admits. */
  lemma StrictMeansExactNames(fuel: nat, root: Json, s: Json, v: Json, rd: Reader)
    requires s.Obj? && "$ref" !in s.fields && CanBeClosed(s.fields) && Accepts(fuel, root, Rewrite(s), v, rd)
    ensures v.Obj? && PropertiesOf(s.fields).fields.Keys <= v.fields.Keys
    ensures forall k :: k in v.fields && k !in PropertiesOf(s.fields).fields ==> Matched(s.fields, k, rd)
  {
    var t := Rewrite(s).fields;
    FormAt(s, true, "type");
    FormOfProperties(s, true);
    FormOfLimits(s, true);
    PatternsStay(s, true);
    HeldAt(s, "type");
    assert Form(s, true) == Rewrite(s) && t["type"] == Str("object") && v.Obj?;
    RequiresAll(PropertiesOf(s.fields).fields.Keys, t, v);
    forall k | k in v.fields && k !in PropertiesOf(s.fields).fields ensures Matched(s.fields, k, rd) {
      assert Matched(t, k, rd) || Accepts(fuel, root, t["additionalProperties"], v.fields[k], rd);
      assert Matched(s.fields, k, rd) <==> Matched(t, k, rd);
    }
  }

  /** An object schema whose own keys say what it holds: it will be closed, and no pattern admits
      further names. */
  predicate Closable(s: Json) {
    s.Obj? && "$ref" !in s.fields && CanBeClosed(s.fields) && "patternProperties" !in s.fields
  }

  /** Without patterns the names are exactly the declared ones. */
  lemma ClosedMeansExactNames(fuel: nat, root: Json, s: Json, v: Json, rd: Reader)
    requires Closable(s) && Accepts(fuel, root, Rewrite(s), v, rd)
    ensures v.Obj? && v.fields.Keys == PropertiesOf(s.fields).fields.Keys
  {
    StrictMeansExactNames(fuel, root, s, v, rd);
    assert forall k :: !Matched(s.fields, k, rd);
  }

  ghost predicate NarrowsAll(fuel: nat, root: Json, s: Json, rd: Reader) {
    forall v :: Accepts(fuel, Rewrite(root), Rewrite(s), v, rd) ==> Accepts(fuel, root, s, v, rd)
  }

  ghost predicate AcceptsNone(fuel: nat, root: Json, s: Json, rd: Reader) {
    forall v :: !Accepts(fuel, root, s, v, rd)
  }

  /** A value with exactly the declared names has the required ones if and only if these are declared. */
  lemma UndeclaredIsMissing(fuel: nat, root: Json, s: Json, v: Json, rd: Reader)
    requires Closable(s) && Accepts(fuel, Rewrite(root), Rewrite(s), v, rd)
    ensures RequiredOk(s.fields, v) <==> Declared(s.fields)
    ensures !Declared(s.fields) ==> !Accepts(fuel, root, s, v, rd)
  {
    ClosedMeansExactNames(fuel, Rewrite(root), s, v, rd);
  }

  /** Whatever a schema contains or refers to: if it requires a name it does not declare, then nothing that its
      rewritten form accepts was accepted before. */
  lemma UndeclaredNeverNarrows(fuel: nat, root: Json, s: Json, rd: Reader)
    requires Closable(s) && !Declared(s.fields)
    ensures NarrowsAll(fuel, root, s, rd) <==> AcceptsNone(fuel, Rewrite(root), Rewrite(s), rd)
  {
    forall v | Accepts(fuel, Rewrite(root), Rewrite(s), v, rd) ensures !Accepts(fuel, root, s, v, rd) {
      UndeclaredIsMissing(fuel, root, s, v, rd);
    }
  }

  /** A schema read as its own document, clean but for its own required names: the rewrite narrows it exactly
      when those names are declared, or when the rewritten schema accepts nothing at all. */
  lemma UndeclaredNamesWiden(fuel: nat, s: Json, rd: Reader)
    requires Closable(s) && CleanBelow(s, AnyRef)
    ensures NarrowsAll(fuel, s, s, rd) <==> Declared(s.fields) || AcceptsNone(fuel, Rewrite(s), Rewrite(s), rd)
  {
    if Declared(s.fields) {
      forall v | Accepts(fuel, Rewrite(s), Rewrite(s), v, rd) ensures Accepts(fuel, s, s, v, rd) {
        StrictOnlyNarrows(fuel, s, v, rd);
      }
    } else {
      UndeclaredNeverNarrows(fuel, s, s, rd);
    }
  }

  /** The same for a schema anywhere in a document, when what its references lead to is clean. */
  lemma UndeclaredBelowWidens(fuel: nat, root: Json, s: Json, refs: Refs, rd: Reader)
    requires Document(root, refs) && Closable(s) && CleanBelow(s, refs)
    ensures NarrowsAll(fuel, root, s, rd) <==> Declared(s.fields) || AcceptsNone(fuel, Rewrite(root), Rewrite(s), rd)
  {
    if Declared(s.fields) {
      forall v | Accepts(fuel, Rewrite(root), Rewrite(s), v, rd) ensures Accepts(fuel, root, s, v, rd) {
        Narrows(refs, fuel, root, s, true, v, rd);
      }
    } else {
      UndeclaredNeverNarrows(fuel, root, s, rd);
    }
  }

  /** A schema that is itself a reference loses its definitions: rewritten, it accepts nothing. */
  lemma {:induction false} RootReferenceAcceptsNothing(fuel: nat, root: Json, v: Json, rd: Reader)
    requires root.Obj? && "$ref" in root.fields
    ensures !Accepts(fuel, Rewrite(root), Rewrite(root), v, rd)
  {
    if fuel > 0 {
      var t := Rewrite(root);
      assert t.fields == map["$ref" := root.fields["$ref"]];
      var ref := t.fields["$ref"];
      if ref.Str? && "#/" <= ref.text { NothingBeside(root, Segments(ref.text[2..])); }
      if Resolve(t, ref).Some? {
        assert Resolve(t, ref).value == t;
        RootReferenceAcceptsNothing(fuel - 1, root, v, rd);
      }
    }
  }
}
