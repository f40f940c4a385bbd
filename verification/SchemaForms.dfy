/** Which schemas the strict rewrite is safe for, and how a schema and its rewritten form compare, key by key
    and along references. */
module SchemaForms {
  import opened Wrappers
  import opened Text
  import opened JsonValues
  import opened StrictSchema
  import opened SchemaPointers

  function NamedAt(f: map<string, Json>, key: string): map<string, Json> {
    if key in f && f[key].Obj? then f[key].fields else map[]
  }

  function ListAt(f: map<string, Json>, key: string): seq<Json> {
    if key in f && f[key].Arr? then f[key].items else []
  }

  // ---- schemas the claim is about ---------------------------------------------------------------

  /** The names an object that will be closed requires are among its properties. */
  predicate Declared(f: map<string, Json>) {
    IsObjectSchema(f) && PropertiesOf(f).Obj? && "required" in f && f["required"].Arr? ==>
      forall n :: n in f["required"].items && n.Str? ==> n.text in PropertiesOf(f).fields
  }

  /** No reference anywhere in it. */
  predicate RefFree(j: Json)
    decreases j
  {
    match j
    case Obj(fields) => "$ref" !in fields && forall k :: k in fields ==> RefFree(fields[k])
    case Arr(items) => forall i :: 0 <= i < |items| ==> RefFree(items[i])
    case _ => true
  }

  /** References that may be followed. */
  type Refs = Json -> bool

  /** No reference below `not` or `if`, `oneOf` only among reference-free schemas that are strict already, and
      required names are declared, wherever a value can be led; references are among `refs`. */
  predicate Clean(s: Json, refs: Refs)
    decreases s, 1
  {
    s.Obj? ==> if "$ref" in s.fields then refs(s.fields["$ref"]) else Declared(s.fields) && CleanBelow(s, refs)
  }

  predicate CleanBelow(s: Json, refs: Refs)
    requires s.Obj?
    decreases s, 0
  {
    forall k :: k in s.fields ==> CleanField(k, s.fields[k], refs)
  }

  predicate CleanField(key: string, v: Json, refs: Refs)
    decreases v, 2
  {
    if key in {"not", "if"} then RefFree(v)
    else if key == "oneOf" then
        (v.Arr? ==> forall i :: 0 <= i < |v.items| ==> RefFree(v.items[i]) && Strict(v.items[i]))
    else if key in {"contains", "propertyNames", "then", "else"} then Clean(v, refs)
    else if HoldsAt(key) == NamedSchemas || key in {"patternProperties", "dependencies"} then v.Obj? ==>
        forall k :: k in v.fields ==> Clean(v.fields[k], refs)
    else if key in {"additionalProperties", "additionalItems"} then Clean(v, refs)
    else if HoldsAt(key) == Schemas then v.Arr? ==> forall i :: 0 <= i < |v.items| ==> Clean(v.items[i], refs)
    else if HoldsAt(key) == SchemaOrSchemas then Clean(v, refs) &&
        (v.Arr? ==> forall i :: 0 <= i < |v.items| ==> Clean(v.items[i], refs))
    else true
  }

  predicate AnyRef(ref: Json) { true }

  // ---- how a schema and its rewritten form compare ------------------------------------------------

  /** Inside a rewritten document a schema is either rewritten or, where the rewrite does not go, as it was. */
  function Form(s: Json, rewritten: bool): Json {
    if rewritten then Rewrite(s) else s
  }

  function FormField(key: string, v: Json, rewritten: bool): Json {
    if rewritten then RewriteField(key, v) else v
  }

  predicate CanBeClosed(f: map<string, Json>) {
    IsObjectSchema(f) && PropertiesOf(f).Obj?
  }

  lemma FormAt(s: Json, rewritten: bool, k: string)
    requires s.Obj? && "$ref" !in s.fields
    ensures Form(s, rewritten).Obj? && "$ref" !in Form(s, rewritten).fields
    ensures var f, t := s.fields, Form(s, rewritten).fields;
            && (k in f ==> k in t)
            && (k !in {"properties", "additionalProperties", "required"} ==>
                  (k in t ==> k in f) && (k in f ==> t[k] == FormField(k, f[k], rewritten)))
  {
    if rewritten {
      var g := RewriteHeld(s);
      assert Rewrite(s) == Obj(Closed(g));
      assert k in g ==> g[k] == RewriteField(k, s.fields[k]);
    }
  }

  lemma HeldAt(s: Json, k: string)
    requires s.Obj? && k in s.fields
    ensures RewriteHeld(s)[k] == RewriteField(k, s.fields[k])
    ensures HoldsAt(k) == Nothing ==> RewriteHeld(s)[k] == s.fields[k]
  {
  }

  /** Declared properties stay declared, each in its form, and no others are added. */
  lemma FormOfProperties(s: Json, rewritten: bool)
    requires s.Obj? && "$ref" !in s.fields
    ensures var f, t := NamedAt(s.fields, "properties"), NamedAt(Form(s, rewritten).fields, "properties");
            t.Keys == f.Keys && forall k :: k in f ==> t[k] == Form(f[k], rewritten)
  {
    if rewritten && "properties" in s.fields {
      HeldAt(s, "properties");
      assert Closed(RewriteHeld(s))["properties"] == RewriteField("properties", s.fields["properties"]);
    }
  }

  lemma ClosedGuard(s: Json)
    requires s.Obj?
    ensures CanBeClosed(RewriteHeld(s)) <==> CanBeClosed(s.fields)
    ensures CanBeClosed(s.fields) ==> PropertiesOf(RewriteHeld(s)).fields.Keys == PropertiesOf(s.fields).fields.Keys
  {
    if "type" in s.fields { HeldAt(s, "type"); }
    if "properties" in s.fields { HeldAt(s, "properties"); }
  }

  lemma FormOfLimits(s: Json, rewritten: bool)
    requires s.Obj? && "$ref" !in s.fields
    ensures var f, t := s.fields, Form(s, rewritten).fields;
            if rewritten && CanBeClosed(f)
            then "required" in t && t["required"] == Arr(Strs(Sorted(PropertiesOf(f).fields.Keys)))
                 && "additionalProperties" in t && t["additionalProperties"] == Bool(false)
            else ("required" in t <==> "required" in f) && ("required" in f ==> t["required"] == f["required"])
                 && ("additionalProperties" in t <==> "additionalProperties" in f)
                 && ("additionalProperties" in f ==> t["additionalProperties"] == f["additionalProperties"])
  {
    if rewritten {
      ClosedGuard(s);
      if "required" in s.fields { HeldAt(s, "required"); }
      if "additionalProperties" in s.fields { HeldAt(s, "additionalProperties"); }
    }
  }

  lemma PatternsStay(s: Json, rewritten: bool)
    requires s.Obj? && "$ref" !in s.fields
    ensures Form(s, rewritten).Obj?
    ensures NamedAt(Form(s, rewritten).fields, "patternProperties") == NamedAt(s.fields, "patternProperties")
  {
    FormAt(s, rewritten, "patternProperties");
    if "patternProperties" in s.fields { HeldAt(s, "patternProperties"); }
  }

  lemma FormOfItems(key: string, v: Json, rewritten: bool)
    requires v.Arr? && HoldsAt(key) in {Schemas, SchemaOrSchemas}
    ensures var t := FormField(key, v, rewritten);
            t.Arr? && |t.items| == |v.items| && forall i :: 0 <= i < |v.items| ==>
              t.items[i] == Form(v.items[i], rewritten)
  {
    if rewritten { assert RewriteField(key, v) == RewriteItems(v); }
  }

  lemma FormOfOne(v: Json, rewritten: bool)
    requires !v.Arr?
    ensures FormField("items", v, rewritten) == Form(v, rewritten) && !Form(v, rewritten).Arr?
  {
    if !v.Obj? { assert RewriteField("items", v) == RewriteItems(v) == v; }
  }

  lemma FormOfNoList(key: string, v: Json, rewritten: bool)
    requires !v.Arr? && HoldsAt(key) == Schemas
    ensures FormField(key, v, rewritten) == v
  {
    assert RewriteField(key, v) == RewriteItems(v) == v;
  }

  lemma ListInForm(s: Json, rewritten: bool, key: string)
    requires s.Obj? && "$ref" !in s.fields && HoldsAt(key) == Schemas
    ensures var f, t := s.fields, Form(s, rewritten).fields;
            && (key in t <==> key in f) && (key in f ==> (t[key].Arr? <==> f[key].Arr?))
            && |ListAt(t, key)| == |ListAt(f, key)|
            && forall i :: 0 <= i < |ListAt(f, key)| ==> ListAt(t, key)[i] == Form(ListAt(f, key)[i], rewritten)
  {
    FormAt(s, rewritten, key);
    if key in s.fields {
      if s.fields[key].Arr? {
        FormOfItems(key, s.fields[key], rewritten);
      } else {
        FormOfNoList(key, s.fields[key], rewritten);
      }
    }
  }

  // ---- along references ---------------------------------------------------------------------------

  /** `r` stands in the rewritten document where `t` stood: a form of a clean schema, or a schema without references
      as it was. */
  ghost predicate Stands(r: Json, t: Json, refs: Refs) {
    ((r == t || r == Rewrite(t)) && Clean(t, refs)) || (r == t && RefFree(t))
  }

  /** What a reference leads to in the rewritten document, and what it led to, if to anything. */
  ghost predicate Leads(r: Json, t: Option<Json>, refs: Refs) {
    r == Bool(false) || (t.Some? && Stands(r, t.value, refs))
  }

  /** What these references lead to is clean itself and leads no further than to one another, or has no references
      and is left alone, or accepts nothing any more. */
  ghost predicate Document(root: Json, refs: Refs) {
    forall ref :: refs(ref) && Resolve(Rewrite(root), ref).Some? ==>
      Leads(Resolve(Rewrite(root), ref).value, Resolve(root, ref), refs)
  }

  lemma FreeWithin(key: string, v: Json, path: seq<string>)
    requires RefFree(v) && Within(key, v, path).Some?
    ensures RefFree(Within(key, v, path).value)
    decreases |path|, 2
  {
    if key in SINGLES || (key == "items" && !v.Arr?) {
      FreePoint(v, path);
    } else if key in TABLES {
      FreePoint(v.fields[path[0]], path[1..]);
    } else {
      FreePoint(Member(v, path[0]).value, path[1..]);
    }
  }

  /** Below a schema without references there are none. */
  lemma {:induction false} FreePoint(s: Json, path: seq<string>)
    requires RefFree(s) && Point(s, path).Some?
    ensures RefFree(Point(s, path).value)
    decreases |path|, 1
  {
    if path != [] { FreeWithin(path[0], s.fields[path[0]], path[1..]); }
  }

  lemma {:induction false} StandsPoint(r: Json, t: Json, path: seq<string>, refs: Refs)
    requires Stands(r, t, refs) && Point(r, path).Some?
    ensures Leads(Point(r, path).value, Point(t, path), refs)
    decreases |path|, 3
  {
    if path != [] {
      if r == t && RefFree(t) {
        FreePoint(t, path);
      } else {
        BelowStands(r, t, r != t, path, refs);
      }
    }
  }

  /** One step down. */
  lemma {:induction false} BelowStands(r: Json, t: Json, rewritten: bool, path: seq<string>, refs: Refs)
    requires path != [] && t.Obj? && "$ref" !in t.fields && r == Form(t, rewritten) && CleanBelow(t, refs)
    requires HasKey(r, path[0]) && Below(r, path).Some?
    ensures Leads(Below(r, path).value, Below(t, path), refs)
    decreases |path|, 2
  {
    var key, rest := path[0], path[1..];
    FormAt(t, rewritten, key);
    if key == "properties" {
      PropertyStands(r, t, rewritten, rest, refs);
    } else if key == "additionalProperties" {
      AdditionalStands(r, t, rewritten, rest, refs);
    } else if key != "required" {
      assert CleanField(key, t.fields[key], refs);
      WithinStands(key, t.fields[key], rewritten, rest, refs);
    }
  }

  lemma {:induction false} PropertyStands(r: Json, t: Json, rewritten: bool, rest: seq<string>, refs: Refs)
    requires t.Obj? && "$ref" !in t.fields && r == Form(t, rewritten) && CleanBelow(t, refs)
    requires HasKey(r, "properties") && Within("properties", r.fields["properties"], rest).Some?
    ensures HasKey(t, "properties")
    ensures Leads(Within("properties", r.fields["properties"], rest).value,
                  Within("properties", t.fields["properties"], rest), refs)
    decreases |rest|, 4
  {
    FormOfProperties(t, rewritten);
    assert CleanField("properties", t.fields["properties"], refs);
    StandsPoint(NamedAt(r.fields, "properties")[rest[0]], NamedAt(t.fields, "properties")[rest[0]], rest[1..], refs);
  }

  lemma {:induction false} AdditionalStands(r: Json, t: Json, rewritten: bool, rest: seq<string>, refs: Refs)
    requires t.Obj? && "$ref" !in t.fields && r == Form(t, rewritten) && CleanBelow(t, refs)
    requires HasKey(r, "additionalProperties") && Point(r.fields["additionalProperties"], rest).Some?
    ensures Leads(Point(r.fields["additionalProperties"], rest).value,
                  if HasKey(t, "additionalProperties") then Point(t.fields["additionalProperties"], rest)
                      else None, refs)
    decreases |rest|, 4
  {
    FormOfLimits(t, rewritten);
    if !(rewritten && CanBeClosed(t.fields)) {
      assert CleanField("additionalProperties", t.fields["additionalProperties"], refs);
      StandsPoint(r.fields["additionalProperties"], t.fields["additionalProperties"], rest, refs);
    }
  }

  lemma {:induction false} WithinStands(key: string, v: Json, rewritten: bool, rest: seq<string>, refs: Refs)
    requires CleanField(key, v, refs) && Within(key, FormField(key, v, rewritten), rest).Some?
    ensures Leads(Within(key, FormField(key, v, rewritten), rest).value, Within(key, v, rest), refs)
    decreases |rest|, 4
  {
    if key in {"not", "if"} {
      FreePoint(v, rest);
    } else if key == "oneOf" {
      OneStands(v, rewritten, rest, refs);
    } else if HoldsAt(key) == NamedSchemas {
      StandsPoint(FormField(key, v, rewritten).fields[rest[0]], v.fields[rest[0]], rest[1..], refs);
    } else if key in {"allOf", "anyOf"} && !v.Arr? {
      FormOfNoList(key, v, rewritten);
    } else if key in {"allOf", "anyOf"} || (key == "items" && v.Arr?) {
      FormOfItems(key, v, rewritten);
      StandsPoint(Member(FormField(key, v, rewritten), rest[0]).value, Member(v, rest[0]).value, rest[1..], refs);
    } else if key == "items" {
      FormOfOne(v, rewritten);
      StandsPoint(Form(v, rewritten), v, rest, refs);
    } else if key in {"patternProperties", "dependencies"} {
      StandsPoint(v.fields[rest[0]], v.fields[rest[0]], rest[1..], refs);
    } else {
      StandsPoint(v, v, rest, refs);
    }
  }

  lemma OneStands(v: Json, rewritten: bool, rest: seq<string>, refs: Refs)
    requires CleanField("oneOf", v, refs) && Within("oneOf", FormField("oneOf", v, rewritten), rest).Some?
    ensures Leads(Within("oneOf", FormField("oneOf", v, rewritten), rest).value, Within("oneOf", v, rest), refs)
  {
    if v.Arr? {
      FormOfItems("oneOf", v, rewritten);
      var i := Decimal(rest[0]);
      StrictStays(v.items[i]);
      FreePoint(v.items[i], rest[1..]);
    } else {
      FormOfNoList("oneOf", v, rewritten);
    }
  }

  /** A reference keeps nothing beside it. */
  lemma NothingBeside(s: Json, path: seq<string>)
    requires HasKey(s, "$ref") && path != []
    ensures Below(Rewrite(s), path) == None
  {
    assert Within("$ref", s.fields["$ref"], path[1..]) == None;
  }

  /** A clean document is one for any references. */
  lemma CleanDocument(root: Json)
    requires Clean(root, AnyRef)
    ensures Document(root, AnyRef)
  {
    forall ref | AnyRef(ref) && Resolve(Rewrite(root), ref).Some?
      ensures Leads(Resolve(Rewrite(root), ref).value, Resolve(root, ref), AnyRef)
    {
      if ref.text != "#" {
        var path := Segments(ref.text[2..]);
        if HasKey(root, "$ref") {
          NothingBeside(root, path);
        } else {
          BelowStands(Rewrite(root), root, true, path, AnyRef);
        }
      }
    }
  }
}
