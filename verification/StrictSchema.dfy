/** The schema rewrite for strict tool calls: objects are closed and all their properties required. */
module StrictSchema {
  import opened Text
  import opened JsonValues

  /** What a key of a schema holds: a schema, a list of schemas, schemas by name, or something else. */
  datatype Holds = Nothing | Schema | Schemas | SchemaOrSchemas | NamedSchemas

  function HoldsAt(key: string): Holds {
    if key in {"$defs", "definitions", "properties"} then NamedSchemas
    else if key in {"anyOf", "oneOf", "allOf"} then Schemas
    else if key == "items" then SchemaOrSchemas
    else Nothing
  }

  function Strs(names: seq<string>): seq<Json> {
    seq(|names|, i requires 0 <= i < |names| => Str(names[i]))
  }

  /** `properties` after the default has been set. */
  function PropertiesOf(f: map<string, Json>): Json {
    if "properties" in f then f["properties"] else Obj(map[])
  }

  predicate IsObjectSchema(f: map<string, Json>) {
    "type" in f && f["type"] == Str("object")
  }

  /** The part of the rewrite that closes one object. */
  function Closed(f: map<string, Json>): map<string, Json> {
    if !IsObjectSchema(f) then f
    else
      var properties := PropertiesOf(f);
      var g := f["properties" := properties];
      if !properties.Obj? then g
      else g["additionalProperties" := Bool(false)]["required" := Arr(Strs(Sorted(properties.fields.Keys)))]
  }

  function Rewrite(j: Json): Json
    decreases j, 1
  {
    if !j.Obj? then j
    else if "$ref" in j.fields then Obj(map["$ref" := j.fields["$ref"]])
    else Obj(Closed(RewriteHeld(j)))
  }

  /** Every schema an object holds, rewritten in its place. */
  function RewriteHeld(j: Json): (g: map<string, Json>)
    requires j.Obj?
    ensures g.Keys == j.fields.Keys
    decreases j, 0
  {
    map k | k in j.fields :: RewriteField(k, j.fields[k])
  }

  function RewriteField(key: string, v: Json): Json
    decreases v, 2
  {
    match HoldsAt(key)
    case NamedSchemas => if v.Obj? then Obj(map k | k in v.fields :: Rewrite(v.fields[k])) else v
    case Schemas => RewriteItems(v)
    case SchemaOrSchemas => if v.Obj? then Rewrite(v) else RewriteItems(v)
    case _ => v
  }

  function RewriteItems(v: Json): Json
    decreases v, 0
  {
    if v.Arr? then Arr(seq(|v.items|, i requires 0 <= i < |v.items| => Rewrite(v.items[i]))) else v
  }

  // ---- what a strict schema is ------------------------------------------------------------------

  /** An object with object properties says that it is closed and requires them all, in order. */
  predicate ClosedHere(f: map<string, Json>) {
    IsObjectSchema(f) ==>
      && "properties" in f
      && (f["properties"].Obj? ==>
            && "additionalProperties" in f && f["additionalProperties"] == Bool(false)
            && "required" in f && f["required"] == Arr(Strs(Sorted(f["properties"].fields.Keys))))
  }

  /** Every schema that can be reached is a bare reference or closed. */
  predicate Strict(j: Json)
    decreases j, 1
  {
    j.Obj? ==>
      if "$ref" in j.fields then j.fields.Keys == {"$ref"}
      else ClosedHere(j.fields) && forall k :: k in j.fields ==> StrictField(k, j.fields[k])
  }

  predicate StrictField(key: string, v: Json)
    decreases v, 2
  {
    match HoldsAt(key)
    case NamedSchemas => v.Obj? ==> forall k :: k in v.fields ==> Strict(v.fields[k])
    case Schemas => StrictItems(v)
    case SchemaOrSchemas => if v.Obj? then Strict(v) else StrictItems(v)
    case _ => true
  }

  predicate StrictItems(v: Json)
    decreases v, 0
  {
    v.Arr? ==> forall i :: 0 <= i < |v.items| ==> Strict(v.items[i])
  }

  // ---- the rewrite yields strict schemas --------------------------------------------------------

  lemma {:induction false} RewriteIsStrict(j: Json)
    ensures Strict(Rewrite(j))
    decreases j, 1
  {
    if j.Obj? && "$ref" !in j.fields {
      HeldIsStrict(j);
      ClosedIsClosed(RewriteHeld(j));
      ClosedHolds(RewriteHeld(j));
    }
  }

  ghost predicate HoldsStrict(g: map<string, Json>) {
    forall k :: k in g ==> StrictField(k, g[k])
  }

  lemma {:induction false} HeldIsStrict(j: Json)
    requires j.Obj?
    ensures HoldsStrict(RewriteHeld(j))
    decreases j, 0
  {
    forall k | k in j.fields ensures StrictField(k, RewriteHeld(j)[k]) { RewriteFieldIsStrict(k, j.fields[k]); }
  }

  lemma ClosedHolds(g: map<string, Json>)
    requires HoldsStrict(g)
    ensures HoldsStrict(Closed(g))
  {
    forall k | k in Closed(g) ensures StrictField(k, Closed(g)[k]) { ClosedHoldsAt(g, k); }
  }

  lemma ClosedHoldsAt(g: map<string, Json>, k: string)
    requires k in Closed(g) && (k in g ==> StrictField(k, g[k]))
    ensures StrictField(k, Closed(g)[k])
  {
    if k in {"additionalProperties", "required"} {
      assert HoldsAt(k) == Nothing;
    } else if k == "properties" && k !in g {
      assert Closed(g)[k] == Obj(map[]);
    } else {
      assert Closed(g)[k] == g[k];
    }
  }

  lemma ClosedIsClosed(g: map<string, Json>)
    ensures ClosedHere(Closed(g))
    ensures "$ref" !in g ==> "$ref" !in Closed(g)
  {
  }

  lemma {:induction false} RewriteFieldIsStrict(key: string, v: Json)
    ensures StrictField(key, RewriteField(key, v))
    decreases v, 2
  {
    match HoldsAt(key)
    case NamedSchemas =>
      if v.Obj? { forall k | k in v.fields ensures Strict(Rewrite(v.fields[k])) { RewriteIsStrict(v.fields[k]); } }
    case Schemas => RewriteItemsIsStrict(v);
    case SchemaOrSchemas => if v.Obj? { RewriteIsStrict(v); RewriteKind(v); } else { RewriteItemsIsStrict(v); }
    case _ =>
  }

  lemma RewriteKind(v: Json)
    ensures Rewrite(v).Obj? <==> v.Obj?
  {
  }

  lemma {:induction false} RewriteItemsIsStrict(v: Json)
    ensures StrictItems(RewriteItems(v))
    decreases v, 0
  {
    if v.Arr? {
      forall i | 0 <= i < |v.items| ensures Strict(Rewrite(v.items[i])) { RewriteIsStrict(v.items[i]); }
    }
  }

  // ---- and leaves strict schemas alone ----------------------------------------------------------

  lemma {:induction false} StrictStays(j: Json)
    requires Strict(j)
    ensures Rewrite(j) == j
    decreases j, 1
  {
    if j.Obj? {
      if "$ref" in j.fields {
        assert map["$ref" := j.fields["$ref"]] == j.fields;
      } else {
        var g := RewriteHeld(j);
        forall k | k in j.fields ensures g[k] == j.fields[k] { StrictFieldStays(k, j.fields[k]); }
        assert g == j.fields;
        ClosedStays(g);
      }
    }
  }

  lemma ClosedStays(g: map<string, Json>)
    requires ClosedHere(g)
    ensures Closed(g) == g
  {
    if IsObjectSchema(g) {
      assert g["properties" := g["properties"]] == g;
    }
  }

  lemma {:induction false} StrictFieldStays(key: string, v: Json)
    requires StrictField(key, v)
    ensures RewriteField(key, v) == v
    decreases v, 2
  {
    match HoldsAt(key)
    case NamedSchemas =>
      if v.Obj? {
        forall k | k in v.fields ensures Rewrite(v.fields[k]) == v.fields[k] { StrictStays(v.fields[k]); }
        assert (map k | k in v.fields :: Rewrite(v.fields[k])) == v.fields;
      }
    case Schemas => StrictItemsStay(v);
    case SchemaOrSchemas => if v.Obj? { StrictStays(v); } else { StrictItemsStay(v); }
    case _ =>
  }

  lemma {:induction false} StrictItemsStay(v: Json)
    requires StrictItems(v)
    ensures RewriteItems(v) == v
    decreases v, 0
  {
    if v.Arr? {
      forall i | 0 <= i < |v.items| ensures Rewrite(v.items[i]) == v.items[i] { StrictStays(v.items[i]); }
      assert RewriteItems(v).items == v.items;
    }
  }

  /** The strict schemas are exactly those the rewrite leaves as they are. */
  lemma StrictIsFixed(j: Json)
    ensures Strict(j) <==> Rewrite(j) == j
  {
    RewriteIsStrict(j);
    if Strict(j) { StrictStays(j); }
  }

  /** A second pass changes nothing. */
  lemma RewriteIdempotent(j: Json)
    ensures Rewrite(Rewrite(j)) == Rewrite(j)
  {
    RewriteIsStrict(j);
    StrictStays(Rewrite(j));
  }
}
