/** The rewrite and the marking of tools, key by key. */
module SchemaOutcomes {
  import opened Text
  import opened JsonValues
  import opened StrictSchema
  import opened StrictTools

  /** The value is an object of schemas, and each is rewritten under its name. */
  predicate NamedRewritten(v: Json, w: Json) {
    if v.Obj? then w.Obj? && w.fields.Keys == v.fields.Keys && forall n :: n in v.fields ==>
        w.fields[n] == Rewrite(v.fields[n])
    else w == v
  }

  /** The value is a list of schemas, and each is rewritten in its place. */
  predicate ListRewritten(v: Json, w: Json) {
    if v.Arr? then w.Arr? && |w.items| == |v.items| && forall i :: 0 <= i < |v.items| ==>
        w.items[i] == Rewrite(v.items[i])
    else w == v
  }

  /** The type is `object`, and the properties are an object or not given. */
  predicate Closable(f: map<string, Json>) {
    "type" in f && f["type"] == Str("object") && ("properties" in f ==> f["properties"].Obj?)
  }

  /** The names of the properties. */
  function Declared(f: map<string, Json>): set<string> {
    if "properties" in f && f["properties"].Obj? then f["properties"].fields.Keys else {}
  }

  /** What is not an object stays; a reference keeps nothing but itself. */
  lemma SmallCases(j: Json)
    ensures !j.Obj? ==> Rewrite(j) == j
    ensures j.Obj? && "$ref" in j.fields ==>
              Rewrite(j).Obj? && forall k :: (k in Rewrite(j).fields <==> k == "$ref")
                                             && (k == "$ref" ==> Rewrite(j).fields[k] == j.fields[k])
  {
  }

  /** Which keys the rewritten schema has. */
  lemma KeysAfter(j: Json, k: string)
    requires j.Obj? && "$ref" !in j.fields
    ensures Rewrite(j).Obj?
    ensures k in Rewrite(j).fields <==>
            || k in j.fields
            || (k == "properties" && "type" in j.fields && j.fields["type"] == Str("object"))
            || ((k == "additionalProperties" || k == "required") && Closable(j.fields))
  {
    TypeStays(j.fields, RewriteHeld(j));
    PropertiesCommute(j.fields, RewriteHeld(j));
  }

  /** What closing writes: no further properties, and the names of all of them required, each once and in ascending
      order. A missing list of properties is an empty one. */
  lemma ClosingSays(j: Json)
    requires j.Obj? && "$ref" !in j.fields && Closable(j.fields)
    ensures Rewrite(j).Obj?
    ensures var g := Rewrite(j).fields;
            && "additionalProperties" in g && g["additionalProperties"] == Bool(false)
            && "required" in g && g["required"].Arr? && |g["required"].items| == |Declared(j.fields)|
            && (forall i :: 0 <= i < |g["required"].items| ==>
                  g["required"].items[i].Str? && g["required"].items[i].text in Declared(j.fields))
            && (forall i, k :: 0 <= i < k < |g["required"].items| ==>
                  var a, b := g["required"].items[i].text, g["required"].items[k].text;
                  a != b && exists at :: PartAt(a, b, at))
            && "properties" in g && ("properties" !in j.fields ==> g["properties"] == Obj(map[]))
  {
    var f, g := j.fields, RewriteHeld(j);
    TypeStays(f, g);
    PropertiesCommute(f, g);
    assert Closed(g)["required"] == Arr(Strs(Sorted(Declared(f))));
    forall i, k | 0 <= i < k < |Sorted(Declared(f))|
      ensures var a, b := Sorted(Declared(f))[i], Sorted(Declared(f))[k]; a != b && exists at :: PartAt(a, b, at)
    {
      SortedParts(Declared(f), i, k);
    }
  }

  /** Every other key keeps its value, but for the schemas in it: by name in three keys, in lists in three others, and
      in `items` either one or a list. */
  lemma FieldsAfter(j: Json, k: string)
    requires j.Obj? && "$ref" !in j.fields && k in j.fields
    requires !(Closable(j.fields) && (k == "additionalProperties" || k == "required"))
    ensures Rewrite(j).Obj? && k in Rewrite(j).fields
    ensures var v, w := j.fields[k], Rewrite(j).fields[k];
            if k == "$defs" || k == "definitions" || k == "properties" then NamedRewritten(v, w)
            else if k == "anyOf" || k == "oneOf" || k == "allOf" then ListRewritten(v, w)
            else if k == "items" then if v.Obj? then w == Rewrite(v) else ListRewritten(v, w)
            else w == v
  {
    var f, g := j.fields, RewriteHeld(j);
    TypeStays(f, g);
    PropertiesCommute(f, g);
    assert Closed(g)[k] == g[k] == RewriteField(k, f[k]);
  }

  // ---- tools ------------------------------------------------------------------------------------

  /** A tool of type `function` whose function is an object. */
  predicate HasFunction(tool: Json) {
    && tool.Obj? && "type" in tool.fields && tool.fields["type"] == Str("function")
    && "function" in tool.fields && tool.fields["function"].Obj?
  }

  /** Such a tool has its function marked strict, and its parameters rewritten if they are an object; nothing else of it
      changes. Any other tool stays. */
  lemma ToolSays(tool: Json)
    ensures !HasFunction(tool) ==> StrictTool(tool) == tool
    ensures HasFunction(tool) ==>
              && HasFunction(StrictTool(tool))
              && StrictTool(tool).fields.Keys == tool.fields.Keys
              && (forall k :: k in tool.fields && k != "function" ==> StrictTool(tool).fields[k] == tool.fields[k])
              && var f, g := tool.fields["function"].fields, StrictTool(tool).fields["function"].fields;
                 && (forall k :: k in g <==> k in f || k == "strict")
                 && g["strict"] == Bool(true)
                 && forall k :: k in f && k != "strict" ==>
                      g[k] == if k == "parameters" && f[k].Obj? then Rewrite(f[k]) else f[k]
  {
  }
}
