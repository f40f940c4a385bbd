/** The rewrite as it is carried out, key by key, and its use on a list of tools. */
module StrictTools {
  import opened Text
  import opened JsonValues
  import opened StrictSchema

  lemma EmptyNamed()
    ensures RewriteField("properties", Obj(map[])) == Obj(map[])
  {
    var r := RewriteField("properties", Obj(map[]));
    assert r.Obj? && r.fields == map[];
  }

  lemma PropertiesCommute(f: map<string, Json>, g: map<string, Json>)
    requires g == map k | k in f :: RewriteField(k, f[k])
    ensures PropertiesOf(g) == RewriteField("properties", PropertiesOf(f))
    ensures PropertiesOf(g).Obj? <==> PropertiesOf(f).Obj?
    ensures PropertiesOf(f).Obj? ==> PropertiesOf(g).fields.Keys == PropertiesOf(f).fields.Keys
  {
    EmptyNamed();
  }

  lemma ClosedAt(f: map<string, Json>, k: string)
    requires IsObjectSchema(f)
    ensures k in Closed(f)
            <==> k in f || k == "properties" || (PropertiesOf(f).Obj? && k in {"additionalProperties", "required"})
    ensures k in Closed(f) ==>
              Closed(f)[k] == (if k == "properties" then PropertiesOf(f)
                               else if PropertiesOf(f).Obj? && k == "additionalProperties" then Bool(false)
                               else if PropertiesOf(f).Obj? && k == "required"
                               then Arr(Strs(Sorted(PropertiesOf(f).fields.Keys)))
                               else f[k])
  {
  }

  lemma TypeStays(f: map<string, Json>, g: map<string, Json>)
    requires g == map k | k in f :: RewriteField(k, f[k])
    ensures IsObjectSchema(g) <==> IsObjectSchema(f)
  {
    if "type" in f { assert g["type"] == RewriteField("type", f["type"]) == f["type"]; }
  }

  lemma CloseThenRewriteAt(f: map<string, Json>, g: map<string, Json>, k: string)
    requires IsObjectSchema(f) && g == map k | k in f :: RewriteField(k, f[k])
    ensures k in Closed(g) <==> k in Closed(f)
    ensures k in Closed(f) ==> Closed(g)[k] == RewriteField(k, Closed(f)[k])
  {
    TypeStays(f, g);
    PropertiesCommute(f, g);
    ClosedAt(f, k);
    ClosedAt(g, k);
    if k == "properties" {
      assert Closed(g)[k] == PropertiesOf(g);
    } else if PropertiesOf(f).Obj? && k in {"additionalProperties", "required"} {
      assert HoldsAt(k) == Nothing && Closed(g)[k] == Closed(f)[k];
    } else if k in f {
      assert Closed(g)[k] == g[k] && Closed(f)[k] == f[k];
    }
  }

  lemma MapsEqual(a: map<string, Json>, f: map<string, Json>)
    requires forall k :: k in a <==> k in f
    requires forall k :: k in f ==> a[k] == RewriteField(k, f[k])
    ensures a == map k | k in f :: RewriteField(k, f[k])
  {
  }

  /** Closing an object first and rewriting what it holds afterwards comes to the same. */
  lemma CloseThenRewrite(f: map<string, Json>, g: map<string, Json>, h: map<string, Json>)
    requires g == map k | k in f :: RewriteField(k, f[k])
    requires h == map k | k in Closed(f) :: RewriteField(k, Closed(f)[k])
    ensures Closed(g) == h
  {
    TypeStays(f, g);
    if IsObjectSchema(f) {
      forall k
        ensures k in Closed(g) <==> k in Closed(f)
        ensures k in Closed(f) ==> Closed(g)[k] == RewriteField(k, Closed(f)[k])
      {
        CloseThenRewriteAt(f, g, k);
      }
    }
    MapsEqual(Closed(g), Closed(f));
  }

  method EnforceNamed(named: map<string, Json>, ghost owner: Json) returns (r: map<string, Json>)
    requires forall k :: k in named ==> named[k] < owner
    ensures r == map k | k in named :: Rewrite(named[k])
    decreases owner, 0
  {
    r := named;
    var left := named.Keys;
    while left != {}
      invariant left <= named.Keys && r.Keys == named.Keys
      invariant forall k :: k in named ==> r[k] == if k in left then named[k] else Rewrite(named[k])
      decreases left
    {
      var k :| k in left;
      left := left - {k};
      var strict := EnforceStrict(r[k]);
      r := r[k := strict];
    }
  }

  method EnforceItems(items: seq<Json>, ghost owner: Json) returns (r: seq<Json>)
    requires forall i :: 0 <= i < |items| ==> items[i] < owner
    ensures |r| == |items| && forall i :: 0 <= i < |items| ==> r[i] == Rewrite(items[i])
    decreases owner, 0
  {
    r := items;
    for i := 0 to |items|
      invariant |r| == |items|
      invariant forall n :: 0 <= n < |items| ==> r[n] == if n < i then Rewrite(items[n]) else items[n]
    {
      var strict := EnforceStrict(items[i]);
      r := r[i := strict];
    }
  }

  /** Rewrites the schemas one key holds, if it is there and holds schemas. */
  method EnforceKey(fields: map<string, Json>, key: string, ghost owner: Json) returns (r: map<string, Json>)
    requires key in fields ==> fields[key] < owner || fields[key] == Obj(map[])
    ensures r == if key in fields then fields[key := RewriteField(key, fields[key])] else fields
    decreases owner, 1
  {
    r := fields;
    if key in fields {
      var v, holds := fields[key], HoldsAt(key);
      if v.Obj? && holds == NamedSchemas {
        var named := EnforceNamed(v.fields, owner);
        assert RewriteField(key, v) == Obj(named);
        r := fields[key := Obj(named)];
      } else if v.Arr? && (holds == Schemas || holds == SchemaOrSchemas) {
        var items := EnforceItems(v.items, owner);
        assert items == RewriteItems(v).items;
        assert RewriteField(key, v) == Arr(items);
        r := fields[key := Arr(items)];
      } else if v.Obj? && holds == SchemaOrSchemas {
        if v == Obj(map[]) {
          assert Rewrite(v) == v by { StrictStays(v); }
          assert fields[key := v] == fields;
        } else {
          var strict := EnforceStrict(v);
          r := fields[key := strict];
        }
      } else {
        assert RewriteField(key, v) == v;
        assert fields[key := v] == fields;
      }
    }
  }

  const TRAVERSED := ["$defs", "definitions", "properties", "anyOf", "oneOf", "allOf", "items"]

  method KeepOnlyRef(schema: map<string, Json>) returns (fields: map<string, Json>)
    requires "$ref" in schema
    ensures fields == map["$ref" := schema["$ref"]]
  {
    fields := schema;
    var keys := fields.Keys;
    while keys != {}
      invariant keys <= schema.Keys && fields == map k | k in schema && (k in keys || k == "$ref") :: schema[k]
      decreases keys
    {
      var key :| key in keys;
      keys := keys - {key};
      if key != "$ref" { fields := fields - {key}; }
    }
  }

  method CloseObject(schema: map<string, Json>) returns (fields: map<string, Json>)
    ensures fields == Closed(schema)
  {
    fields := schema;
    if "type" in fields && fields["type"] == Str("object") {
      if "properties" !in fields { fields := fields["properties" := Obj(map[])]; }
      var properties := fields["properties"];
      if properties.Obj? {
        fields := fields["additionalProperties" := Bool(false)];
        fields := fields["required" := Arr(Strs(Sorted(properties.fields.Keys)))];
      }
    }
    ClosedInSteps(schema, fields);
  }

  method EnforceHeld(closed: map<string, Json>, ghost owner: Json) returns (fields: map<string, Json>)
    requires forall k :: k in closed && k in TRAVERSED ==> closed[k] < owner || closed[k] == Obj(map[])
    ensures fields == map k | k in closed :: RewriteField(k, closed[k])
    decreases owner, 2
  {
    fields := closed;
    for i := 0 to |TRAVERSED|
      invariant fields.Keys == closed.Keys
      invariant forall k :: k in closed ==> fields[k] == if k in TRAVERSED[..i] then RewriteField(k, closed[k])
                else closed[k]
    {
      assert TRAVERSED[i] !in TRAVERSED[..i];
      assert TRAVERSED[..i + 1] == TRAVERSED[..i] + [TRAVERSED[i]];
      fields := EnforceKey(fields, TRAVERSED[i], owner);
    }
    assert TRAVERSED[..|TRAVERSED|] == TRAVERSED;
    forall k | k in closed ensures fields[k] == RewriteField(k, closed[k]) {
      if k !in TRAVERSED { assert HoldsAt(k) == Nothing; }
    }
  }

  method EnforceStrict(schema: Json) returns (strict: Json)
    ensures strict == Rewrite(schema)
    decreases schema, 4
  {
    if !schema.Obj? { return schema; }
    if "$ref" in schema.fields {
      var ref := KeepOnlyRef(schema.fields);
      return Obj(ref);
    }
    strict := EnforceObject(schema);
  }

  method EnforceObject(schema: Json) returns (strict: Json)
    requires schema.Obj? && "$ref" !in schema.fields
    ensures strict == Rewrite(schema)
    decreases schema, 3
  {
    var closed := CloseObject(schema.fields);
    var fields := EnforceHeld(closed, schema);
    InOrder(schema, fields);
    strict := Obj(fields);
  }

  lemma InOrder(schema: Json, fields: map<string, Json>)
    requires schema.Obj? && "$ref" !in schema.fields
    requires fields == map k | k in Closed(schema.fields) :: RewriteField(k, Closed(schema.fields)[k])
    ensures Obj(fields) == Rewrite(schema)
  {
    CloseThenRewrite(schema.fields, RewriteHeld(schema), fields);
  }

  lemma ClosedInSteps(f: map<string, Json>, g: map<string, Json>)
    requires var h := if IsObjectSchema(f) && "properties" !in f then f["properties" := Obj(map[])] else f;
             g == if IsObjectSchema(f) && h["properties"].Obj?
                  then h["additionalProperties" := Bool(false)]["required" :=
                    Arr(Strs(Sorted(h["properties"].fields.Keys)))] else h
    ensures g == Closed(f)
  {
    if "properties" in f { assert f["properties" := f["properties"]] == f; }
  }

  // ---- tools ------------------------------------------------------------------------------------

  predicate IsFunctionTool(tool: Json) {
    HasKey(tool, "type") && tool.fields["type"] == Str("function") && HasKey(tool, "function") &&
      tool.fields["function"].Obj?
  }

  /** A function tool is marked strict and its parameters are rewritten; anything else is kept. */
  function StrictTool(tool: Json): Json {
    if !IsFunctionTool(tool) then tool
    else
      var f := tool.fields["function"].fields["strict" := Bool(true)];
      var g := if "parameters" in f && f["parameters"].Obj? then f["parameters" := Rewrite(f["parameters"])] else f;
      Obj(tool.fields["function" := Obj(g)])
  }

  /** No list and an empty list are handed back; otherwise the caller's list is left as it is and a
      new one is returned. */
  method MakeStrictTools(tools: array?<Json>) returns (strictTools: array?<Json>)
    ensures tools == null || tools.Length == 0 ==> strictTools == tools
    ensures tools != null && tools.Length > 0 ==>
              && strictTools != null && fresh(strictTools) && strictTools.Length == tools.Length
              && forall i :: 0 <= i < tools.Length ==> strictTools[i] == StrictTool(tools[i])
  {
    if tools == null || tools.Length == 0 { return tools; }
    var copy := new Json[tools.Length](i requires 0 <= i < tools.Length reads tools => tools[i]);
    for n := 0 to copy.Length
      invariant forall i :: 0 <= i < copy.Length ==> copy[i] == if i < n then StrictTool(tools[i]) else tools[i]
    {
      var tool := copy[n];
      if IsFunctionTool(tool) {
        var function_ := tool.fields["function"].fields["strict" := Bool(true)];
        if "parameters" in function_ && function_["parameters"].Obj? {
          var parameters := EnforceStrict(function_["parameters"]);
          function_ := function_["parameters" := parameters];
        }
        copy[n] := Obj(tool.fields["function" := Obj(function_)]);
      }
    }
    strictTools := copy;
  }

  /** Marking a list twice is the same as marking it once. */
  lemma StrictToolIdempotent(tool: Json)
    ensures StrictTool(StrictTool(tool)) == StrictTool(tool)
  {
    if IsFunctionTool(tool) {
      var once := StrictTool(tool);
      var f := once.fields["function"].fields;
      assert IsFunctionTool(once) && f["strict"] == Bool(true);
      assert f["strict" := Bool(true)] == f;
      if "parameters" in f && f["parameters"].Obj? {
        RewriteIdempotent(tool.fields["function"].fields["strict" := Bool(true)]["parameters"]);
        assert f["parameters" := Rewrite(f["parameters"])] == f;
      }
      assert once.fields["function" := Obj(f)] == once.fields;
    }
  }
}
