/** References within a schema document: JSON pointers (RFC 6901, sections 3 to 6) that lead to schemas. */
module SchemaPointers {
  import opened Wrappers
  import opened JsonValues

  /** The first slash, or the end. */
  function Slash(t: string): (k: nat)
    ensures k <= |t| && (k < |t| ==> t[k] == '/')
  {
    if t == "" || t[0] == '/' then 0 else 1 + Slash(t[1..])
  }

  function Segments(t: string): (path: seq<string>)
    ensures path != []
  {
    var k := Slash(t);
    [Unescaped(t[..k])] + if k < |t| then Segments(t[k + 1..]) else []
  }

  function Unescaped(t: string): string {
    if t == "" then ""
    else if |t| > 1 && t[0] == '~' && t[1] == '1' then "/" + Unescaped(t[2..])
    else if |t| > 1 && t[0] == '~' && t[1] == '0' then "~" + Unescaped(t[2..])
    else [t[0]] + Unescaped(t[1..])
  }

  predicate IsIndex(t: string) {
    t == "0" || (t != "" && t[0] != '0' && forall i :: 0 <= i < |t| ==> '0' <= t[i] <= '9')
  }

  function Decimal(t: string): nat
    requires forall i :: 0 <= i < |t| ==> '0' <= t[i] <= '9'
  {
    if t == "" then 0 else 10 * Decimal(t[..|t| - 1]) + (t[|t| - 1] - '0') as nat
  }

  /** The member of a list that a segment names. */
  function Member(v: Json, segment: string): Option<Json> {
    if v.Arr? && IsIndex(segment) && Decimal(segment) < |v.items| then Some(v.items[Decimal(segment)]) else None
  }

  /** Keys that hold schemas by name, lists of schemas, and single schemas. */
  const TABLES := {"$defs", "definitions", "properties", "patternProperties", "dependencies"}
  const LISTS := {"allOf", "anyOf", "oneOf"}
  const SINGLES := {"additionalProperties", "additionalItems", "contains", "propertyNames", "not", "if", "then", "else"}

  /** The schema at a path below a schema. What stands beside a reference is ignored. */
  function Point(s: Json, path: seq<string>): Option<Json>
    decreases |path|, 1
  {
    if path == [] then Some(s) else if HasKey(s, "$ref") then None else Below(s, path)
  }

  function Below(s: Json, path: seq<string>): Option<Json>
    requires path != []
    decreases |path|, 0
  {
    if HasKey(s, path[0]) then Within(path[0], s.fields[path[0]], path[1..]) else None
  }

  function Within(key: string, v: Json, path: seq<string>): Option<Json>
    decreases |path|, 2
  {
    if key in SINGLES || (key == "items" && !v.Arr?) then Point(v, path)
    else if path == [] then None
    else if key in TABLES then if HasKey(v, path[0]) then Point(v.fields[path[0]], path[1..]) else None
    else if key in LISTS || key == "items" then
      if Member(v, path[0]).Some? then Point(Member(v, path[0]).value, path[1..]) else None
    else None
  }

  /** A reference is the root or a pointer to a schema below it; definitions may stand beside a reference at the root.
      */
  function Resolve(root: Json, ref: Json): Option<Json> {
    if !ref.Str? then None
    else if ref.text == "#" then Some(root)
    else if "#/" <= ref.text then Below(root, Segments(ref.text[2..]))
    else None
  }

  /** A pointer of two segments without slashes and tildes. */
  lemma TwoSegments(table: string, name: string)
    requires forall i :: 0 <= i < |table| ==> table[i] != '/' && table[i] != '~'
    requires forall i :: 0 <= i < |name| ==> name[i] != '/' && name[i] != '~'
    ensures Segments(table + "/" + name) == [table, name]
  {
    SegmentsSplit(table, name);
    NoSlash(name);
    Plain(table);
    Plain(name);
    assert name[..|name|] == name;
  }

  lemma InTable(table: string, v: Json, name: string)
    requires table == "$defs" || table == "definitions" || table == "properties"
    ensures Within(table, v, [name]) == if HasKey(v, name) then Some(v.fields[name]) else None
  {
    assert table[0] == '$' || table[0] == 'd' || table[3] == 'p';
    assert table !in SINGLES && table != "items" && table in TABLES;
    assert [name][1..] == [];
  }

  /** A definition, or a property, by its name. */
  lemma ResolveNamed(root: Json, table: string, name: string)
    requires table == "$defs" || table == "definitions" || table == "properties"
    requires forall i :: 0 <= i < |name| ==> name[i] != '/' && name[i] != '~'
    ensures Resolve(root, Str("#/" + (table + "/" + name))) ==
            if HasKey(root, table) && HasKey(root.fields[table], name)
            then Some(root.fields[table].fields[name]) else None
  {
    var ref := "#/" + (table + "/" + name);
    assert ref[2..] == table + "/" + name;
    assert forall i :: 0 <= i < |table| ==> table[i] != '/' && table[i] != '~';
    TwoSegments(table, name);
    var path := [table, name];
    assert path[1..] == [name] && [name][1..] == [];
    if HasKey(root, table) { InTable(table, root.fields[table], name); }
    assert Resolve(root, Str(ref)) == Below(root, path);
  }

  lemma {:induction false} NoSlash(t: string)
    requires forall i :: 0 <= i < |t| ==> t[i] != '/'
    ensures Slash(t) == |t|
  {
    if t != "" { NoSlash(t[1..]); }
  }

  lemma {:induction false} SlashAfter(a: string, b: string)
    requires forall i :: 0 <= i < |a| ==> a[i] != '/'
    ensures Slash(a + "/" + b) == |a|
  {
    if a == "" {
      assert a + "/" + b == "/" + b;
    } else {
      SlashAfter(a[1..], b);
      assert (a + "/" + b)[1..] == a[1..] + "/" + b;
    }
  }

  lemma SegmentsSplit(a: string, b: string)
    requires forall i :: 0 <= i < |a| ==> a[i] != '/'
    ensures Segments(a + "/" + b) == [Unescaped(a)] + Segments(b)
  {
    SlashAfter(a, b);
    assert (a + "/" + b)[..|a|] == a && (a + "/" + b)[|a| + 1..] == b;
  }

  lemma {:induction false} Plain(t: string)
    requires forall i :: 0 <= i < |t| ==> t[i] != '~'
    ensures Unescaped(t) == t
  {
    if t != "" { Plain(t[1..]); }
  }
}
