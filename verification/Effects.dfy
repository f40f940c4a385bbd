/** What a configuration change asks for: nothing, a new run, or a restart. */
module Effects {
  import opened Wrappers
  import opened JsonValues
  import opened StructuralDiff

  datatype ResourceKind = NodeResource | AgentResource

  datatype Effect = Live | NextRun | RestartRequired {
    function Rank(): nat {
      match this case Live => 0 case NextRun => 1 case RestartRequired => 2
    }
  }

  function RestartFields(kind: ResourceKind): set<string> {
    if kind.NodeResource? then {"clientApi"} else {}
  }

  function NextRunFields(kind: ResourceKind): set<string> {
    if kind.NodeResource? then {"enabledAgents", "permissions", "runtime"}
    else {"workspace", "ownerPrincipalId", "privilegeLevel", "controls", "permissions", "modelPolicy"}
  }

  function EffectForPath(kind: ResourceKind, path: Path): Effect {
    if |path| < 2 || path[0] != "spec" then Live
    else if path[1] in RestartFields(kind) then RestartRequired
    else if path[1] in NextRunFields(kind) then NextRun
    else Live
  }

  function Strongest(kind: ResourceKind, changes: seq<Change>): Effect {
    if changes == [] then Live
    else
      var before, last := Strongest(kind, changes[..|changes| - 1]), EffectForPath(kind, changes[|changes| - 1].path);
      if last.Rank() > before.Rank() then last else before
  }

  method EffectForChanges(kind: ResourceKind, changes: seq<Change>) returns (effect: Effect)
    ensures effect == Strongest(kind, changes)
  {
    effect := Live;
    for i := 0 to |changes|
      invariant effect == Strongest(kind, changes[..i])
    {
      assert changes[..i + 1][..i] == changes[..i];
      var candidate := EffectForPath(kind, changes[i].path);
      if candidate.Rank() > effect.Rank() { effect := candidate; }
    }
    assert changes[..|changes|] == changes;
  }

  function EffectOf(kind: ResourceKind, before: Json, after: Json): Effect {
    Strongest(kind, Diff(before, after, []))
  }

  /** It is the effect of some change, or none, and no change has a stronger one. */
  lemma {:induction false} StrongestIsMaximum(kind: ResourceKind, changes: seq<Change>, r: nat)
    ensures Strongest(kind, changes).Rank() >= r <==>
            r == 0 || exists c :: c in changes && EffectForPath(kind, c.path).Rank() >= r
  {
    if changes != [] {
      var init, last := changes[..|changes| - 1], changes[|changes| - 1];
      StrongestIsMaximum(kind, init, r);
      assert changes == init + [last];
      assert last in changes;
    }
  }

  // ---- what the effect of an edit means ---------------------------------------------------------

  /** A field of the specification, if there is a specification and it has the field. */
  function SpecField(doc: Json, field: string): Option<Json> {
    if HasKey(doc, "spec") && HasKey(doc.fields["spec"], field) then Some(doc.fields["spec"].fields[field]) else None
  }

  predicate ObjectSpec(doc: Json) {
    HasKey(doc, "spec") ==> doc.fields["spec"].Obj?
  }

  /** Both documents have a specification and only one of the two is an object. */
  predicate Mixed(a: Json, c: Json) {
    HasKey(a, "spec") && HasKey(c, "spec") && a.fields["spec"].Obj? != c.fields["spec"].Obj?
  }

  ghost predicate Differs(a: Json, c: Json, fields: set<string>) {
    exists f :: f in fields && SpecField(a, f) != SpecField(c, f)
  }

  lemma TouchedDiffers(a: Json, c: Json, q: Path, kind: ChangeKind)
    requires a.Obj? && c.Obj? && Reported(a, c, q, kind) && |q| >= 2 && q[0] == "spec"
    ensures !Mixed(a, c) && SpecField(a, q[1]) != SpecField(c, q[1])
  {
    assert q[1..][0] == q[1];
    if HasKey(a, "spec") && HasKey(c, "spec") {
      var s, t := a.fields["spec"], c.fields["spec"];
      assert Reported(s, t, q[1..], kind);
      if HasKey(s, q[1]) && HasKey(t, q[1]) {
        ReportedSound(s.fields[q[1]], t.fields[q[1]], q[1..][1..], kind);
      }
    }
  }

  lemma DiffersTouched(a: Json, c: Json, field: string) returns (q: Path, kind: ChangeKind)
    requires a.Obj? && c.Obj? && !Mixed(a, c) && SpecField(a, field) != SpecField(c, field)
    ensures Reported(a, c, q, kind) && |q| >= 2 && q[0] == "spec" && q[1] == field
  {
    var r;
    if SpecField(a, field).Some? && SpecField(c, field).Some? {
      r, kind := DifferenceReported(SpecField(a, field).value, SpecField(c, field).value);
    } else {
      r := LeafExists(if SpecField(a, field).Some? then SpecField(a, field).value else SpecField(c, field).value);
      kind := if SpecField(a, field).Some? then Removed else Added;
    }
    q := ["spec", field] + r;
    assert q[1..][1..] == r && q[1..][0] == field;
  }

  /** The fields whose change has at least a rank. */
  function FieldsOfRank(kind: ResourceKind, r: nat): set<string> {
    if r <= 1 then RestartFields(kind) + NextRunFields(kind) else RestartFields(kind)
  }

  lemma PathRank(kind: ResourceKind, p: Path, r: nat)
    requires 1 <= r <= 2
    ensures EffectForPath(kind, p).Rank() >= r <==> |p| >= 2 && p[0] == "spec" && p[1] in FieldsOfRank(kind, r)
  {
  }

  /** The effect reaches a rank exactly when a field of that rank differs, unless one specification
      is an object and the other is not. */
  lemma EffectRank(kind: ResourceKind, a: Json, c: Json, r: nat)
    requires a.Obj? && c.Obj? && 1 <= r <= 2
    ensures EffectOf(kind, a, c).Rank() >= r <==> !Mixed(a, c) && Differs(a, c, FieldsOfRank(kind, r))
  {
    StrongestIsMaximum(kind, Diff(a, c, []), r);
    if x :| x in Diff(a, c, []) && EffectForPath(kind, x.path).Rank() >= r {
      PathRank(kind, x.path, r);
      DiffMembers(a, c, [], x);
      assert x.path[0..] == x.path;
      TouchedDiffers(a, c, x.path, x.kind);
    }
    if !Mixed(a, c) && Differs(a, c, FieldsOfRank(kind, r)) {
      var f :| f in FieldsOfRank(kind, r) && SpecField(a, f) != SpecField(c, f);
      var q, k := DiffersTouched(a, c, f);
      PathRank(kind, q, r);
      DiffMembers(a, c, [], Change(q, k));
      assert q[0..] == q;
      assert Change(q, k) in Diff(a, c, []);
    }
  }

  lemma EffectMeaning(kind: ResourceKind, a: Json, c: Json)
    requires a.Obj? && c.Obj?
    ensures EffectOf(kind, a, c) == RestartRequired <==> !Mixed(a, c) && Differs(a, c, RestartFields(kind))
    ensures EffectOf(kind, a, c) != Live <==> !Mixed(a, c) && Differs(a, c, RestartFields(kind) + NextRunFields(kind))
  {
    EffectRank(kind, a, c, 2);
    EffectRank(kind, a, c, 1);
  }

  predicate FieldDiffers(a: Json, c: Json, field: string) {
    SpecField(a, field) != SpecField(c, field)
  }

  lemma NodeFields(f: string)
    ensures f in RestartFields(NodeResource) <==> f == "clientApi"
    ensures f in NextRunFields(NodeResource) <==> f == "enabledAgents" || f == "permissions" || f == "runtime"
  {
  }

  lemma AgentFields(f: string)
    ensures f !in RestartFields(AgentResource)
    ensures f in NextRunFields(AgentResource) <==>
              || f == "workspace" || f == "ownerPrincipalId" || f == "privilegeLevel" || f == "controls"
              || f == "permissions" || f == "modelPolicy"
  {
  }

  /** The effect of an edit, where `restarts` and `reruns` are the fields of either rank. */
  lemma EffectAmong(kind: ResourceKind, a: Json, c: Json, restarts: string -> bool, reruns: string -> bool)
    requires a.Obj? && c.Obj?
    requires forall f :: (f in RestartFields(kind) <==> restarts(f)) && (f in NextRunFields(kind) <==> reruns(f))
    ensures EffectOf(kind, a, c) ==
            if Mixed(a, c) then Live
            else if exists f :: restarts(f) && FieldDiffers(a, c, f) then RestartRequired
            else if exists f :: reruns(f) && FieldDiffers(a, c, f) then NextRun
            else Live
  {
    EffectMeaning(kind, a, c);
    if f :| restarts(f) && FieldDiffers(a, c, f) { assert f in RestartFields(kind); }
    if f :| reruns(f) && FieldDiffers(a, c, f) { assert f in RestartFields(kind) + NextRunFields(kind); }
  }

  predicate NodeRestarts(f: string) { f == "clientApi" }

  predicate NodeReruns(f: string) { f == "enabledAgents" || f == "permissions" || f == "runtime" }

  /** An edit of a Node asks for a restart exactly when its client interface changes, and otherwise for a new run
      exactly when its enabled Agents, its permissions or its runtime do. */
  lemma NodeEffect(a: Json, c: Json)
    requires a.Obj? && c.Obj?
    ensures EffectOf(NodeResource, a, c) ==
            if Mixed(a, c) then Live
            else if FieldDiffers(a, c, "clientApi") then RestartRequired
            else if FieldDiffers(a, c, "enabledAgents") || FieldDiffers(a, c, "permissions")
                    || FieldDiffers(a, c, "runtime") then NextRun
            else Live
  {
    forall f { NodeFields(f); }
    EffectAmong(NodeResource, a, c, NodeRestarts, NodeReruns);
    assert NodeRestarts("clientApi");
    assert NodeReruns("enabledAgents") && NodeReruns("permissions") && NodeReruns("runtime");
  }

  predicate AgentReruns(f: string) {
    || f == "workspace" || f == "ownerPrincipalId" || f == "privilegeLevel" || f == "controls"
    || f == "permissions" || f == "modelPolicy"
  }

  predicate AgentRestarts(f: string) { false }

  /** An edit of an Agent never asks for a restart, and for a new run exactly when its workspace, owner, privilege
      level, controls, permissions or model policy change. */
  lemma AgentEffect(a: Json, c: Json)
    requires a.Obj? && c.Obj?
    ensures EffectOf(AgentResource, a, c) ==
            if Mixed(a, c) then Live
            else if FieldDiffers(a, c, "workspace") || FieldDiffers(a, c, "ownerPrincipalId")
                    || FieldDiffers(a, c, "privilegeLevel") || FieldDiffers(a, c, "controls")
                    || FieldDiffers(a, c, "permissions") || FieldDiffers(a, c, "modelPolicy") then NextRun
            else Live
  {
    forall f { AgentFields(f); }
    EffectAmong(AgentResource, a, c, AgentRestarts, AgentReruns);
    assert AgentReruns("workspace") && AgentReruns("ownerPrincipalId") && AgentReruns("privilegeLevel");
    assert AgentReruns("controls") && AgentReruns("permissions") && AgentReruns("modelPolicy");
  }

  // ---- splitting an edit ------------------------------------------------------------------------

  ghost predicate Triangle(kind: ResourceKind, a: Json, b: Json, c: Json) {
    || EffectOf(kind, a, c).Rank() <= EffectOf(kind, a, b).Rank()
    || EffectOf(kind, a, c).Rank() <= EffectOf(kind, b, c).Rank()
  }

  lemma DiffersSymmetric(a: Json, c: Json, fields: set<string>)
    ensures Differs(a, c, fields) <==> Differs(c, a, fields)
  {
    if f :| f in fields && SpecField(a, f) != SpecField(c, f) { assert SpecField(c, f) != SpecField(a, f); }
    if f :| f in fields && SpecField(c, f) != SpecField(a, f) { assert SpecField(a, f) != SpecField(c, f); }
  }

  lemma EffectSymmetric(kind: ResourceKind, a: Json, c: Json)
    requires a.Obj? && c.Obj?
    ensures EffectOf(kind, a, c) == EffectOf(kind, c, a)
  {
    EffectRank(kind, a, c, 1);
    EffectRank(kind, c, a, 1);
    EffectRank(kind, a, c, 2);
    EffectRank(kind, c, a, 2);
    DiffersSymmetric(a, c, FieldsOfRank(kind, 1));
    DiffersSymmetric(a, c, FieldsOfRank(kind, 2));
  }

  /** A rank the whole edit reaches is reached by one of its two halves. */
  lemma DiffersTriangle(a: Json, b: Json, c: Json, fields: set<string>)
    requires ObjectSpec(b) && !Mixed(a, c) && Differs(a, c, fields)
    ensures (!Mixed(a, b) && Differs(a, b, fields)) || (!Mixed(b, c) && Differs(b, c, fields))
  {
    var f :| f in fields && SpecField(a, f) != SpecField(c, f);
    assert SpecField(a, f) != SpecField(b, f) || SpecField(b, f) != SpecField(c, f);
  }

  /** Going through `b` never hides an effect, as long as its specification is an object or absent. */
  lemma EffectTriangle(kind: ResourceKind, a: Json, b: Json, c: Json)
    requires a.Obj? && b.Obj? && c.Obj? && ObjectSpec(b)
    ensures Triangle(kind, a, b, c)
  {
    var r := EffectOf(kind, a, c).Rank();
    if r > 0 {
      EffectRank(kind, a, c, r);
      EffectRank(kind, a, b, r);
      EffectRank(kind, b, c, r);
      DiffersTriangle(a, b, c, FieldsOfRank(kind, r));
    }
  }

  lemma AddedFieldShows(kind: ResourceKind, a: Json, c: Json, f: string)
    requires a.Obj? && c.Obj? && !HasKey(a, "spec") && f in FieldsOfRank(kind, 1) && SpecField(c, f).Some?
    ensures EffectOf(kind, a, c).Rank() >= 1
  {
    EffectRank(kind, a, c, 1);
    assert SpecField(a, f) != SpecField(c, f);
  }

  lemma PlainSpecIsLive(kind: ResourceKind, a: Json, b: Json)
    requires a.Obj? && b.Obj? && ObjectSpec(a) && !ObjectSpec(b)
    ensures EffectOf(kind, a, b) == Live
  {
    EffectRank(kind, a, b, 1);
    assert HasKey(a, "spec") ==> Mixed(a, b);
  }

  /** Going through a specification that is not an object hides the effect of adding one. */
  lemma PlainSpecHides(kind: ResourceKind, a: Json, b: Json, c: Json, f: string)
    requires a.Obj? && b.Obj? && c.Obj? && !HasKey(a, "spec") && !ObjectSpec(b) && ObjectSpec(c)
    requires f in FieldsOfRank(kind, 1) && SpecField(c, f).Some?
    ensures !Triangle(kind, a, b, c)
  {
    AddedFieldShows(kind, a, c, f);
    PlainSpecIsLive(kind, a, b);
    PlainSpecIsLive(kind, c, b);
    EffectSymmetric(kind, c, b);
  }

  lemma Witness(kind: ResourceKind) returns (c: Json, f: string)
    ensures c.Obj? && ObjectSpec(c) && f in FieldsOfRank(kind, 1) && SpecField(c, f).Some?
  {
    f := if kind.NodeResource? then "clientApi" else "workspace";
    var spec := Obj(map[f := Null]);
    assert HasKey(spec, f);
    c := Obj(map["spec" := spec]);
    assert HasKey(c, "spec") && c.fields["spec"] == spec;
  }

  /** For every edit around `b` it holds only then. */
  lemma TriangleExactly(kind: ResourceKind, b: Json)
    requires b.Obj?
    ensures (forall a: Json, c: Json :: a.Obj? && c.Obj? ==> Triangle(kind, a, b, c)) <==> ObjectSpec(b)
  {
    if ObjectSpec(b) {
      forall a: Json, c: Json | a.Obj? && c.Obj? ensures Triangle(kind, a, b, c) { EffectTriangle(kind, a, b, c); }
    } else {
      var c, f := Witness(kind);
      PlainSpecHides(kind, Obj(map[]), b, c, f);
    }
  }

  /** However many documents an edit goes through, one of its steps asks for at least what the whole
      edit asks for. */
  lemma SplitEdit(kind: ResourceKind, docs: seq<Json>) returns (i: nat)
    requires |docs| >= 2 && forall d :: d in docs ==> d.Obj? && ObjectSpec(d)
    ensures i + 1 < |docs|
    ensures EffectOf(kind, docs[0], docs[|docs| - 1]).Rank() <= EffectOf(kind, docs[i], docs[i + 1]).Rank()
  {
    var rank := (a: Json, c: Json) => EffectOf(kind, a, c).Rank();
    forall a, b, c | a in docs && b in docs && c in docs ensures rank(a, c) <= rank(a, b) || rank(a, c) <= rank(b, c) {
      EffectTriangle(kind, a, b, c);
    }
    i := LongestStep(rank, docs);
    assert rank(docs[0], docs[|docs| - 1]) <= rank(docs[i], docs[i + 1]);
  }

  lemma {:induction false} LongestStep(rank: (Json, Json) -> nat, docs: seq<Json>) returns (i: nat)
    requires |docs| >= 2
    requires forall a, b, c :: (a in docs && b in docs && c in docs) ==>
             rank(a, c) <= rank(a, b) || rank(a, c) <= rank(b, c)
    ensures i + 1 < |docs| && rank(docs[0], docs[|docs| - 1]) <= rank(docs[i], docs[i + 1])
  {
    i := 0;
    var a, b, c := docs[0], docs[1], docs[|docs| - 1];
    if |docs| > 2 && rank(a, c) > rank(a, b) {
      var k := LongestStep(rank, docs[1..]);
      i := k + 1;
      assert rank(a, c) <= rank(b, c);
    }
  }
}
