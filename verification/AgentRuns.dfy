/** Sequences of Agent operations, with crashes between staging and publishing. */
module AgentRuns {
  import opened Wrappers
  import opened JsonValues
  import opened Effects
  import opened ConfigStore
  import opened AgentLifecycle

  datatype Op =
    | OpCreate(req: Request, workspaceMade: bool)
    | OpCrashedCreate(req: Request)
    | OpUpdate(id: string, displayName: string, workspace: Option<string>, privilege: Option<string>,
               profile: string, instruction: string, expected: string)
    | OpSetEnabled(id: string, enabled: bool)
    | OpDelete(id: string, expected: string)

  function Outcome(st: Store, op: Op, host: Host): (Store, Option<LifecycleError>) {
    match op
    case OpCreate(req, made) => Create(st, req, made, host)
    case OpCrashedCreate(req) =>
      var staged := Stage(st, req, host);
      if staged.Ok? then (staged.value, None) else (st, Some(staged.error))
    case OpUpdate(id, name, workspace, privilege, profile, instruction, expected) =>
      Update(st, id, name, workspace, privilege, profile, instruction, expected, host)
    case OpSetEnabled(id, enabled) => SetEnabled(st, id, enabled, host)
    case OpDelete(id, expected) => Delete(st, id, expected, host)
  }

  function After(st: Store, ops: seq<Op>, host: Host): Store {
    if ops == [] then st else Outcome(After(st, ops[..|ops| - 1], host), ops[|ops| - 1], host).0
  }

  function Target(op: Op): string {
    match op
    case OpCreate(req, _) => req.id
    case OpCrashedCreate(req) => req.id
    case OpUpdate(id, _, _, _, _, _, _) => id
    case OpSetEnabled(id, _) => id
    case OpDelete(id, _) => id
  }

  // ---- published Agents exist -------------------------------------------------------------------

  predicate Unique(ids: seq<string>) {
    forall i, j :: 0 <= i < j < |ids| ==> ids[i] != ids[j]
  }

  function Enabled(st: Store): seq<string> {
    if st.node.Some? then EnabledAgents(st.node.value) else []
  }

  /** Enabled ids are unique and each names a stored Agent. */
  predicate Published(st: Store) {
    Unique(Enabled(st)) && forall id :: id in Enabled(st) ==> id in st.agents
  }

  lemma {:induction false} WithoutUnique(ids: seq<string>, id: string)
    requires Unique(ids)
    ensures Unique(Without(ids, id))
  {
    if ids != [] {
      WithoutUnique(ids[1..], id);
      var rest := Without(ids[1..], id);
      assert forall i :: 0 <= i < |rest| ==> rest[i] in rest;
    }
  }

  /** Publishing replaces the enabled ids and leaves the Agents and the archive alone. */
  lemma PublishDoes(st: Store, node: Json, ids: seq<string>, host: Host)
    ensures var (st', error) := Publish(st, node, ids, host);
            && st'.agents == st.agents && st'.archive == st.archive
            && (error.Some? ==> st' == st)
            && (error.None? ==> st'.node == Some(WithEnabled(node, ids)) && Enabled(st') == ids)
            && (st.node == Some(node) ==> error.None?)
  {
    EnabledReplaced(node, ids, "");
  }

  /** Staging adds the candidate if its id is free and changes nothing otherwise. */
  lemma StageDoes(st: Store, req: Request, host: Host)
    requires Stage(st, req, host).Ok?
    ensures var doc := Candidate(req, Workspace(req, host).value, host);
            var st' := Stage(st, req, host).value;
            && st'.node == st.node && st'.archive == st.archive && st.node.Some?
            && (req.id in st.agents ==> st' == st)
            && (req.id !in st.agents ==> st'.agents == st.agents[req.id := doc])
  {
  }

  /** What an operation can have done: to the Agent of its own id, and to the enablement of that id. */
  predicate Did(st: Store, st': Store, op: Op) {
    && (st'.node.Some? <==> st.node.Some?)
    && (forall id :: id in st.agents && id != Target(op) ==> id in st'.agents && st'.agents[id] == st.agents[id])
    && (forall id :: id in st'.agents && id != Target(op) ==> id in st.agents)
    && (Target(op) in st.agents && Target(op) !in st'.agents ==> op.OpDelete? && Target(op) !in Enabled(st))
    && (|| Enabled(st') == Enabled(st)
        || (Enabled(st') == Enabled(st) + [Target(op)] && Target(op) !in Enabled(st) && Target(op) in st'.agents)
        || (Enabled(st') == Without(Enabled(st), Target(op)) && st'.agents == st.agents))
  }

  lemma CreateDid(st: Store, req: Request, made: bool, host: Host)
    ensures Did(st, Create(st, req, made, host).0, OpCreate(req, made))
  {
    if Stage(st, req, host).Ok? {
      StageDoes(st, req, host);
      PublishDoes(Stage(st, req, host).value, st.node.value, Enabled(st) + [req.id], host);
    }
  }

  lemma CrashDid(st: Store, req: Request, host: Host)
    ensures Did(st, Outcome(st, OpCrashedCreate(req), host).0, OpCrashedCreate(req))
  {
    if Stage(st, req, host).Ok? { StageDoes(st, req, host); }
  }

  lemma SetEnabledDid(st: Store, id: string, enabled: bool, host: Host)
    ensures Did(st, SetEnabled(st, id, enabled, host).0, OpSetEnabled(id, enabled))
  {
    if st.node.Some? {
      PublishDoes(st, st.node.value, if enabled then Enabled(st) + [id] else Without(Enabled(st), id), host);
    }
  }

  lemma OpDid(st: Store, op: Op, host: Host)
    ensures Did(st, Outcome(st, op, host).0, op)
  {
    match op
    case OpCreate(req, made) => CreateDid(st, req, made, host);
    case OpCrashedCreate(req) => CrashDid(st, req, host);
    case OpSetEnabled(id, enabled) => SetEnabledDid(st, id, enabled, host);
    case OpUpdate(_, _, _, _, _, _, _) =>
    case OpDelete(_, _) =>
  }

  lemma OpKeepsPublished(st: Store, op: Op, host: Host)
    requires Published(st)
    ensures Published(Outcome(st, op, host).0)
  {
    OpDid(st, op, host);
    WithoutUnique(Enabled(st), Target(op));
  }

  /** Over any sequence of operations and crashes. */
  lemma {:induction false} AlwaysPublished(st: Store, ops: seq<Op>, host: Host)
    requires Published(st)
    ensures Published(After(st, ops, host))
  {
    if ops != [] {
      AlwaysPublished(st, ops[..|ops| - 1], host);
      OpKeepsPublished(After(st, ops[..|ops| - 1], host), ops[|ops| - 1], host);
    }
  }

  /** An operation leaves the Agent and the enablement of every other id as they were. */
  lemma OnlyItsOwn(st: Store, op: Op, host: Host, id: string)
    requires id != Target(op)
    ensures var st' := Outcome(st, op, host).0;
            && (st'.node.Some? <==> st.node.Some?)
            && (id in st'.agents <==> id in st.agents) && (id in st.agents ==> st'.agents[id] == st.agents[id])
            && (id in Enabled(st') <==> id in Enabled(st))
  {
    OpDid(st, op, host);
  }

  /** Only a deletion takes an Agent out of the store, never an enabled one, and it keeps a copy. */
  lemma OnlyDeleteRemoves(st: Store, op: Op, host: Host, id: string)
    requires id in st.agents && id !in Outcome(st, op, host).0.agents
    ensures op.OpDelete? && op.id == id && id !in Enabled(st) && Outcome(st, op, host).1.None?
    ensures (id, op.expected) in Outcome(st, op, host).0.archive
    ensures Outcome(st, op, host).0.archive[(id, op.expected)] == st.agents[id]
  {
    OpDid(st, op, host);
    assert id == Target(op) && op.OpDelete?;
  }

  // ---- a creation that is tried again -----------------------------------------------------------

  /** `b` is `a` with one more, staged, Agent. */
  predicate Ahead(a: Store, b: Store, id: string, doc: Json) {
    id !in a.agents && b == a.(agents := a.agents[id := doc])
  }

  lemma StageAgentSimulates(a: Store, b: Store, id: string, doc: Json, c: string, candidate: Json, host: Host)
    requires Ahead(a, b, id, doc) && c != id
    ensures var (r, s) := (StageAgent(a, c, candidate, host), StageAgent(b, c, candidate, host));
            if r.Ok? then s.Ok? && Ahead(r.value, s.value, id, doc) else s == r
  {
    assert OptionalAgent(a, c) == OptionalAgent(b, c);
    assert a.agents[c := candidate][id := doc] == a.agents[id := doc][c := candidate];
  }

  lemma StageSimulates(a: Store, b: Store, id: string, doc: Json, req: Request, host: Host)
    requires Ahead(a, b, id, doc) && req.id != id
    ensures var (r, s) := (Stage(a, req, host), Stage(b, req, host));
            if r.Ok? then s.Ok? && Ahead(r.value, s.value, id, doc) else s == r
  {
    if Workspace(req, host).Ok? {
      StageAgentSimulates(a, b, id, doc, req.id, Candidate(req, Workspace(req, host).value, host), host);
    }
  }

  lemma PublishSimulates(a: Store, b: Store, id: string, doc: Json, node: Json, ids: seq<string>, host: Host)
    requires Ahead(a, b, id, doc)
    ensures var (a', e) := Publish(a, node, ids, host);
            var (b', f) := Publish(b, node, ids, host);
            Ahead(a', b', id, doc) && e == f
  {
  }

  lemma UpdateSimulates(a: Store, b: Store, id: string, doc: Json, op: Op, host: Host)
    requires Ahead(a, b, id, doc) && op.OpUpdate? && op.id != id
    ensures Ahead(Outcome(a, op, host).0, Outcome(b, op, host).0, id, doc) &&
            Outcome(a, op, host).1 == Outcome(b, op, host).1
  {
    assert ReadAgent(a, op.id) == ReadAgent(b, op.id);
    if ReadAgent(a, op.id).Ok? {
      var e := Edited(ReadAgent(a, op.id).value, op.displayName, op.instruction, op.profile);
      assert a.agents[op.id := e][id := doc] == a.agents[id := doc][op.id := e];
      assert AppliedAgent(a, op.id, e, Some(op.expected), host.hash).Ok? <==>
        AppliedAgent(b, op.id, e, Some(op.expected), host.hash).Ok?;
    }
  }

  lemma DeleteSimulates(a: Store, b: Store, id: string, doc: Json, op: Op, host: Host)
    requires Ahead(a, b, id, doc) && op.OpDelete? && op.id != id
    ensures Ahead(Outcome(a, op, host).0, Outcome(b, op, host).0, id, doc) &&
            Outcome(a, op, host).1 == Outcome(b, op, host).1
  {
    assert ReadAgent(a, op.id) == ReadAgent(b, op.id);
    assert (a.agents - {op.id})[id := doc] == a.agents[id := doc] - {op.id};
  }

  lemma OpSimulates(a: Store, b: Store, id: string, doc: Json, op: Op, host: Host)
    requires Ahead(a, b, id, doc) && Target(op) != id
    ensures Ahead(Outcome(a, op, host).0, Outcome(b, op, host).0, id, doc) &&
            Outcome(a, op, host).1 == Outcome(b, op, host).1
  {
    match op
    case OpCreate(req, made) =>
      StageSimulates(a, b, id, doc, req, host);
      if Stage(a, req, host).Ok? {
        PublishSimulates(Stage(a, req, host).value, Stage(b, req, host).value, id, doc, a.node.value,
          Enabled(a) + [req.id], host);
      }
    case OpCrashedCreate(req) => StageSimulates(a, b, id, doc, req, host);
    case OpSetEnabled(e, enabled) =>
      assert ReadAgent(a, e) == ReadAgent(b, e);
      if a.node.Some? {
        PublishSimulates(a, b, id, doc, a.node.value, if enabled then Enabled(a) + [e]
          else Without(Enabled(a), e), host);
      }
    case OpUpdate(_, _, _, _, _, _, _) => UpdateSimulates(a, b, id, doc, op, host);
    case OpDelete(_, _) => DeleteSimulates(a, b, id, doc, op, host);
  }

  lemma {:induction false} OpsSimulate(a: Store, b: Store, id: string, doc: Json, ops: seq<Op>, host: Host)
    requires Ahead(a, b, id, doc) && forall i :: 0 <= i < |ops| ==> Target(ops[i]) != id
    ensures Ahead(After(a, ops, host), After(b, ops, host), id, doc)
  {
    if ops != [] {
      OpsSimulate(a, b, id, doc, ops[..|ops| - 1], host);
      OpSimulates(After(a, ops[..|ops| - 1], host), After(b, ops[..|ops| - 1], host), id, doc, ops[|ops| - 1], host);
    }
  }

  /** A staged Agent does not stand in the way of its own creation. */
  lemma StagedIsTakenOver(a: Store, b: Store, req: Request, host: Host)
    requires Workspace(req, host).Ok? && Ahead(a, b, req.id, Candidate(req, Workspace(req, host).value, host))
    ensures Stage(a, req, host) == Stage(b, req, host)
    ensures Create(a, req, true, host) == Create(b, req, true, host) || Stage(a, req, host).Err?
  {
    var doc := Candidate(req, Workspace(req, host).value, host);
    CandidateIsNamed(req, Workspace(req, host).value, host);
    assert ReadAgent(b, req.id) == Ok(doc);
    assert ReadAgent(a, req.id) == Err(NotFound);
    assert AppliedAgent(a, req.id, doc, None, host.hash).Ok?;
    assert AppliedAgent(a, req.id, doc, None, host.hash).value == b;
  }

  /** A creation interrupted after staging and tried again with the same inputs ends where the
      uninterrupted one ends, whatever happened to other Agents in between. */
  lemma RetryReachesTheSame(st: Store, req: Request, others: seq<Op>, host: Host)
    requires Stage(st, req, host).Ok? && req.id !in st.agents
    requires forall i :: 0 <= i < |others| ==> Target(others[i]) != req.id
    ensures var interrupted := After(Outcome(st, OpCrashedCreate(req), host).0, others, host);
            Create(interrupted, req, true, host) == Create(After(st, others, host), req, true, host)
            && Create(interrupted, req, true, host).1.None?
  {
    var doc := Candidate(req, Workspace(req, host).value, host);
    var staged := Stage(st, req, host).value;
    StageDoes(st, req, host);
    OpsSimulate(st, staged, req.id, doc, others, host);
    NodeStays(st, req.id, others, host);
    var a, b := After(st, others, host), After(staged, others, host);
    StagedIsTakenOver(a, b, req, host);
    CreateSucceeds(a, req, host);
  }

  lemma {:induction false} NodeStays(st: Store, id: string, ops: seq<Op>, host: Host)
    requires forall i :: 0 <= i < |ops| ==> Target(ops[i]) != id
    ensures After(st, ops, host).node.Some? <==> st.node.Some?
    ensures id in Enabled(After(st, ops, host)) <==> id in Enabled(st)
  {
    if ops != [] {
      NodeStays(st, id, ops[..|ops| - 1], host);
      OnlyItsOwn(After(st, ops[..|ops| - 1], host), ops[|ops| - 1], host, id);
    }
  }

  /** A creation whose id is free succeeds and publishes its Agent. */
  lemma CreateSucceeds(st: Store, req: Request, host: Host)
    requires st.node.Some? && req.id !in Enabled(st) && req.id !in st.agents
    requires ProfileError(req.profile, host).None? && Workspace(req, host).Ok?
    ensures var (st', error) := Create(st, req, true, host);
            && error.None? && Enabled(st') == Enabled(st) + [req.id]
            && st'.agents == st.agents[req.id := Candidate(req, Workspace(req, host).value, host)]
  {
    var doc := Candidate(req, Workspace(req, host).value, host);
    CandidateIsNamed(req, Workspace(req, host).value, host);
    assert AppliedAgent(st, req.id, doc, None, host.hash).Ok?;
    StageDoes(st, req, host);
    PublishDoes(Stage(st, req, host).value, st.node.value, Enabled(st) + [req.id], host);
  }

  /** An update changes the display name, the instruction and the default profile, and no other field. */
  lemma EditChangesOnly(doc: Json, displayName: string, instruction: string, profile: string, field: string)
    ensures var edited := Edited(doc, displayName, instruction, profile);
            && SpecField(edited, "displayName") == Some(Str(displayName))
            && SpecField(edited, "instruction") == Some(Str(instruction))
            && SpecField(edited, "modelPolicy").Some? &&
              Fields(SpecField(edited, "modelPolicy").value).Keys >= {"defaultProfile"}
            && Fields(SpecField(edited, "modelPolicy").value)["defaultProfile"] == Str(profile)
            && (field !in {"displayName", "instruction", "modelPolicy"} ==>
              SpecField(edited, field) == SpecField(doc, field))
            && MetadataName(edited) == MetadataName(doc)
  {
    var edited := Edited(doc, displayName, instruction, profile);
    var path := ["metadata", "name"];
    assert HasKey(doc, "metadata") ==> edited.fields["metadata"] == doc.fields["metadata"];
    assert Get(doc, path) == (if HasKey(doc, "metadata") then Get(doc.fields["metadata"], path[1..]) else None);
    assert Get(edited, path) == (if HasKey(edited, "metadata") then Get(edited.fields["metadata"], path[1..])
      else None);
  }

  /** So an update that names the current revision, and no other workspace or privilege, is never
      refused for its authority: it succeeds. */
  lemma UpdateSucceeds(st: Store, op: Op, host: Host)
    requires op.OpUpdate? && ReadAgent(st, op.id).Ok? && st.node.Some? && ProfileError(op.profile, host).None?
    requires op.workspace.None? || SpecField(st.agents[op.id], "workspace") == Some(Str(op.workspace.value))
    requires op.privilege.None? || SpecField(st.agents[op.id], "privilegeLevel") == Some(Str(op.privilege.value))
    requires op.expected == host.hash(st.agents[op.id])
    ensures Outcome(st, op, host) ==
            (st.(agents := st.agents[op.id := Edited(st.agents[op.id], op.displayName, op.instruction, op.profile)]),
              None)
  {
    var doc := st.agents[op.id];
    EditKeepsAuthority(doc, op.displayName, op.instruction, op.profile);
    EditChangesOnly(doc, op.displayName, op.instruction, op.profile, "");
    KeptAuthorityPasses(st, op.id, Edited(doc, op.displayName, op.instruction, op.profile), host.hash);
  }

  lemma EditKeepsAuthority(doc: Json, displayName: string, instruction: string, profile: string)
    ensures SameAuthority(doc, Edited(doc, displayName, instruction, profile))
  {
    forall f | f in AUTHORITY
      ensures SpecField(doc, f) == SpecField(Edited(doc, displayName, instruction, profile), f)
    {
      EditChangesOnly(doc, displayName, instruction, profile, f);
    }
  }

  lemma KeptAuthorityPasses(st: Store, id: string, candidate: Json, hash: Hash)
    requires ReadAgent(st, id).Ok? && MetadataName(candidate) == Some(id) && SameAuthority(st.agents[id], candidate)
    ensures AppliedAgent(st, id, candidate, Some(hash(st.agents[id])), hash) ==
            Ok(st.(agents := st.agents[id := candidate]))
  {
    AuthorityCheck(st.agents[id], candidate);
  }

  // ---- operations that overlap ------------------------------------------------------------------

  /** Publications do not lose one another: one that succeeds met the very Node it had read, so it
      changes the enabled ids by its own and keeps every other setting. */
  lemma PublishIsExact(st: Store, node: Json, ids: seq<string>, host: Host, field: string)
    requires Injective(host.hash) && Publish(st, node, ids, host).1.None?
    ensures st.node == Some(node)
    ensures var st' := Publish(st, node, ids, host).0;
            && st'.node.Some? && Enabled(st') == ids
            && (field != "enabledAgents" ==> SpecField(st'.node.value, field) == SpecField(node, field))
  {
    EnabledReplaced(node, ids, field);
    assert st.node.Some? && host.hash(st.node.value) == host.hash(node);
  }

  /** However many clients publish and withdraw at once, each from a Node it read earlier, a
      publication that succeeds changes the enablement of its own id and of no other. */
  lemma PublicationsKeepOthers(st: Store, node: Json, id: string, enable: bool, host: Host)
    requires Injective(host.hash) && Unique(Enabled(st)) && (enable <==> id !in EnabledAgents(node))
    requires Publish(st, node, if enable then EnabledAgents(node) + [id]
             else Without(EnabledAgents(node), id), host).1.None?
    ensures var ids := if enable then EnabledAgents(node) + [id] else Without(EnabledAgents(node), id);
            var st' := Publish(st, node, ids, host).0;
            && Unique(Enabled(st')) && (id in Enabled(st') <==> enable)
            && (forall other :: other != id ==> (other in Enabled(st') <==> other in Enabled(st)))
  {
    var ids := if enable then EnabledAgents(node) + [id] else Without(EnabledAgents(node), id);
    PublishIsExact(st, node, ids, host, "");
    WithoutUnique(EnabledAgents(node), id);
  }
}
