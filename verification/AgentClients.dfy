/** Any number of clients creating, enabling, disabling and deleting Agents at once. What a client
    reads and what it writes later are separate steps; a locked write is one step. */
module AgentClients {
  import opened Wrappers
  import opened JsonValues
  import opened ConfigStore
  import opened AgentLifecycle
  import opened AgentRuns

  type Client = nat

  /** Where a client stands, with what it has read. */
  datatype Phase =
    | Creating(req: Request, node: Json)
    | Reading(id: string, enable: bool)
    | Publishing(id: string, node: Json, enable: bool)
    | Checking(id: string, expected: string)
    | Deleting(id: string, expected: string)

  datatype World = World(store: Store, phases: map<Client, Phase>)

  datatype Step =
    | BeginCreate(client: Client, req: Request)
    | DoStage(client: Client)
    | BeginEnable(client: Client, id: string, enable: bool)
    | ReadNode(client: Client)
    | DoPublish(client: Client)
    | BeginDelete(client: Client, id: string, expected: string)
    | CheckNode(client: Client)
    | DoArchive(client: Client)
    | Abandon(client: Client)
    | EditAgent(name: string, doc: Json, revision: Option<string>)
    | EditNode(doc: Json, revision: Option<string>)

  /** The checks of a creation on the Node it read. */
  predicate MayCreate(st: Store, req: Request, host: Host) {
    && st.node.Some? && req.id !in EnabledAgents(st.node.value)
    && ProfileError(req.profile, host).None? && Workspace(req, host).Ok?
  }

  function NewIds(p: Phase): seq<string>
    requires p.Publishing?
  {
    if p.enable then EnabledAgents(p.node) + [p.id] else Without(EnabledAgents(p.node), p.id)
  }

  function PublishedBy(st: Store, p: Phase, host: Host): (Store, Option<LifecycleError>)
    requires p.Publishing?
  {
    Publish(st, p.node, NewIds(p), host)
  }

  function With(w: World, client: Client, phase: Phase): World {
    w.(phases := w.phases[client := phase])
  }

  function Done(w: World, client: Client): World {
    w.(phases := w.phases - {client})
  }

  /** A step of a client that is not at that point does nothing. */
  predicate Ready(w: World, step: Step) {
    match step
    case DoStage(c) => c in w.phases && w.phases[c].Creating?
    case ReadNode(c) => c in w.phases && w.phases[c].Reading?
    case DoPublish(c) => c in w.phases && w.phases[c].Publishing?
    case CheckNode(c) => c in w.phases && w.phases[c].Checking?
    case DoArchive(c) => c in w.phases && w.phases[c].Deleting?
    case _ => true
  }

  function Staged(w: World, c: Client, host: Host): World
    requires c in w.phases && w.phases[c].Creating?
  {
    var Creating(req, node) := w.phases[c];
    if Workspace(req, host).Err? then Done(w, c) else
    var r := StageAgent(w.store, req.id, Candidate(req, Workspace(req, host).value, host), host);
    if r.Ok? then World(r.value, w.phases[c := Publishing(req.id, node, true)]) else Done(w, c)
  }

  function NodeRead(w: World, c: Client): World
    requires c in w.phases && w.phases[c].Reading?
  {
    var Reading(id, enable) := w.phases[c];
    if w.store.node.None? || enable == (id in Enabled(w.store)) then Done(w, c)
    else With(w, c, Publishing(id, w.store.node.value, enable))
  }

  function NodeChecked(w: World, c: Client): World
    requires c in w.phases && w.phases[c].Checking?
  {
    var Checking(id, expected) := w.phases[c];
    if w.store.node.None? || id in Enabled(w.store) then Done(w, c) else With(w, c, Deleting(id, expected))
  }

  function Next(w: World, step: Step, host: Host): World {
    if !Ready(w, step) then w else
    match step
    case BeginCreate(c, req) =>
      if MayCreate(w.store, req, host) then With(w, c, Creating(req, w.store.node.value)) else Done(w, c)
    case DoStage(c) => Staged(w, c, host)
    case BeginEnable(c, id, enable) =>
      if ReadAgent(w.store, id).Ok? then With(w, c, Reading(id, enable)) else Done(w, c)
    case ReadNode(c) => NodeRead(w, c)
    case DoPublish(c) => World(PublishedBy(w.store, w.phases[c], host).0, w.phases - {c})
    case BeginDelete(c, id, expected) =>
      if ReadAgent(w.store, id).Ok? then With(w, c, Checking(id, expected)) else Done(w, c)
    case CheckNode(c) => NodeChecked(w, c)
    case DoArchive(c) => World(Archive(w.store, w.phases[c].id, w.phases[c].expected, host).0, w.phases - {c})
    case Abandon(c) => Done(w, c)
    case EditAgent(name, doc, revision) =>
      var r := AppliedAgent(w.store, name, doc, revision, host.hash);
      w.(store := if r.Ok? then r.value else w.store)
    case EditNode(doc, revision) =>
      // Other settings of the Node are edited too; the enabled ids are the business of publications.
      var r := AppliedNode(w.store, doc, revision, host.hash);
      w.(store := if r.Ok? && EnabledAgents(doc) == Enabled(w.store) then r.value else w.store)
  }

  ghost predicate Run(ws: seq<World>, steps: seq<Step>, host: Host) {
    && |ws| == |steps| + 1 && ws[0].phases == map[]
    && forall i :: 0 <= i < |steps| ==> ws[i + 1] == Next(ws[i], steps[i], host)
  }

  /** What a client that will publish found in the Node it read. */
  ghost predicate Fits(p: Phase) {
    match p
    case Creating(req, node) => req.id !in EnabledAgents(node)
    case Publishing(id, node, enable) => enable <==> id !in EnabledAgents(node)
    case _ => true
  }

  ghost predicate Fitting(w: World) {
    forall c :: c in w.phases ==> Fits(w.phases[c])
  }

  lemma StepFits(w: World, step: Step, host: Host)
    requires Fitting(w)
    ensures Fitting(Next(w, step, host))
  {
  }

  // ---- what the two dangerous steps do ------------------------------------------------------------

  predicate Archives(w: World, step: Step, host: Host) {
    && step.DoArchive? && Ready(w, step)
    && Archive(w.store, w.phases[step.client].id, w.phases[step.client].expected, host).1.None?
  }

  predicate Publishes(w: World, step: Step, host: Host) {
    step.DoPublish? && Ready(w, step) && PublishedBy(w.store, w.phases[step.client], host).1.None?
  }

  /** An archive of an enabled Agent, or a publication of one that is not stored. */
  predicate Severs(w: World, step: Step, host: Host) {
    || (Archives(w, step, host) && w.phases[step.client].id in Enabled(w.store))
    || (Publishes(w, step, host) && w.phases[step.client].enable && w.phases[step.client].id !in w.store.agents)
  }

  lemma ArchiveExactly(w: World, step: Step, host: Host)
    requires Published(w.store) && Archives(w, step, host)
    ensures Published(Next(w, step, host).store) <==> w.phases[step.client].id !in Enabled(w.store)
  {
    var id := w.phases[step.client].id;
    assert Next(w, step, host).store.agents == w.store.agents - {id};
    assert Enabled(Next(w, step, host).store) == Enabled(w.store);
  }

  /** A publication that succeeds met the Node it had read, so it changes its own id only. */
  lemma PublishMeets(w: World, step: Step, host: Host)
    requires Injective(host.hash) && Fitting(w) && Unique(Enabled(w.store)) && Publishes(w, step, host)
    ensures var p, st' := w.phases[step.client], Next(w, step, host).store;
            && w.store.node == Some(p.node) && st'.agents == w.store.agents
            && Unique(Enabled(st')) && (p.id in Enabled(st') <==> p.enable)
            && (forall other :: other != p.id ==> (other in Enabled(st') <==> other in Enabled(w.store)))
  {
    var p := w.phases[step.client];
    PublishIsExact(w.store, p.node, NewIds(p), host, "");
    PublishDoes(w.store, p.node, NewIds(p), host);
    PublicationsKeepOthers(w.store, p.node, p.id, p.enable, host);
  }

  lemma PublishExactly(w: World, step: Step, host: Host)
    requires Injective(host.hash) && Fitting(w) && Published(w.store) && Publishes(w, step, host)
    ensures Published(Next(w, step, host).store)
            <==> !w.phases[step.client].enable || w.phases[step.client].id in w.store.agents
  {
    PublishMeets(w, step, host);
  }

  /** No other step takes an Agent away or changes the enabled ids. */
  lemma OtherStep(w: World, step: Step, host: Host)
    requires !Archives(w, step, host) && !Publishes(w, step, host)
    ensures var st' := Next(w, step, host).store;
            w.store.agents.Keys <= st'.agents.Keys && Enabled(st') == Enabled(w.store)
  {
    if step.DoPublish? && Ready(w, step) {
      PublishDoes(w.store, w.phases[step.client].node, NewIds(w.phases[step.client]), host);
    }
  }

  lemma StepExactly(w: World, step: Step, host: Host)
    requires Injective(host.hash) && Fitting(w) && Published(w.store)
    ensures Published(Next(w, step, host).store) <==> !Severs(w, step, host)
  {
    if Archives(w, step, host) {
      ArchiveExactly(w, step, host);
    } else if Publishes(w, step, host) {
      PublishExactly(w, step, host);
    } else {
      OtherStep(w, step, host);
    }
  }

  lemma {:induction false} AlwaysFitting(ws: seq<World>, steps: seq<Step>, host: Host, i: nat)
    requires Run(ws, steps, host) && i < |ws|
    ensures Fitting(ws[i])
  {
    if i > 0 {
      AlwaysFitting(ws, steps, host, i - 1);
      StepFits(ws[i - 1], steps[i - 1], host);
    }
  }

  lemma {:induction false} PublishedUpTo(ws: seq<World>, steps: seq<Step>, host: Host, i: nat)
    requires Injective(host.hash) && Run(ws, steps, host) && Published(ws[0].store) && i < |ws|
    requires forall j :: 0 <= j < |steps| ==> !Severs(ws[j], steps[j], host)
    ensures Published(ws[i].store)
  {
    if i > 0 {
      PublishedUpTo(ws, steps, host, i - 1);
      AlwaysFitting(ws, steps, host, i - 1);
      StepExactly(ws[i - 1], steps[i - 1], host);
    }
  }

  /** Over every interleaving, enabled ids are always unique and each names a stored Agent, if and only
      if no step archives an enabled Agent or publishes one that is gone. */
  lemma PublishedExactly(ws: seq<World>, steps: seq<Step>, host: Host)
    requires Injective(host.hash) && Run(ws, steps, host) && Published(ws[0].store)
    ensures (forall i :: 0 <= i < |ws| ==> Published(ws[i].store)) <==>
            (forall i :: 0 <= i < |steps| ==> !Severs(ws[i], steps[i], host))
  {
    if forall i :: 0 <= i < |steps| ==> !Severs(ws[i], steps[i], host) {
      forall i | 0 <= i < |ws| ensures Published(ws[i].store) {
        PublishedUpTo(ws, steps, host, i);
      }
    } else {
      var i :| 0 <= i < |steps| && Severs(ws[i], steps[i], host);
      AlwaysFitting(ws, steps, host, i);
      if Published(ws[i].store) {
        StepExactly(ws[i], steps[i], host);
        assert !Published(ws[i + 1].store);
      }
    }
  }

  // ---- which overlaps are safe --------------------------------------------------------------------

  /** The id a client is about to enable: it knows that the Agent is stored. */
  function Enables(p: Phase): Option<string> {
    match p
    case Reading(id, enable) => if enable then Some(id) else None
    case Publishing(id, _, enable) => if enable then Some(id) else None
    case _ => None
  }

  /** The id a client is about to archive: it knows that the Agent is not enabled. */
  function Deletes(p: Phase): Option<string> {
    if p.Deleting? then Some(p.id) else None
  }

  ghost predicate Apart(w: World) {
    forall c, d :: c in w.phases && d in w.phases && Deletes(w.phases[c]).Some? ==>
        Deletes(w.phases[c]) != Enables(w.phases[d])
  }

  /** What a client knows is still so. */
  predicate Knows(p: Phase, st: Store) {
    && (Enables(p).Some? ==> Enables(p).value in st.agents)
    && (Deletes(p).Some? ==> Deletes(p).value !in Enabled(st))
  }

  ghost predicate Sound(w: World) {
    && Published(w.store) && Fitting(w)
    && (forall c :: c in w.phases ==> Knows(w.phases[c], w.store))
  }

  lemma ArchiveKeepsSound(w: World, step: Step, host: Host)
    requires Sound(w) && Apart(w) && Archives(w, step, host)
    ensures Sound(Next(w, step, host))
  {
    var id, w' := w.phases[step.client].id, Next(w, step, host);
    ArchiveExactly(w, step, host);
    assert Deletes(w.phases[step.client]) == Some(id);
    assert w'.store.agents == w.store.agents - {id} && Enabled(w'.store) == Enabled(w.store);
    StepFits(w, step, host);
  }

  lemma PublishKeepsSound(w: World, step: Step, host: Host)
    requires Injective(host.hash) && Sound(w) && Apart(w) && Publishes(w, step, host)
    ensures Sound(Next(w, step, host))
  {
    PublishMeets(w, step, host);
    PublishExactly(w, step, host);
    StepFits(w, step, host);
    assert w.phases[step.client].enable ==> Enables(w.phases[step.client]) == Some(w.phases[step.client].id);
  }

  /** A client that moves on knows what it has just read or written. */
  lemma MovesOn(w: World, step: Step, host: Host, c: Client)
    requires Sound(w) && !Archives(w, step, host) && !Publishes(w, step, host) && c in Next(w, step, host).phases
    ensures var w' := Next(w, step, host);
            (c in w.phases && w'.phases[c] == w.phases[c]) || Knows(w'.phases[c], w'.store)
  {
    if step.DoStage? && Ready(w, step) { StageKnows(w, step.client, host, c); }
  }

  lemma StageKnows(w: World, client: Client, host: Host, c: Client)
    requires client in w.phases && w.phases[client].Creating? && c in Staged(w, client, host).phases
    ensures var w' := Staged(w, client, host);
            (c in w.phases && w'.phases[c] == w.phases[c]) || Knows(w'.phases[c], w'.store)
  {
    var Creating(req, _) := w.phases[client];
    if Workspace(req, host).Ok? {
      var candidate := Candidate(req, Workspace(req, host).value, host);
      var r := StageAgent(w.store, req.id, candidate, host);
      assert r.Ok? ==> req.id in r.value.agents;
    }
  }

  lemma MovesOnSoundly(w: World, step: Step, host: Host)
    requires Sound(w) && !Archives(w, step, host) && !Publishes(w, step, host)
    ensures Sound(Next(w, step, host))
  {
    var w' := Next(w, step, host);
    OtherStep(w, step, host);
    StepFits(w, step, host);
    forall c | c in w'.phases ensures Knows(w'.phases[c], w'.store) {
      MovesOn(w, step, host, c);
      KnowsStill(w, w', c);
    }
  }

  lemma KnowsStill(w: World, w': World, c: Client)
    requires Sound(w) && w.store.agents.Keys <= w'.store.agents.Keys && Enabled(w'.store) == Enabled(w.store)
    requires c in w'.phases
    ensures c in w.phases && w'.phases[c] == w.phases[c] ==> Knows(w'.phases[c], w'.store)
  {
  }

  lemma StepKeepsSound(w: World, step: Step, host: Host)
    requires Injective(host.hash) && Sound(w) && Apart(w)
    ensures Sound(Next(w, step, host))
  {
    if Archives(w, step, host) {
      ArchiveKeepsSound(w, step, host);
    } else if Publishes(w, step, host) {
      PublishKeepsSound(w, step, host);
    } else {
      MovesOnSoundly(w, step, host);
    }
  }

  /** Over every interleaving of any clients, with abandoned operations and edits of Agents and Node
      in between: as long as no deletion that has checked the Node overlaps an enablement or
      creation of the same id that has read or staged the Agent, every enabled id is unique and
      names a stored Agent. */
  lemma {:induction false} ApartIsSafe(ws: seq<World>, steps: seq<Step>, host: Host, i: nat)
    requires Injective(host.hash) && Run(ws, steps, host) && Published(ws[0].store) && i < |ws|
    requires forall j :: 0 <= j < |ws| ==> Apart(ws[j])
    ensures Sound(ws[i])
  {
    if i > 0 {
      ApartIsSafe(ws, steps, host, i - 1);
      StepKeepsSound(ws[i - 1], steps[i - 1], host);
    }
  }

  // ---- what an overlap does -----------------------------------------------------------------------

  /** A deletion and an enablement of one Agent, both past their checks. */
  ghost predicate Overlap(w: World, deleter: Client, enabler: Client, id: string) {
    && deleter in w.phases && enabler in w.phases && deleter != enabler
    && w.phases[deleter].Deleting? && w.phases[deleter].id == id
    && w.phases[enabler].Publishing? && w.phases[enabler].id == id && w.phases[enabler].enable
  }

  /** The overlap is harmless only if one of the two is refused: the Node has moved on since it was
      read, or the Agent is not what the deletion expects. Otherwise the order does not matter: the
      Node ends up publishing an id that names nothing. */
  lemma OverlapExactly(w: World, deleter: Client, enabler: Client, id: string, host: Host)
    requires Injective(host.hash) && Sound(w) && Overlap(w, deleter, enabler, id)
    ensures var harmless := w.store.node != Some(w.phases[enabler].node)
                            || !Archives(w, DoArchive(deleter), host);
            && (Published(Next(Next(w, DoPublish(enabler), host), DoArchive(deleter), host).store) <==> harmless)
            && (Published(Next(Next(w, DoArchive(deleter), host), DoPublish(enabler), host).store) <==> harmless)
  {
    PublishThenArchive(w, deleter, enabler, id, host);
    ArchiveThenPublish(w, deleter, enabler, id, host);
  }

  /** A publication succeeds exactly if the Node is still the one that was read. */
  lemma PublishesUnmoved(w: World, c: Client, host: Host)
    requires Injective(host.hash) && c in w.phases && w.phases[c].Publishing?
    ensures Publishes(w, DoPublish(c), host) <==> w.store.node == Some(w.phases[c].node)
  {
    var p := w.phases[c];
    PublishDoes(w.store, p.node, NewIds(p), host);
    if Publishes(w, DoPublish(c), host) { PublishIsExact(w.store, p.node, NewIds(p), host, ""); }
  }

  /** An archive needs the Agent as it is expected, and leaves the Node and other Agents alone. */
  lemma ArchiveDoes(w: World, c: Client, host: Host)
    requires c in w.phases && w.phases[c].Deleting?
    ensures var id, st' := w.phases[c].id, Next(w, DoArchive(c), host).store;
            && st'.node == w.store.node
            && (if Archives(w, DoArchive(c), host) then st'.agents == w.store.agents - {id} else st' == w.store)
  {
  }

  lemma PublishThenArchive(w: World, deleter: Client, enabler: Client, id: string, host: Host)
    requires Injective(host.hash) && Sound(w) && Overlap(w, deleter, enabler, id)
    ensures Published(Next(Next(w, DoPublish(enabler), host), DoArchive(deleter), host).store) <==>
            w.store.node != Some(w.phases[enabler].node) || !Archives(w, DoArchive(deleter), host)
  {
    var p, w1 := w.phases[enabler], Next(w, DoPublish(enabler), host);
    PublishDoes(w.store, p.node, NewIds(p), host);
    PublishesUnmoved(w, enabler, host);
    SameArchive(w, w1, deleter, host);
    if Publishes(w, DoPublish(enabler), host) {
      PublishMeets(w, DoPublish(enabler), host);
      PublishExactly(w, DoPublish(enabler), host);
    }
    ArchiveDoes(w1, deleter, host);
    if Archives(w1, DoArchive(deleter), host) { ArchiveExactly(w1, DoArchive(deleter), host); }
  }

  /** Whether an archive succeeds depends on the Agent alone. */
  lemma SameArchive(w: World, w': World, c: Client, host: Host)
    requires w'.store.agents == w.store.agents && c in w.phases && c in w'.phases && w'.phases[c] == w.phases[c]
    ensures Archives(w', DoArchive(c), host) <==> Archives(w, DoArchive(c), host)
  {
    if w.phases[c].Deleting? {
      assert ReadAgent(w'.store, w.phases[c].id) == ReadAgent(w.store, w.phases[c].id);
    }
  }

  lemma ArchiveThenPublish(w: World, deleter: Client, enabler: Client, id: string, host: Host)
    requires Injective(host.hash) && Sound(w) && Overlap(w, deleter, enabler, id)
    ensures Published(Next(Next(w, DoArchive(deleter), host), DoPublish(enabler), host).store) <==>
            w.store.node != Some(w.phases[enabler].node) || !Archives(w, DoArchive(deleter), host)
  {
    var p, w1 := w.phases[enabler], Next(w, DoArchive(deleter), host);
    ArchivedSoundly(w, deleter, enabler, id, host);
    PublishesUnmoved(w1, enabler, host);
    PublishDoes(w1.store, p.node, NewIds(p), host);
    if Publishes(w1, DoPublish(enabler), host) { PublishExactly(w1, DoPublish(enabler), host); }
  }

  lemma ArchivedSoundly(w: World, deleter: Client, enabler: Client, id: string, host: Host)
    requires Sound(w) && Overlap(w, deleter, enabler, id)
    ensures var w1 := Next(w, DoArchive(deleter), host);
            && Published(w1.store) && Fitting(w1) && w1.store.node == w.store.node
            && enabler in w1.phases && w1.phases[enabler] == w.phases[enabler]
            && (id in w1.store.agents <==> !Archives(w, DoArchive(deleter), host))
  {
    assert Deletes(w.phases[deleter]) == Some(id) && Enables(w.phases[enabler]) == Some(id);
    assert Knows(w.phases[deleter], w.store) && Knows(w.phases[enabler], w.store);
    ArchiveDoes(w, deleter, host);
    StepFits(w, DoArchive(deleter), host);
    if Archives(w, DoArchive(deleter), host) { ArchiveExactly(w, DoArchive(deleter), host); }
  }

  // ---- both kinds of overlap are reached from an idle world -----------------------------------------

  lemma BeginsDeletion(w: World, c: Client, id: string, expected: string, host: Host)
    requires ReadAgent(w.store, id).Ok? && w.store.node.Some? && id !in Enabled(w.store)
    ensures Next(Next(w, BeginDelete(c, id, expected), host), CheckNode(c), host) ==
            World(w.store, w.phases[c := Deleting(id, expected)])
  {
    var w1 := Next(w, BeginDelete(c, id, expected), host);
    assert w1.phases[c := Deleting(id, expected)] == w.phases[c := Deleting(id, expected)];
  }

  lemma BeginsEnablement(w: World, c: Client, id: string, host: Host)
    requires ReadAgent(w.store, id).Ok? && w.store.node.Some? && id !in Enabled(w.store)
    ensures Next(Next(w, BeginEnable(c, id, true), host), ReadNode(c), host) ==
            World(w.store, w.phases[c := Publishing(id, w.store.node.value, true)])
  {
    var w1, p := Next(w, BeginEnable(c, id, true), host), Publishing(id, w.store.node.value, true);
    assert w1.phases[c := p] == w.phases[c := p];
  }

  lemma BeginsCreation(w: World, c: Client, req: Request, host: Host)
    requires MayCreate(w.store, req, host) && req.id !in w.store.agents
    ensures var doc := Candidate(req, Workspace(req, host).value, host);
            Next(Next(w, BeginCreate(c, req), host), DoStage(c), host) ==
            World(w.store.(agents := w.store.agents[req.id := doc]),
                  w.phases[c := Publishing(req.id, w.store.node.value, true)])
  {
    var doc, p := Candidate(req, Workspace(req, host).value, host), Publishing(req.id, w.store.node.value, true);
    var w1 := Next(w, BeginCreate(c, req), host);
    CandidateIsNamed(req, Workspace(req, host).value, host);
    assert AppliedAgent(w1.store, req.id, doc, None, host.hash).Ok?;
    assert w1.phases[c := p] == w.phases[c := p];
  }

  /** An enablement and a deletion of a stored Agent that is not enabled. */
  lemma EnablementOverlaps(st: Store, id: string, host: Host)
    requires Published(st) && st.node.Some? && ReadAgent(st, id).Ok? && id !in Enabled(st)
    ensures var expected := host.hash(st.agents[id]);
            var w1 := Next(Next(World(st, map[]), BeginDelete(0, id, expected), host), CheckNode(0), host);
            var w := Next(Next(w1, BeginEnable(1, id, true), host), ReadNode(1), host);
            && Sound(w) && Overlap(w, 0, 1, id)
            && w.store.node == Some(w.phases[1].node) && Archives(w, DoArchive(0), host)
  {
    var expected := host.hash(st.agents[id]);
    BeginsDeletion(World(st, map[]), 0, id, expected, host);
    BeginsEnablement(World(st, map[0 := Deleting(id, expected)]), 1, id, host);
  }

  /** A creation and a deletion of the Agent it has staged. */
  lemma CreationOverlaps(st: Store, req: Request, host: Host)
    requires Published(st) && MayCreate(st, req, host) && req.id !in st.agents
    ensures var expected := host.hash(Candidate(req, Workspace(req, host).value, host));
            var w1 := Next(Next(World(st, map[]), BeginCreate(1, req), host), DoStage(1), host);
            var w := Next(Next(w1, BeginDelete(0, req.id, expected), host), CheckNode(0), host);
            && Sound(w) && Overlap(w, 0, 1, req.id)
            && w.store.node == Some(w.phases[1].node) && Archives(w, DoArchive(0), host)
  {
    var doc := Candidate(req, Workspace(req, host).value, host);
    var staged := st.(agents := st.agents[req.id := doc]);
    CandidateIsNamed(req, Workspace(req, host).value, host);
    BeginsCreation(World(st, map[]), 1, req, host);
    BeginsDeletion(World(staged, map[1 := Publishing(req.id, st.node.value, true)]), 0, req.id, host.hash(doc), host);
  }

  /** So a deletion that overlaps an enablement, in either order, */
  lemma EnablementRaces(st: Store, id: string, host: Host)
    requires Injective(host.hash) && Published(st) && st.node.Some? && ReadAgent(st, id).Ok? && id !in Enabled(st)
    ensures var w1 := Next(Next(World(st, map[]), BeginDelete(0, id, host.hash(st.agents[id])), host), CheckNode(0),
            host);
            var w := Next(Next(w1, BeginEnable(1, id, true), host), ReadNode(1), host);
            && !Published(Next(Next(w, DoPublish(1), host), DoArchive(0), host).store)
            && !Published(Next(Next(w, DoArchive(0), host), DoPublish(1), host).store)
  {
    var w1 := Next(Next(World(st, map[]), BeginDelete(0, id, host.hash(st.agents[id])), host), CheckNode(0), host);
    EnablementOverlaps(st, id, host);
    OverlapExactly(Next(Next(w1, BeginEnable(1, id, true), host), ReadNode(1), host), 0, 1, id, host);
  }

  /** or a creation, breaks the promise. */
  lemma CreationRaces(st: Store, req: Request, host: Host)
    requires Injective(host.hash) && Published(st) && MayCreate(st, req, host) && req.id !in st.agents
    ensures var expected := host.hash(Candidate(req, Workspace(req, host).value, host));
            var w1 := Next(Next(World(st, map[]), BeginCreate(1, req), host), DoStage(1), host);
            var w := Next(Next(w1, BeginDelete(0, req.id, expected), host), CheckNode(0), host);
            && !Published(Next(Next(w, DoPublish(1), host), DoArchive(0), host).store)
            && !Published(Next(Next(w, DoArchive(0), host), DoPublish(1), host).store)
  {
    var expected := host.hash(Candidate(req, Workspace(req, host).value, host));
    var w1 := Next(Next(World(st, map[]), BeginCreate(1, req), host), DoStage(1), host);
    CreationOverlaps(st, req, host);
    OverlapExactly(Next(Next(w1, BeginDelete(0, req.id, expected), host), CheckNode(0), host), 0, 1, req.id, host);
  }

  // ---- a client alone -----------------------------------------------------------------------------------

  /** A creation with nobody between its steps does what the whole operation does. */
  lemma CreationAlone(w: World, c: Client, req: Request, host: Host)
    ensures Next(Next(Next(w, BeginCreate(c, req), host), DoStage(c), host), DoPublish(c), host) ==
            World(Create(w.store, req, true, host).0, w.phases - {c})
  {
    var w1 := Next(w, BeginCreate(c, req), host);
    if MayCreate(w.store, req, host) {
      assert w1.phases - {c} == w.phases - {c};
    }
  }

  /** So does an enablement or a disablement, */
  lemma EnablementAlone(w: World, c: Client, id: string, enable: bool, host: Host)
    ensures Next(Next(Next(w, BeginEnable(c, id, enable), host), ReadNode(c), host), DoPublish(c), host) ==
            World(SetEnabled(w.store, id, enable, host).0, w.phases - {c})
  {
    var w1 := Next(w, BeginEnable(c, id, enable), host);
    if ReadAgent(w.store, id).Ok? {
      assert w1.phases - {c} == w.phases - {c};
    }
  }

  /** and a deletion. */
  lemma DeletionAlone(w: World, c: Client, id: string, expected: string, host: Host)
    ensures Next(Next(Next(w, BeginDelete(c, id, expected), host), CheckNode(c), host), DoArchive(c), host) ==
            World(Delete(w.store, id, expected, host).0, w.phases - {c})
  {
    var w1 := Next(w, BeginDelete(c, id, expected), host);
    if ReadAgent(w.store, id).Ok? {
      assert w1.phases - {c} == w.phases - {c};
    }
  }
}
