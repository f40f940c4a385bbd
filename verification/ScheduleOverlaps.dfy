/** Service calls that overlap. A client stores its change, replaces the trigger, reads the trigger again and then
    writes the job, in separate steps, with the definition that its own store call returned. */
module ScheduleOverlaps {
  import opened Wrappers
  import opened AutomationFacts
  import opened Schedules
  import opened ScheduleStartup
  import opened ScheduleCalls
  import opened ScheduleClients

  type Client = nat

  /** What a client does next: replace the trigger, read it, or write the job with what it has read. */
  datatype Stage =
    | Replacing(change: TriggerChange)
    | Reading
    | Writing(read: Option<Schedule>)

  datatype Hand = Hand(auto: AutomationId, snap: Definition, stage: Stage)

  datatype Node = Node(w: World, hands: map<Client, Hand>)

  datatype Move =
    | Store(client: Client, call: Call)
    | Replace(client: Client)
    | Read(client: Client)
    | Finish(client: Client, now: int, newId: JobId)
    | Whole(call: Call, now: int, ids: seq<JobId>)

  predicate ServiceCall(call: Call) { call.Create? || call.Update? || call.Transition? }

  predicate Replaces(call: Call) { call.Update? && call.change.ReplaceTrigger? }

  /** The store call. A creation stores its trigger in the same transaction, an update replaces it afterwards. */
  ghost function StoredRow(w: World, call: Call): World
    requires ServiceCall(call)
  {
    if call.Update? then w.(defs := Stored(w, call).defs) else Stored(w, call)
  }

  /** New ids are fresh for everybody. */
  ghost predicate Possible(n: Node, m: Move) {
    match m
    case Store(client, call) =>
      client !in n.hands && ServiceCall(call) && (call.Create? ==> Retried(n.w, call) || call.auto !in n.w.defs)
    case Replace(client) => client in n.hands && n.hands[client].stage.Replacing?
    case Read(client) => client in n.hands && n.hands[client].stage.Reading?
    case Finish(client, _, newId) =>
      && client in n.hands && n.hands[client].stage.Writing?
      && Unused(n.w, newId) && forall c :: c in n.hands ==> n.hands[c].snap.jobId != newId
    case Whole(call, _, ids) =>
      && !ServiceCall(call) && Allowed(n.w, call, ids)
      && forall c :: c in n.hands ==> n.hands[c].snap.jobId !in ids
  }

  /** A refused store call changes nothing, a refused trigger ends its client, and a restart ends every client. */
  ghost function Moved(n: Node, m: Move, clock: Clock): Node
    requires Possible(n, m)
  {
    match m
    case Store(client, call) =>
      if Refused(n.w, call) || Subject(n.w, call) !in StoredRow(n.w, call).defs then n
      else
        var w', auto := StoredRow(n.w, call), Subject(n.w, call);
        var stage := if Replaces(call) then Replacing(call.change) else Reading;
        Node(w', n.hands[client := Hand(auto, w'.defs[auto], stage)])
    case Replace(client) =>
      var Hand(auto, snap, Replacing(change)) := n.hands[client];
      var kind := if change.ReplaceTrigger? then NewTrigger(change.schedule, change.event) else Err(InvalidState);
      if kind.Err? then n.(hands := n.hands - {client})
      else Node(WithTrigger(n.w, auto, kind.value), n.hands[client := Hand(auto, snap, Reading)])
    case Read(client) =>
      var Hand(auto, snap, _) := n.hands[client];
      n.(hands := n.hands[client := Hand(auto, snap, Writing(ScheduleOf(n.w, auto)))])
    case Finish(client, now, newId) =>
      var Hand(auto, snap, Writing(read)) := n.hands[client];
      Node(if auto in n.w.defs then SyncFrom(n.w, auto, snap, read, now, newId, clock) else n.w, n.hands - {client})
    case Whole(call, now, ids) =>
      Node(After(n.w, call, now, ids, clock), if call.Restart? then map[] else n.hands)
  }

  ghost predicate AllRead(n: Node) {
    forall c :: c in n.hands ==> WasRead(n.w, n.hands[c].auto, n.hands[c].snap)
  }

  /** The move is the synchronisation of a client that strays. */
  ghost predicate Astray(n: Node, m: Move)
    requires Possible(n, m)
  {
    m.Finish? && var Hand(auto, snap, Writing(read)) := n.hands[m.client];
    auto in n.w.defs && Strays(n.w, auto, snap, read)
  }

  // ---- store calls --------------------------------------------------------------------------------------

  lemma RowRaises(w: World, call: Call, auto: AutomationId)
    requires ServiceCall(call) && !Refused(w, call) && auto in w.defs
    requires call.Create? ==> Retried(w, call) || call.auto !in w.defs
    ensures var w' := StoredRow(w, call);
            && auto in w'.defs && w'.jobs == w.jobs && w'.defs[auto].jobId == w.defs[auto].jobId
            && (w'.defs[auto] == w.defs[auto] || w'.defs[auto].revision > w.defs[auto].revision)
            && (w.defs[auto].status == Deleted ==> w'.defs[auto].status == Deleted)
  {
    if call.Update? && call.auto == auto { ServiceEditRaises(w, call); }
  }

  lemma RowSubject(w: World, call: Call)
    requires ServiceCall(call) && !Refused(w, call)
    requires call.Create? ==> Retried(w, call) || call.auto !in w.defs
    ensures var w', s := StoredRow(w, call), Subject(w, call);
            && s in w'.defs && w'.jobs == w.jobs && w'.defs.Keys == w.defs.Keys + {s}
            && (s !in w.defs ==> w'.defs[s].jobId == "")
  {
  }

  lemma RowTied(w: World, call: Call)
    requires ServiceCall(call) && !Refused(w, call) && Tied(w)
    requires call.Create? ==> Retried(w, call) || call.auto !in w.defs
    ensures Tied(StoredRow(w, call))
  {
    var w' := StoredRow(w, call);
    RowSubject(w, call);
    forall a | a in w'.defs ensures TiedAt(w', a) && Orphans(w', a) == {} {
      assert JobsOf(w', a) == JobsOf(w, a);
      if a in w.defs {
        RowRaises(w, call, a);
        assert TiedAt(w, a) && Orphans(w, a) == {};
      }
    }
  }

  /** What was read stays read: definitions only gain revisions, and jobs keep their source. */
  lemma StillRead(w: World, w': World, auto: AutomationId, snap: Definition)
    requires WasRead(w, auto, snap) && auto in w'.defs
    requires var d, d' := w.defs[auto], w'.defs[auto];
             && (d'.(jobId := "") == d.(jobId := "") || d'.revision > d.revision)
             && (d.status == Deleted ==> d'.status == Deleted)
    requires snap.jobId in w'.jobs ==> snap.jobId in w.jobs && w'.jobs[snap.jobId].source == w.jobs[snap.jobId].source
    ensures WasRead(w', auto, snap)
  {
  }

  lemma StoreKeeps(n: Node, m: Move, clock: Clock)
    requires m.Store? && Possible(n, m) && AllRead(n) && Tied(n.w)
    ensures Tied(Moved(n, m, clock).w) && AllRead(Moved(n, m, clock))
  {
    if !Refused(n.w, m.call) {
      var n' := Moved(n, m, clock);
      RowTied(n.w, m.call);
      RowSubject(n.w, m.call);
      forall c | c in n'.hands ensures WasRead(n'.w, n'.hands[c].auto, n'.hands[c].snap) {
        if c != m.client {
          RowRaises(n.w, m.call, n.hands[c].auto);
          StillRead(n.w, n'.w, n.hands[c].auto, n.hands[c].snap);
        } else {
          assert TiedAt(n'.w, n'.hands[c].auto);
        }
      }
    }
  }

  /** Triggers do not matter. */
  lemma TiedAside(w: World, w': World)
    requires w' == w.(triggers := w'.triggers) && Tied(w)
    ensures Tied(w')
  {
    forall a | a in w'.defs ensures TiedAt(w', a) && Orphans(w', a) == {} {
      assert TiedAt(w, a) && Orphans(w, a) == {} && JobsOf(w', a) == JobsOf(w, a);
    }
  }

  lemma ReadAside(w: World, w': World, a: AutomationId, snap: Definition)
    requires w' == w.(triggers := w'.triggers) && WasRead(w, a, snap)
    ensures WasRead(w', a, snap)
  {
  }

  lemma ReadKeeps(n: Node, m: Move, clock: Clock)
    requires (m.Replace? || m.Read?) && Possible(n, m) && AllRead(n) && Tied(n.w)
    ensures Tied(Moved(n, m, clock).w) && AllRead(Moved(n, m, clock))
  {
    var n' := Moved(n, m, clock);
    TiedAside(n.w, n'.w);
    forall c | c in n'.hands ensures WasRead(n'.w, n'.hands[c].auto, n'.hands[c].snap) {
      ReadAside(n.w, n'.w, n.hands[c].auto, n.hands[c].snap);
    }
  }

  // ---- synchronisations ---------------------------------------------------------------------------------

  /** A synchronisation writes back references to jobs only, and a job keeps its source. */
  lemma SyncSources(w: World, auto: AutomationId, now: int, newId: JobId, clock: Clock, b: AutomationId, j: JobId)
    requires auto in w.defs && b in w.defs && j != newId && (w.defs[auto].jobId in w.jobs ==>
               w.jobs[w.defs[auto].jobId].source == Some(auto))
    ensures var w' := Sync(w, auto, now, newId, clock);
            && b in w'.defs && w'.defs[b].(jobId := "") == w.defs[b].(jobId := "")
            && (j in w'.jobs ==> j in w.jobs && w'.jobs[j].source == w.jobs[j].source)
  {
  }

  lemma LateSyncSources(w: World, auto: AutomationId, snap: Definition, read: Option<Schedule>, now: int,
                        newId: JobId, clock: Clock, b: AutomationId, j: JobId)
    requires WasRead(w, auto, snap) && "" !in w.jobs && b in w.defs && j != newId
    ensures var w' := SyncFrom(w, auto, snap, read, now, newId, clock);
            && b in w'.defs && w'.defs[b].(jobId := "") == w.defs[b].(jobId := "")
            && (j in w'.jobs ==> j in w.jobs && w'.jobs[j].source == w.jobs[j].source)
  {
    if snap.status != Deleted && read.Some? && snap.jobId != "" && snap.jobId !in w.jobs {
      SyncSources(WithJobId(w, auto, ""), auto, now, newId, clock, b, j);
    }
  }

  lemma FinishKeeps(n: Node, m: Move, clock: Clock)
    requires m.Finish? && Possible(n, m) && AllRead(n) && Tied(n.w)
    ensures AllRead(Moved(n, m, clock))
    ensures Tied(Moved(n, m, clock).w) <==> !Astray(n, m)
  {
    var n' := Moved(n, m, clock);
    var Hand(auto, snap, Writing(read)) := n.hands[m.client];
    LateSyncExactly(n.w, auto, snap, read, m.now, m.newId, clock);
    forall c | c in n'.hands ensures WasRead(n'.w, n'.hands[c].auto, n'.hands[c].snap) {
      var h := n.hands[c];
      LateSyncSources(n.w, auto, snap, read, m.now, m.newId, clock, h.auto, h.snap.jobId);
      StillRead(n.w, n'.w, h.auto, h.snap);
    }
  }

  // ---- restarts and the scheduler -----------------------------------------------------------------------

  lemma SyncTied(w: World, auto: AutomationId, now: int, newId: JobId, clock: Clock)
    requires Tied(w) && auto in w.defs && Unused(w, newId)
    ensures Tied(Sync(w, auto, now, newId, clock)) && Sync(w, auto, now, newId, clock).defs.Keys == w.defs.Keys
  {
    assert TiedAt(w, auto);
    FreshIsSync(w, auto, now, newId, clock);
    LateSyncExactly(w, auto, w.defs[auto], ScheduleOf(w, auto), now, newId, clock);
  }

  lemma {:induction false} SyncEachTied(w: World, order: seq<AutomationId>, now: int, newId: seq<JobId>, clock: Clock)
    requires |newId| == |order| && (forall a :: a in order ==> a in w.defs) && Tied(w) && UnusedEach(w, newId)
    ensures Tied(SyncEach(w, order, now, newId, clock))
    decreases order
  {
    if order != [] {
      var w1 := Sync(w, order[0], now, newId[0], clock);
      SyncTied(w, order[0], now, newId[0], clock);
      forall i | 0 <= i < |newId[1..]| ensures Unused(w1, newId[1..][i]) {
        StillUnused(w, order[0], now, newId[0], clock, newId[i + 1]);
      }
      assert forall i, j :: 0 <= i < j < |newId[1..]| ==>
        newId[1..][i] == newId[i + 1] && newId[1..][j] == newId[j + 1];
      SyncEachTied(w1, order[1..], now, newId[1..], clock);
    }
  }

  lemma StillUnused(w: World, auto: AutomationId, now: int, newId: JobId, clock: Clock, id: JobId)
    requires auto in w.defs && Unused(w, id) && id != newId
    ensures Unused(Sync(w, auto, now, newId, clock), id)
  {
  }

  /** Fewer jobs, or the same with other due times, and others without a source. */
  lemma JobsTied(w: World, w': World)
    requires Tied(w) && w'.defs == w.defs && "" !in w'.jobs
    requires forall j :: j in w'.jobs && (w'.jobs[j].source.Some? || j in w.jobs) ==>
               j in w.jobs && w'.jobs[j].source == w.jobs[j].source && w'.jobs[j].revision == w.jobs[j].revision
               && w'.jobs[j].payload == w.jobs[j].payload
    requires forall a :: a in w.defs && w.defs[a].jobId in w'.jobs ==> w.defs[a].jobId in w.jobs
    ensures Tied(w')
  {
    forall a | a in w'.defs ensures TiedAt(w', a) && Orphans(w', a) == {} {
      assert TiedAt(w, a) && Orphans(w, a) == {} && JobsOf(w', a) <= JobsOf(w, a);
    }
  }

  lemma RestartTied(w: World, order: seq<AutomationId>, now: int, newId: seq<JobId>, clock: Clock)
    requires Tied(w) && Allowed(w, Call.Restart(order), newId)
    ensures Tied(Reconciled(w, order, now, newId, clock))
  {
    SyncEachTied(w, order, now, newId, clock);
    JobsTied(SyncEach(w, order, now, newId, clock), Reconciled(w, order, now, newId, clock));
  }

  lemma FiredJobs(w: World, id: JobId, startedAt: int, reported: bool, now: int, clock: Clock)
    requires id in w.jobs
    ensures var w' := Fired(w, id, startedAt, reported, now, clock);
            && w'.defs == w.defs && w'.jobs.Keys <= w.jobs.Keys
            && forall j :: j in w'.jobs ==> w'.jobs[j].(lastRun := None, nextRun := None) ==
                                            w.jobs[j].(lastRun := None, nextRun := None)
  {
  }

  lemma FiredMoves(w: World, id: JobId, startedAt: int, reported: bool, now: int, clock: Clock)
    requires Tied(w)
    ensures var w' := Fired(w, id, startedAt, reported, now, clock);
            && Tied(w') && w'.defs == w.defs
            && forall j :: j in w'.jobs ==> j in w.jobs && w'.jobs[j].source == w.jobs[j].source
  {
    if id in w.jobs {
      var w' := Fired(w, id, startedAt, reported, now, clock);
      FiredJobs(w, id, startedAt, reported, now, clock);
      SameButTimes(w, w');
    }
  }

  lemma SameButTimes(w: World, w': World)
    requires Tied(w) && w'.defs == w.defs && w'.jobs.Keys <= w.jobs.Keys
    requires forall j :: j in w'.jobs ==> w'.jobs[j].(lastRun := None, nextRun := None) ==
                                          w.jobs[j].(lastRun := None, nextRun := None)
    ensures Tied(w') && forall j :: j in w'.jobs ==> j in w.jobs && w'.jobs[j].source == w.jobs[j].source
  {
    forall j | j in w'.jobs
      ensures j in w.jobs && w'.jobs[j].source == w.jobs[j].source && w'.jobs[j].revision == w.jobs[j].revision
      ensures w'.jobs[j].payload == w.jobs[j].payload
    {
      assert w'.jobs[j].(lastRun := None, nextRun := None).source == w'.jobs[j].source;
    }
    JobsTied(w, w');
  }

  /** The scheduler at work leaves definitions alone, and jobs their source. */
  lemma JobsMove(w: World, call: Call, now: int, ids: seq<JobId>, clock: Clock)
    requires (call.Fire? || call.DropJob? || call.AddOtherJob?) && Allowed(w, call, ids) && Tied(w)
    ensures var w' := After(w, call, now, ids, clock);
            && Tied(w') && w'.defs == w.defs
            && forall j :: j in w'.jobs && j !in ids ==> j in w.jobs && w'.jobs[j].source == w.jobs[j].source
  {
    match call
    case Fire(job, startedAt, reported) => FiredMoves(w, job, startedAt, reported, now, clock);
    case DropJob(job) => JobsTied(w, w.(jobs := w.jobs - {job}));
    case AddOtherJob(other) => JobsTied(w, w.(jobs := w.jobs[ids[0] := other]));
  }

  lemma WholeKeeps(n: Node, m: Move, clock: Clock)
    requires m.Whole? && Possible(n, m) && AllRead(n) && Tied(n.w)
    ensures Tied(Moved(n, m, clock).w) && AllRead(Moved(n, m, clock))
  {
    var n' := Moved(n, m, clock);
    if m.call.Restart? {
      RestartTied(n.w, m.call.order, m.now, m.ids, clock);
    } else {
      JobsMove(n.w, m.call, m.now, m.ids, clock);
      forall c | c in n'.hands ensures WasRead(n'.w, n'.hands[c].auto, n'.hands[c].snap) {
        StillRead(n.w, n'.w, n.hands[c].auto, n.hands[c].snap);
      }
    }
  }

  /** Every move but a synchronisation that strays keeps jobs and definitions together. */
  lemma MoveExactly(n: Node, m: Move, clock: Clock)
    requires Possible(n, m) && AllRead(n) && Tied(n.w)
    ensures AllRead(Moved(n, m, clock))
    ensures Tied(Moved(n, m, clock).w) <==> !Astray(n, m)
  {
    match m
    case Store(_, _) => StoreKeeps(n, m, clock);
    case Replace(_) => ReadKeeps(n, m, clock);
    case Read(_) => ReadKeeps(n, m, clock);
    case Finish(_, _, _) => FinishKeeps(n, m, clock);
    case Whole(_, _, _) => WholeKeeps(n, m, clock);
  }

  // ---- whole interleavings --------------------------------------------------------------------------------

  /** The states of any interleaving, from a scheduler without derived jobs. */
  ghost predicate Interleaved(ns: seq<Node>, moves: seq<Move>, clock: Clock) {
    && |ns| == |moves| + 1 && ns[0].w.defs == map[] && ns[0].hands == map[] && "" !in ns[0].w.jobs
    && (forall j :: j in ns[0].w.jobs ==> ns[0].w.jobs[j].source.None?)
    && forall i :: 0 <= i < |moves| ==> (Possible(ns[i], moves[i]) && ns[i + 1] == Moved(ns[i], moves[i], clock))
  }

  ghost predicate NobodyStrays(ns: seq<Node>, moves: seq<Move>, clock: Clock)
    requires Interleaved(ns, moves, clock)
  {
    forall i :: 0 <= i < |moves| ==> !Astray(ns[i], moves[i])
  }

  ghost predicate AllTied(ns: seq<Node>) {
    forall i :: 0 <= i < |ns| ==> Tied(ns[i].w)
  }

  lemma {:induction false} TiedUpTo(ns: seq<Node>, moves: seq<Move>, clock: Clock, i: nat)
    requires Interleaved(ns, moves, clock) && i < |ns|
    requires NobodyStrays(ns, moves, clock) || AllTied(ns)
    ensures AllRead(ns[i]) && Tied(ns[i].w)
  {
    if i > 0 {
      TiedUpTo(ns, moves, clock, i - 1);
      MoveExactly(ns[i - 1], moves[i - 1], clock);
    }
  }

  lemma TiedIfNobody(ns: seq<Node>, moves: seq<Move>, clock: Clock)
    requires Interleaved(ns, moves, clock) && NobodyStrays(ns, moves, clock)
    ensures AllTied(ns)
  {
    forall i | 0 <= i < |ns| ensures Tied(ns[i].w) { TiedUpTo(ns, moves, clock, i); }
  }

  lemma StaysAt(ns: seq<Node>, moves: seq<Move>, clock: Clock, i: nat)
    requires Interleaved(ns, moves, clock) && i < |moves| && AllTied(ns)
    ensures !Astray(ns[i], moves[i])
  {
    TiedUpTo(ns, moves, clock, i);
    MoveExactly(ns[i], moves[i], clock);
    assert ns[i + 1] == Moved(ns[i], moves[i], clock);
  }

  /** Over every interleaving of overlapping calls, no job is ever without a definition that refers to it, if and
      only if no client strays. */
  lemma OrphansExactly(ns: seq<Node>, moves: seq<Move>, clock: Clock)
    requires Interleaved(ns, moves, clock)
    ensures AllTied(ns) <==> NobodyStrays(ns, moves, clock)
  {
    if NobodyStrays(ns, moves, clock) { TiedIfNobody(ns, moves, clock); }
    if AllTied(ns) {
      forall i | 0 <= i < |moves| ensures !Astray(ns[i], moves[i]) { StaysAt(ns, moves, clock, i); }
    }
  }

  // ---- a client alone, and two that overlap ---------------------------------------------------------------

  /** The trigger, as its client leaves it. */
  ghost function Replaced(w: World, call: Call): World
    requires ServiceCall(call) && !TriggerRefused(call)
  {
    if Replaces(call) then WithTrigger(w, call.auto, NewTrigger(call.change.schedule, call.change.event).value) else w
  }

  /** With nobody between its steps, a client does what the whole call does. */
  lemma AloneIsWhole(w: World, call: Call, now: int, newId: JobId, clock: Clock)
    requires ServiceCall(call) && Allowed(w, call, [newId]) && !Refused(w, call) && !TriggerRefused(call)
    ensures var auto, w1 := Subject(w, call), StoredRow(w, call);
            var w2 := Replaced(w1, call);
            && auto in w1.defs && auto in w2.defs
            && SyncFrom(w2, auto, w1.defs[auto], ScheduleOf(w2, auto), now, newId, clock) ==
               After(w, call, now, [newId], clock)
  {
    var auto, w2 := Subject(w, call), Replaced(StoredRow(w, call), call);
    RowSubject(w, call);
    assert w2 == Stored(w, call);
    FreshIsSync(w2, auto, now, newId, clock);
  }

  /** Two updates of one Automation, the second of which knows of the first. */
  ghost predicate Overlap(w: World, first: Call, second: Call, newId: JobId, newId': JobId) {
    && first.Update? && second.Update? && first.auto == second.auto && first.auto in w.defs && Tied(w)
    && w.defs[first.auto].status != Deleted && newId != newId' && Unused(w, newId) && Unused(w, newId')
    && !Refused(w, first) && !Refused(StoredRow(w, first), second)
  }

  /** What an update stores, before it replaces the trigger. */
  ghost predicate Updated(w: World, w': World, a: AutomationId) {
    && a in w.defs && a in w'.defs && w' == w.(defs := w'.defs) && Tied(w') && WasRead(w', a, w'.defs[a])
    && w'.defs[a].revision == w.defs[a].revision + 1 && w'.defs[a].jobId == w.defs[a].jobId
    && w'.defs[a].status == w.defs[a].status
    && w'.defs.Keys == w.defs.Keys && forall b :: b in w.defs && b != a ==> w'.defs[b] == w.defs[b]
  }

  lemma UpdateReads(w: World, call: Call)
    requires call.Update? && Tied(w) && call.auto in w.defs && !Refused(w, call)
    ensures Updated(w, StoredRow(w, call), call.auto)
  {
    RowTied(w, call);
    ServiceEditRaises(w, call);
    assert TiedAt(StoredRow(w, call), call.auto);
  }

  lemma TwiceUpdated(w: World, w1: World, w2: World, a: AutomationId, id: JobId)
    requires Updated(w, w1, a) && Updated(w1, w2, a) && Unused(w, id) && w.defs[a].status != Deleted
    ensures WasRead(w2, a, w1.defs[a]) && Unused(w2, id) && w2.jobs == w.jobs && w2.triggers == w.triggers
  {
  }

  lemma OverlapReads(w: World, first: Call, second: Call, newId: JobId, newId': JobId)
    requires Overlap(w, first, second, newId, newId')
    ensures var a, w1 := first.auto, StoredRow(w, first);
            var w2 := StoredRow(w1, second);
            && Updated(w, w1, a) && Updated(w1, w2, a) && WasRead(w2, a, w1.defs[a])
            && Unused(w2, newId) && Unused(w2, newId') && w2.jobs == w.jobs && w2.triggers == w.triggers
  {
    var w1 := StoredRow(w, first);
    var w2 := StoredRow(w1, second);
    UpdateReads(w, first);
    UpdateReads(w1, second);
    TwiceUpdated(w, w1, w2, first.auto, newId);
    TwiceUpdated(w, w1, w2, first.auto, newId');
  }

  lemma TwoAdditions(w: World, a: AutomationId, d: Definition, e: Definition, read: Schedule, newId: JobId,
                     newId': JobId, now: int, clock: Clock)
    requires a in w.defs && newId != newId' && Unused(w, newId)
    requires d.status != Deleted && e.status != Deleted && d.jobId == "" && e.jobId == ""
    ensures var w' := SyncFrom(SyncFrom(w, a, d, Some(read), now, newId, clock), a, e, Some(read), now, newId', clock);
            a in w'.defs && newId in Orphans(w', a)
  {
  }

  /** Both clients find the definition without a job, and both add one: the first stays behind as an orphan. */
  lemma BothAddJobs(w: World, first: Call, second: Call, newId: JobId, newId': JobId, now: int, clock: Clock)
    requires Overlap(w, first, second, newId, newId') && w.defs[first.auto].jobId == ""
    requires ScheduleOf(w, first.auto).Some?
    ensures var a, w1, read := first.auto, StoredRow(w, first), ScheduleOf(w, first.auto);
            var w2 := StoredRow(w1, second);
            var w3 := SyncFrom(w2, a, w1.defs[a], read, now, newId, clock);
            var w4 := SyncFrom(w3, a, w2.defs[a], read, now, newId', clock);
            a in w4.defs && newId in Orphans(w4, a)
  {
    OverlapReads(w, first, second, newId, newId');
    var a, w1 := first.auto, StoredRow(w, first);
    var w2 := StoredRow(w1, second);
    TwoAdditions(w2, a, w1.defs[a], w2.defs[a], ScheduleOf(w, a).value, newId, newId', now, clock);
  }

  /** The client that stored first synchronises last: it writes its own definition over that of the other, and
      the job stays behind the definition until the next restart. */
  lemma OlderOverwrites(w: World, first: Call, second: Call, newId: JobId, newId': JobId, now: int, clock: Clock)
    requires Overlap(w, first, second, newId, newId') && w.defs[first.auto].jobId in w.jobs
    requires ScheduleOf(w, first.auto).Some?
    ensures var a, w1, read := first.auto, StoredRow(w, first), ScheduleOf(w, first.auto);
            var w2 := StoredRow(w1, second);
            var w3 := SyncFrom(w2, a, w2.defs[a], read, now, newId', clock);
            var w4 := SyncFrom(w3, a, w1.defs[a], read, now, newId, clock);
            && Agrees(w3, a) && Tied(w4) && !Agrees(w4, a)
            && w4.defs[a].jobId in w4.jobs && w4.jobs[w4.defs[a].jobId].revision == w1.defs[a].revision
  {
    var a, w1, read := first.auto, StoredRow(w, first), ScheduleOf(w, first.auto);
    var w2 := StoredRow(w1, second);
    OverlapReads(w, first, second, newId, newId');
    NewerThenOlder(w2, a, w1.defs[a], w2.defs[a], read.value, newId, newId', now, clock);
  }

  lemma NewerThenOlder(w: World, a: AutomationId, d: Definition, e: Definition, read: Schedule, newId: JobId,
                       newId': JobId, now: int, clock: Clock)
    requires Tied(w) && WasRead(w, a, d) && WasRead(w, a, e) && ScheduleOf(w, a) == Some(read)
    requires d.status != Deleted && e.status != Deleted && d.jobId in w.jobs && e.jobId == d.jobId
    requires d.revision < e.revision && e == w.defs[a]
    requires w.jobs[d.jobId].revision == e.revision ==> w.jobs[d.jobId].schedule == read
    ensures var w' := SyncFrom(w, a, e, Some(read), now, newId', clock);
            var w'' := SyncFrom(w', a, d, Some(read), now, newId, clock);
            && Agrees(w', a) && Tied(w'') && !Agrees(w'', a)
            && w''.defs[a].jobId in w''.jobs && w''.jobs[w''.defs[a].jobId].revision == d.revision
  {
    KeepingStrays(w, a, e, Some(read), now, newId', clock);
    RewrittenIs(w, a, e, read, now, clock);
    var w' := SyncFrom(w, a, e, Some(read), now, newId', clock);
    assert WasRead(w', a, d);
    KeepingStrays(w', a, d, Some(read), now, newId, clock);
    RewrittenIs(w', a, d, read, now, clock);
  }

  // ---- triggers that are replaced in the other order ------------------------------------------------------

  function WithSchedule(w: World, auto: AutomationId, schedule: Schedule): World {
    WithTrigger(w, auto, Some(OnSchedule(schedule)))
  }

  lemma OlderThenNewer(w: World, a: AutomationId, d: Definition, e: Definition, sd: Schedule, se: Schedule,
                       newId: JobId, newId': JobId, now: int, later: int, again: JobId, clock: Clock)
    requires Tied(w) && WasRead(w, a, d) && WasRead(w, a, e) && ScheduleOf(w, a) == Some(sd)
    requires d.status != Deleted && e.status != Deleted && d.jobId in w.jobs && e.jobId == d.jobId
    requires d.revision < e.revision && e == w.defs[a]
    ensures var w' := SyncFrom(w, a, d, Some(sd), now, newId, clock);
            var w'' := SyncFrom(w', a, e, Some(se), now, newId', clock);
            && a in w'.defs && Tied(w'') && w''.defs == w.defs && ScheduleOf(w'', a) == Some(sd)
            && d.jobId in w''.jobs && w''.jobs[d.jobId].revision == e.revision
            && w''.jobs[d.jobId].enabled == (e.status == Active) && w''.jobs[d.jobId].schedule == se
            && (Agrees(w'', a) <==> sd == se) && Sync(w'', a, later, again, clock).jobs == w''.jobs
  {
    KeepingStrays(w, a, d, Some(sd), now, newId, clock);
    RewrittenIs(w, a, d, sd, now, clock);
    KindStays(w, a, d, Some(sd), now, newId, clock);
    var w' := SyncFrom(w, a, d, Some(sd), now, newId, clock);
    assert WasRead(w', a, e);
    KeepingStrays(w', a, e, Some(se), now, newId', clock);
    RewrittenIs(w', a, e, se, now, clock);
    KindStays(w', a, e, Some(se), now, newId', clock);
    UpToDateStays(SyncFrom(w', a, e, Some(se), now, newId', clock), a, later, again, clock);
  }

  /** Two updates ask for different schedules. The newer one replaces the trigger and reads it, then the older one
      replaces it and synchronises, and then the newer one writes the job: this has the current revision, and a
      schedule that the trigger has no longer. They agree if and only if the schedules are the same, and no later
      synchronisation changes the job. */
  lemma TriggersCross(w: World, first: Call, second: Call, older: Schedule, newer: Schedule, newId: JobId,
                      newId': JobId, now: int, later: int, again: JobId, clock: Clock)
    requires Overlap(w, first, second, newId, newId') && w.defs[first.auto].jobId in w.jobs
    requires Replaces(first) && NewTrigger(first.change.schedule, first.change.event) == Ok(Some(OnSchedule(older)))
    requires Replaces(second) && NewTrigger(second.change.schedule, second.change.event) == Ok(Some(OnSchedule(newer)))
    ensures var a, w1 := first.auto, StoredRow(w, first);
            var w2 := StoredRow(w1, second);
            var w3 := WithSchedule(WithSchedule(w2, a, newer), a, older);
            var w4 := SyncFrom(w3, a, w1.defs[a], Some(older), now, newId, clock);
            a in w4.defs &&
            var w5 := SyncFrom(w4, a, w2.defs[a], Some(newer), now, newId', clock);
            && a in w5.defs && Tied(w5) && (Agrees(w5, a) <==> older == newer)
            && Sync(w5, a, later, again, clock).jobs == w5.jobs
  {
    var a, w1 := first.auto, StoredRow(w, first);
    var w2 := StoredRow(w1, second);
    var w3 := WithSchedule(WithSchedule(w2, a, newer), a, older);
    Crossed(w, first, second, w3, newId, newId');
    OlderThenNewer(w3, a, w1.defs[a], w2.defs[a], older, newer, newId, newId', now, later, again, clock);
  }

  lemma Crossed(w: World, first: Call, second: Call, w3: World, newId: JobId, newId': JobId)
    requires Overlap(w, first, second, newId, newId') && w.defs[first.auto].jobId in w.jobs
    requires w3 == StoredRow(StoredRow(w, first), second).(triggers := w3.triggers)
    ensures var a, w1 := first.auto, StoredRow(w, first);
            && a in w1.defs && a in w3.defs && Tied(w3) && WasRead(w3, a, w1.defs[a]) && WasRead(w3, a, w3.defs[a])
            && w1.defs[a].status != Deleted && w3.defs[a].status != Deleted && w1.defs[a].jobId in w3.jobs
            && w3.defs[a].jobId == w1.defs[a].jobId && w1.defs[a].revision < w3.defs[a].revision
  {
    OverlapReads(w, first, second, newId, newId');
    TiedAside(StoredRow(StoredRow(w, first), second), w3);
  }

  /** A job with the revision and the enablement of its definition is left as it is. */
  lemma UpToDateStays(w: World, a: AutomationId, now: int, newId: JobId, clock: Clock)
    requires "" !in w.jobs && Wants(w, a) && w.defs[a].jobId in w.jobs
    requires w.jobs[w.defs[a].jobId].revision == w.defs[a].revision
    requires w.jobs[w.defs[a].jobId].enabled == (w.defs[a].status == Active)
    ensures Sync(w, a, now, newId, clock).jobs == w.jobs
  {
    assert w.jobs[w.defs[a].jobId := w.jobs[w.defs[a].jobId]] == w.jobs;
  }
}
