/** The run engine of one Node, step by step as other threads can see it. The event loop works in
    slices; callers in other threads come between its slices, between settling a run and looking
    for the next one, and between the store calls of one another. */
module RunSlices {
  import opened AutomationFacts
  import opened RunSets

  datatype Verdict = Submit | Enqueue | Reject

  /** The database; the coroutines handed to the event loop and not begun (`scheduled`), those that wait
      inside an Agent turn (`executing`) and those that have settled their run and will look for the
      next one (`closing`); and the rows whose caller has still to submit them or to mark them as
      skipped (`held`). */
  datatype Sys = Sys(
    db: Db, scheduled: multiset<RunId>, executing: multiset<RunId>, closing: multiset<RunId>, held: map<RunId, Verdict>)

  function ParallelLimit(policy: Policy): int {
    if policy.limit == 0 then 1 else policy.limit
  }

  /** The admission decision, from the number of queued and running runs. */
  function Admit(policy: Policy, active: nat): Verdict {
    if || (policy.mode == Skip && active > 0)
       || (policy.mode == ParallelWithLimit && active >= ParallelLimit(policy))
       || (policy.mode == QueueOne && active >= 2)
    then Reject
    else if policy.mode == QueueOne && active == 1 then Enqueue
    else Submit
  }

  /** A request reaches the run table: the snapshot is active and the occurrence is new. */
  ghost predicate Admissible(db: Db, auto: AutomationId, snapshot: Definition, occurrence: string) {
    snapshot.status == Active && auto in db.defs && !HasOccurrence(db, auto, occurrence)
  }

  /** `create_run`, under a verdict that was reached before. A run that waits asks nothing more of its caller. */
  ghost function Inserted(s: Sys, auto: AutomationId, snapshot: Definition, occurrence: string, now: int,
                          verdict: Verdict): Sys {
    if !Admissible(s.db, auto, snapshot, occurrence) then s
    else s.(db := WithRun(s.db, auto, occurrence, snapshot.revision, now),
            held := if verdict == Enqueue then s.held else s.held[|s.db.runs| := verdict])
  }

  /** The last step of a caller: hand its run to the event loop, or mark it as skipped. */
  function Concluded(s: Sys, run: RunId): Sys
    requires run in s.held && run < |s.db.runs|
  {
    if s.held[run] == Submit then s.(scheduled := s.scheduled + multiset{run}, held := s.held - {run})
    else s.(db := WithRunStatus(s.db, run, Skipped), held := s.held - {run})
  }

  /** The verdict of the moment. */
  function VerdictNow(s: Sys, auto: AutomationId, policy: Policy): Verdict {
    Admit(policy, |ActiveRuns(s.db, auto)|)
  }

  /** `_prepare_run` without interference. The snapshot is the definition the caller read, perhaps long ago. */
  ghost function Prepared(s: Sys, auto: AutomationId, snapshot: Definition, occurrence: string, now: int): Sys {
    var verdict := VerdictNow(s, auto, snapshot.policy);
    var s1 := Inserted(s, auto, snapshot, occurrence, now, verdict);
    if Admissible(s.db, auto, snapshot, occurrence) && verdict == Reject then Concluded(s1, |s.db.runs|) else s1
  }

  /** The `created` flag of `_prepare_run`: the caller must submit the new run. */
  ghost predicate MustSubmit(s: Sys, auto: AutomationId, snapshot: Definition, occurrence: string) {
    Admissible(s.db, auto, snapshot, occurrence) && VerdictNow(s, auto, snapshot.policy) == Submit
  }

  /** `_prepare_run` and, when it says so, the submission of the new run. */
  ghost function Requested(s: Sys, auto: AutomationId, snapshot: Definition, occurrence: string, now: int): Sys {
    var s1 := Prepared(s, auto, snapshot, occurrence, now);
    if MustSubmit(s, auto, snapshot, occurrence) then Concluded(s1, |s.db.runs|) else s1
  }

  /** The run that an occurrence has. */
  ghost function RunOf(db: Db, auto: AutomationId, occurrence: string): (run: RunId)
    requires HasOccurrence(db, auto, occurrence)
    ensures IsOccurrence(db, auto, occurrence, run)
  {
    var run :| IsOccurrence(db, auto, occurrence, run);
    run
  }

  /** The missed-run `skip` branch: prepare, then mark whatever run came back as skipped. It runs on the
      event loop, so no drain comes between; a run of its own making is never submitted. */
  ghost function MissedSkipped(s: Sys, auto: AutomationId, snapshot: Definition, occurrence: string, now: int): Sys {
    if snapshot.status != Active then s
    else if HasOccurrence(s.db, auto, occurrence) then
      s.(db := WithRunStatus(s.db, RunOf(s.db, auto, occurrence), Skipped))
    else if auto !in s.db.defs then s
    else s.(db := WithRunStatus(WithRun(s.db, auto, occurrence, snapshot.revision, now), |s.db.runs|, Skipped))
  }

  predicate Alive(db: Db, auto: AutomationId) {
    auto in db.defs && db.defs[auto].status != Deleted
  }

  /** Readiness of a run about to start. `ready` holds the runs whose Agent, workspace, model
      profile and extensions are available. */
  predicate Ready(db: Db, auto: AutomationId, run: RunId, ready: set<RunId>)
    requires auto in db.defs
  {
    run in ready && db.defs[auto].confirmed && db.defs[auto].status == Active
  }

  /** `_execute_run` up to its first await, or to its drain if it blocks the run. A deleted definition
      makes it raise at once. */
  function Executed(s: Sys, run: RunId, ready: set<RunId>): Sys
    requires run < |s.db.runs|
  {
    var auto := s.db.runs[run].auto;
    if !Alive(s.db, auto) then s
    else if Ready(s.db, auto, run, ready) then
      s.(db := WithRunStatus(s.db, run, Running), executing := s.executing + multiset{run})
    else
      s.(db := WithRunStatus(s.db, run, RunBlocked), closing := s.closing + multiset{run})
  }

  /** The queued runs a drain looks at. */
  function Others(db: Db, run: RunId): set<RunId>
    requires run < |db.runs|
  {
    QueuedRuns(db, db.runs[run].auto) - {run}
  }

  function Closed(s: Sys, run: RunId): Sys {
    s.(closing := s.closing - multiset{run})
  }

  /** `_drain_queued_run`: when nothing runs, start the oldest other queued run. */
  ghost function Drained(s: Sys, run: RunId, ready: set<RunId>): Sys
    requires run < |s.db.runs|
  {
    if RunningRuns(s.db, s.db.runs[run].auto) != {} || Others(s.db, run) == {} then Closed(s, run)
    else Executed(Closed(s, run), Oldest(s.db, Others(s.db, run)), ready)
  }

  /** A start with all the draining it causes, when no other thread comes between. */
  ghost function ExecuteSlice(s: Sys, run: RunId, ready: set<RunId>): Sys
    requires run < |s.db.runs|
    decreases |Others(s.db, run)|, 1
  {
    var auto, s1 := s.db.runs[run].auto, Executed(s, run, ready);
    if !Alive(s.db, auto) || Ready(s.db, auto, run, ready) then s1
    else
      assert QueuedRuns(s1.db, auto) == Others(s.db, run);
      DrainSlice(s1, run, ready)
  }

  ghost function DrainSlice(s: Sys, run: RunId, ready: set<RunId>): Sys
    requires run < |s.db.runs|
    decreases |QueuedRuns(s.db, s.db.runs[run].auto)|, 0
  {
    var auto := s.db.runs[run].auto;
    if RunningRuns(s.db, auto) != {} || Others(s.db, run) == {} then Closed(s, run)
    else
      var next := Oldest(s.db, Others(s.db, run));
      assert next in QueuedRuns(s.db, auto);
      ExecuteSlice(Closed(s, run), next, ready)
  }

  /** A monitor's stop phrase pauses an active definition. */
  function Stopped(db: Db, auto: AutomationId, stop: bool): Db {
    if stop && auto in db.defs && db.defs[auto].status == Active then WithStatus(db, auto, Paused) else db
  }

  /** The end of an Agent turn: settle the run, apply the stop phrase. The coroutine has still to drain. */
  function Settled(s: Sys, run: RunId, ok: bool, stop: bool): Sys
    requires run < |s.db.runs|
  {
    s.(db := Stopped(WithRunStatus(s.db, run, if ok then Completed else Failed), s.db.runs[run].auto, ok && stop),
       executing := s.executing - multiset{run}, closing := s.closing + multiset{run})
  }

  /** The end of an Agent turn with its drain. */
  ghost function FinishSlice(s: Sys, run: RunId, ok: bool, stop: bool, ready: set<RunId>): Sys
    requires run < |s.db.runs|
  {
    DrainSlice(Settled(s, run, ok, stop), run, ready)
  }

  /** The stop phrase, or the pause it asks for, raises after the run is completed, and there is another
      attempt: the coroutine goes on to it, and does not drain. */
  function RaisedLate(s: Sys, run: RunId, paused: bool): Sys
    requires run < |s.db.runs|
  {
    s.(db := Stopped(WithRunStatus(s.db, run, Completed), s.db.runs[run].auto, paused))
  }

  /** Session set-up raises inside the coroutine of a run: nothing settles the run, and as a rule the
      drain check on the way out sees it still running. */
  function SetupFailed(s: Sys, run: RunId): Sys
    requires run < |s.db.runs|
  {
    s.(executing := s.executing - multiset{run},
       closing := if s.db.runs[run].status == Running then s.closing else s.closing + multiset{run})
  }

  /** How many queued runs of one Automation a restart resumes. */
  function ResumeLimit(policy: Policy): nat {
    if policy.mode != ParallelWithLimit || policy.limit < 1 then 1 else policy.limit
  }

  /** Rows a restart reads at most. */
  const INCOMPLETE_LIMIT := 1_000
  const DEFINITION_LIMIT := 10_000

  /** The unsettled runs that a restart reads. */
  ghost function ReadRuns(db: Db): seq<RunId> {
    FirstOf(ByAge(db, Incomplete(db)), INCOMPLETE_LIMIT)
  }

  /** Of these, the queued runs of one Automation. */
  ghost function QueueRead(db: Db, auto: AutomationId): seq<RunId> {
    Only(ReadRuns(db), QueuedRuns(db, auto))
  }

  /** `listed` are the definitions that the restart reads. */
  ghost predicate Resumes(db: Db, run: RunId, listed: set<AutomationId>) {
    && run < |db.runs|
    && var auto := db.runs[run].auto;
    && auto in listed && auto in db.defs && db.defs[auto].status == Active
    && run in FirstOf(QueueRead(db, auto), ResumeLimit(db.defs[auto].policy))
  }

  function Interrupted(db: Db): set<RunId> {
    set r: RunId | r < |db.runs| && db.runs[r].status == Running
  }

  ghost function BlockEach(db: Db, order: seq<RunId>): Db
    requires forall i :: 0 <= i < |order| ==> order[i] < |db.runs|
    decreases order
  {
    if order == [] then db else BlockEach(WithRunStatus(db, order[0], RunBlocked), order[1..])
  }

  /** Every run that is read and was running is settled as blocked, oldest first. */
  ghost function BlockInterrupted(db: Db): Db {
    var order := Only(ReadRuns(db), Interrupted(db));
    assert forall i :: 0 <= i < |order| ==> order[i] in order;
    BlockEach(db, order)
  }

  /** A crash, which loses every coroutine and every caller, and `reconcile_runtime` on the next start. */
  ghost function Restarted(s: Sys, listed: set<AutomationId>): Sys {
    Sys(BlockInterrupted(s.db),
        multiset(set r: RunId | r < |s.db.runs| && Resumes(s.db, r, listed)),
        multiset{}, multiset{}, map[])
  }

  /** The definitions a restart reads: all that are not deleted, or as many of them as it reads at most. */
  ghost predicate Listing(db: Db, listed: set<AutomationId>) {
    var alive := set a | a in db.defs && Alive(db, a);
    listed <= alive && (|alive| <= DEFINITION_LIMIT ==> listed == alive)
  }

  /** What can happen to a Node. `counted` is the number of unsettled runs a caller counted, at whatever time. */
  datatype Move =
    | Insert(auto: AutomationId, snapshot: Definition, occurrence: string, now: int, counted: nat)
    | Conclude(run: RunId)
    | MissedSkip(auto: AutomationId, snapshot: Definition, occurrence: string, now: int)
    | Start(run: RunId, ready: set<RunId>)
    | Settle(run: RunId, ok: bool, stop: bool)
    | Drain(run: RunId, ready: set<RunId>)
    | RaisesLate(run: RunId, paused: bool)
    | SetupFails(run: RunId)
    | Admin(op: StoreOp)
    | Restart(listed: set<AutomationId>)

  ghost predicate Enabled(s: Sys, m: Move) {
    match m
    case Insert(_, _, _, _, _) => true
    case Conclude(run) => run in s.held && run < |s.db.runs|
    case MissedSkip(_, _, _, _) => true
    case Start(run, _) => run in s.scheduled && run < |s.db.runs|
    case Settle(run, _, stop) =>
      run in s.executing && run < |s.db.runs| && (stop ==> Alive(s.db, s.db.runs[run].auto))
    case Drain(run, _) => run in s.closing && run < |s.db.runs|
    case RaisesLate(run, _) => run in s.executing && run < |s.db.runs|
    case SetupFails(run) => run in s.executing && run < |s.db.runs|
    case Admin(op) => !op.CreateRun? && !op.UpdateRun?
    case Restart(listed) => Listing(s.db, listed)
  }

  ghost function Next(s: Sys, m: Move): Sys {
    if !Enabled(s, m) then s else
    match m
    case Insert(auto, snapshot, occurrence, now, counted) =>
      Inserted(s, auto, snapshot, occurrence, now, Admit(snapshot.policy, counted))
    case Conclude(run) => Concluded(s, run)
    case MissedSkip(auto, snapshot, occurrence, now) => MissedSkipped(s, auto, snapshot, occurrence, now)
    case Start(run, ready) => Executed(s.(scheduled := s.scheduled - multiset{run}), run, ready)
    case Settle(run, ok, stop) => Settled(s, run, ok, stop)
    case Drain(run, ready) => Drained(s, run, ready)
    case RaisesLate(run, paused) => RaisedLate(s, run, paused)
    case SetupFails(run) => SetupFailed(s, run)
    case Admin(op) => s.(db := Apply(s.db, op))
    case Restart(listed) => Restarted(s, listed)
  }

  const IDLE_NODE := Sys(EMPTY, multiset{}, multiset{}, multiset{}, map[])

  ghost function Trace(s: Sys, moves: seq<Move>): Sys {
    if moves == [] then s else Next(Trace(s, moves[..|moves| - 1]), moves[|moves| - 1])
  }

  lemma TraceStep(s: Sys, moves: seq<Move>, m: Move)
    ensures Trace(s, moves + [m]) == Next(Trace(s, moves), m)
  {
    assert (moves + [m])[..|moves|] == moves;
  }

  lemma {:induction false} TraceSplit(s: Sys, a: seq<Move>, b: seq<Move>)
    ensures Trace(s, a + b) == Trace(Trace(s, a), b)
    decreases |b|
  {
    if b == [] {
      assert a + b == a;
    } else {
      var n := |b| - 1;
      assert a + b == a + b[..n] + [b[n]];
      TraceStep(s, a + b[..n], b[n]);
      TraceSplit(s, a, b[..n]);
    }
  }

  // ---- whole slices are traces --------------------------------------------------------------------

  /** The moves of a drain to its end. */
  ghost function DrainMoves(s: Sys, run: RunId, ready: set<RunId>): seq<Move>
    requires run < |s.db.runs|
    decreases |QueuedRuns(s.db, s.db.runs[run].auto)|
  {
    var auto := s.db.runs[run].auto;
    if RunningRuns(s.db, auto) != {} || Others(s.db, run) == {} then [Drain(run, ready)]
    else
      var next := Oldest(s.db, Others(s.db, run));
      var s1 := Executed(Closed(s, run), next, ready);
      if !Alive(s.db, auto) || Ready(s.db, auto, next, ready) then [Drain(run, ready)]
      else
        assert next in QueuedRuns(s.db, auto) && QueuedRuns(s1.db, auto) == QueuedRuns(s.db, auto) - {next};
        [Drain(run, ready)] + DrainMoves(s1, next, ready)
  }

  /** A drain without interference is one of the traces the theorems are about, and so is the end of a turn. */
  lemma {:induction false} DrainIsTrace(s: Sys, run: RunId, ready: set<RunId>)
    requires run < |s.db.runs| && run in s.closing
    ensures Trace(s, DrainMoves(s, run, ready)) == DrainSlice(s, run, ready)
    decreases |QueuedRuns(s.db, s.db.runs[run].auto)|
  {
    var auto := s.db.runs[run].auto;
    TraceStep(s, [], Drain(run, ready));
    assert [] + [Drain(run, ready)] == [Drain(run, ready)];
    if RunningRuns(s.db, auto) == {} && Others(s.db, run) != {} {
      var next := Oldest(s.db, Others(s.db, run));
      var s1 := Executed(Closed(s, run), next, ready);
      if Alive(s.db, auto) && !Ready(s.db, auto, next, ready) {
        assert next in QueuedRuns(s.db, auto) && QueuedRuns(s1.db, auto) == QueuedRuns(s.db, auto) - {next};
        DrainIsTrace(s1, next, ready);
        TraceSplit(s, [Drain(run, ready)], DrainMoves(s1, next, ready));
      }
    }
  }
}
