/** The engine over whole traces, from an empty Node, for Automations that run one at a time. */
module RunTheorems {
  import opened AutomationFacts
  import opened RunSets
  import opened RunSlices
  import opened RunViews
  import opened RunSafety
  import opened RunMoves

  /** The state after the first `i` moves. */
  ghost function After(s: Sys, moves: seq<Move>, i: nat): Sys
    requires i <= |moves|
  {
    Trace(s, moves[..i])
  }

  lemma AfterNext(s: Sys, moves: seq<Move>, i: nat)
    requires i < |moves|
    ensures After(s, moves, i + 1) == Next(After(s, moves, i), moves[i])
  {
    assert moves[..i + 1][..i] == moves[..i];
  }

  lemma AfterAll(s: Sys, moves: seq<Move>)
    ensures After(s, moves, |moves|) == Trace(s, moves) && After(s, moves, 0) == s
  {
    assert moves[..|moves|] == moves;
  }

  /** Every policy the definition is given is serial. */
  predicate SerialTrace(moves: seq<Move>, auto: AutomationId) {
    forall i :: 0 <= i < |moves| ==> KeepsSerial(moves[i], auto)
  }

  /** No move that breaks the invariant. */
  ghost predicate Unbroken(moves: seq<Move>, auto: AutomationId) {
    forall i :: 0 <= i < |moves| ==> !Breaks(After(IDLE_NODE, moves, i), moves[i], auto)
  }

  /** No move that loses the wake-up. */
  ghost predicate Undisturbed(moves: seq<Move>, auto: AutomationId) {
    forall i :: 0 <= i < |moves| ==> !Lulls(After(IDLE_NODE, moves, i), moves[i], auto)
  }

  /** What every move does to the invariant, to the wake-up and to a wait without coroutine. */
  lemma StepExactly(s: Sys, m: Move, auto: AutomationId)
    requires Inv(s, auto) && KeepsSerial(m, auto)
    ensures Exactly(s, Next(s, m), m, auto)
  {
    match m
    case Insert(_, _, _, _, _) => InsertExactly(s, m, auto);
    case Conclude(_) => if Enabled(s, m) { ConcludeExactly(s, m, auto); }
    case MissedSkip(_, _, _, _) => MissedSkipExactly(s, m, auto);
    case RaisesLate(_, _) => if Enabled(s, m) { RaisesLateExactly(s, m, auto); }
    case SetupFails(_) => if Enabled(s, m) { SetupFailsExactly(s, m, auto); }
    case Restart(listed) => if Enabled(s, m) { RestartExactly(s, auto, listed); }
    case _ => OthersExactly(s, m, auto);
  }

  /** Starts, ends of turns, drains and edits keep everything. */
  lemma OthersExactly(s: Sys, m: Move, auto: AutomationId)
    requires Inv(s, auto) && KeepsSerial(m, auto)
    requires m.Start? || m.Settle? || m.Drain? || m.Admin?
    ensures Exactly(s, Next(s, m), m, auto)
  {
    if Enabled(s, m) {
      match m
      case Start(_, _) => StartKeeps(s, m, auto);
      case Settle(_, _, _) => SettleKeeps(s, m, auto);
      case Drain(_, _) => DrainKeeps(s, m, auto);
      case Admin(_) => AdminKeeps(s, m, auto);
    }
  }

  lemma RestartExactly(s: Sys, auto: AutomationId, listed: set<AutomationId>)
    requires Enabled(s, Restart(listed)) && Inv(s, auto)
    ensures Exactly(s, Next(s, Restart(listed)), Restart(listed), auto)
  {
    RestartKeeps(s, auto, listed);
  }

  lemma NodeStartsIdle(auto: AutomationId)
    ensures Inv(IDLE_NODE, auto) && Awake(IDLE_NODE, auto)
  {
    var v := ViewOf(IDLE_NODE, auto);
    assert v == View({}, {}, map[], map[], map[], map[], map[]);
    assert Promises(v) == {} && Rows(v) == {};
  }

  lemma Unbreaking(s: Sys, m: Move, auto: AutomationId)
    requires Inv(s, auto) && KeepsSerial(m, auto) && !Breaks(s, m, auto)
    ensures Inv(Next(s, m), auto)
  {
    StepExactly(s, m, auto);
  }

  lemma {:induction false} TraceKeeps(moves: seq<Move>, i: nat, auto: AutomationId)
    requires SerialTrace(moves, auto) && Unbroken(moves, auto) && i <= |moves|
    ensures Inv(After(IDLE_NODE, moves, i), auto)
  {
    if i == 0 {
      NodeStartsIdle(auto);
    } else {
      TraceKeeps(moves, i - 1, auto);
      AfterNext(IDLE_NODE, moves, i - 1);
      Unbreaking(After(IDLE_NODE, moves, i - 1), moves[i - 1], auto);
    }
  }

  /** The invariant holds all along a trace if and only if no move of it breaks it. */
  lemma InvariantExactly(moves: seq<Move>, auto: AutomationId)
    requires SerialTrace(moves, auto)
    ensures (forall i :: 0 <= i <= |moves| ==> Inv(After(IDLE_NODE, moves, i), auto)) <==> Unbroken(moves, auto)
  {
    if Unbroken(moves, auto) {
      forall i | 0 <= i <= |moves| ensures Inv(After(IDLE_NODE, moves, i), auto) {
        TraceKeeps(moves, i, auto);
      }
    } else {
      var i :| 0 <= i < |moves| && Breaks(After(IDLE_NODE, moves, i), moves[i], auto);
      BrokenHere(After(IDLE_NODE, moves, i), moves[i], auto);
      AfterNext(IDLE_NODE, moves, i);
    }
  }

  lemma BrokenHere(s: Sys, m: Move, auto: AutomationId)
    requires KeepsSerial(m, auto) && Breaks(s, m, auto)
    ensures Inv(s, auto) ==> !Inv(Next(s, m), auto)
  {
    if Inv(s, auto) { StepExactly(s, m, auto); }
  }

  /** A coroutine of this Automation has this run. */
  predicate Manning(s: Sys, auto: AutomationId, r: RunId) {
    Of(s.db.runs, auto, r) && (r in s.scheduled || r in s.executing || r in s.closing)
  }

  /** All coroutines of an Automation together are at most one. */
  ghost predicate OneCoroutine(s: Sys, auto: AutomationId) {
    && (forall r :: Of(s.db.runs, auto, r) ==> s.scheduled[r] + s.executing[r] + s.closing[r] <= 1)
    && (forall r, q :: Manning(s, auto, r) && Manning(s, auto, q) ==> r == q)
  }

  ghost predicate StartedOnce(s: Sys, auto: AutomationId) {
    forall r :: Of(s.db.runs, auto, r) ==> Starts(s.db.log, r) <= 1
  }

  /** Admission safety under serial policies. Over every unbroken trace, with restarts at any time, with
      session set-ups that raise, and with callers of other threads at any point between, at most one run
      is running, all coroutines of the Automation together are at most one, each that waits or executes
      has an unsettled run, and no run is started twice. */
  lemma AdmissionSafe(moves: seq<Move>, auto: AutomationId)
    requires SerialTrace(moves, auto) && Unbroken(moves, auto)
    ensures var s := Trace(IDLE_NODE, moves);
            && |RunningRuns(s.db, auto)| <= 1 && OneCoroutine(s, auto) && StartedOnce(s, auto)
            && (forall r :: Carried(s, auto, r) ==> r in ActiveRuns(s.db, auto))
  {
    AfterAll(IDLE_NODE, moves);
    TraceKeeps(moves, |moves|, auto);
    ViewReads(Trace(IDLE_NODE, moves), auto);
  }

  /** The view invariant, read back in terms of the engine. */
  lemma ViewReads(s: Sys, auto: AutomationId)
    requires Serial(ViewOf(s, auto))
    ensures |RunningRuns(s.db, auto)| <= 1 && OneCoroutine(s, auto) && StartedOnce(s, auto)
    ensures forall r :: Carried(s, auto, r) ==> r in ActiveRuns(s.db, auto)
  {
    OneAtATime(ViewOf(s, auto));
    CoroutinesRead(s, auto);
    StartsRead(s, auto);
  }

  lemma CoroutinesRead(s: Sys, auto: AutomationId)
    requires Serial(ViewOf(s, auto))
    ensures OneCoroutine(s, auto) && forall r :: Carried(s, auto, r) ==> r in ActiveRuns(s.db, auto)
  {
    var v := ViewOf(s, auto);
    forall r | Of(s.db.runs, auto, r) ensures s.scheduled[r] + s.executing[r] + s.closing[r] <= 1 {
      OneOfEach(v, r);
      CoroutineRead(s, auto, r);
    }
    forall r, q | Manning(s, auto, r) && Manning(s, auto, q) ensures r == q {
      CoroutineRead(s, auto, r);
      CoroutineRead(s, auto, q);
      OnlyOne(v, r, q);
    }
    forall r | Carried(s, auto, r) ensures r in ActiveRuns(s.db, auto) {
      CoroutineRead(s, auto, r);
      OneOfEach(v, r);
    }
  }

  function Number(m: map<RunId, nat>, r: RunId): nat {
    if r in m then m[r] else 0
  }

  lemma CoroutineRead(s: Sys, auto: AutomationId, r: RunId)
    requires Of(s.db.runs, auto, r)
    ensures var v := ViewOf(s, auto);
            && s.scheduled[r] == Number(v.scheduled, r) && s.executing[r] == Number(v.executing, r)
            && s.closing[r] == Number(v.closing, r)
            && (r in s.scheduled <==> r in v.scheduled) && (r in s.executing <==> r in v.executing)
            && (r in s.closing <==> r in v.closing)
  {
  }

  /** The one coroutine is in one place, and its run is unsettled until it closes. */
  lemma OneOfEach(v: View, r: RunId)
    requires Serial(v)
    ensures Number(v.scheduled, r) + Number(v.executing, r) + Number(v.closing, r) <= 1
    ensures r in v.scheduled || r in v.executing ==> r in v.queued || r in v.running
  {
    assert Dormant(v) || exists t :: Owns(v, t) || Promised(v, t);
  }

  lemma OnlyOne(v: View, r: RunId, q: RunId)
    requires Serial(v)
    requires r in v.scheduled || r in v.executing || r in v.closing
    requires q in v.scheduled || q in v.executing || q in v.closing
    ensures r == q
  {
    assert Dormant(v) || exists t :: Owns(v, t) || Promised(v, t);
  }

  lemma StartsRead(s: Sys, auto: AutomationId)
    requires Serial(ViewOf(s, auto))
    ensures StartedOnce(s, auto)
  {
    var v := ViewOf(s, auto);
    forall r | Of(s.db.runs, auto, r) ensures Starts(s.db.log, r) == if r in v.begun then v.begun[r] else 0 {
    }
  }

  lemma {:induction false} TraceAwake(moves: seq<Move>, i: nat, auto: AutomationId)
    requires SerialTrace(moves, auto) && Unbroken(moves, auto) && Undisturbed(moves, auto) && i <= |moves|
    ensures Awake(After(IDLE_NODE, moves, i), auto)
  {
    if i == 0 {
      NodeStartsIdle(auto);
    } else {
      TraceAwake(moves, i - 1, auto);
      TraceKeeps(moves, i - 1, auto);
      AfterNext(IDLE_NODE, moves, i - 1);
      StillAwake(After(IDLE_NODE, moves, i - 1), moves[i - 1], auto);
    }
  }

  lemma StillAwake(s: Sys, m: Move, auto: AutomationId)
    requires Inv(s, auto) && KeepsSerial(m, auto) && !Breaks(s, m, auto) && Awake(s, auto) && !Lulls(s, m, auto)
    ensures Awake(Next(s, m), auto)
  {
    StepExactly(s, m, auto);
  }

  /** An Automation is awake all along an unbroken trace if and only if no move of it loses the wake-up. */
  lemma AwakeExactly(moves: seq<Move>, auto: AutomationId)
    requires SerialTrace(moves, auto) && Unbroken(moves, auto)
    ensures (forall i :: 0 <= i <= |moves| ==> Awake(After(IDLE_NODE, moves, i), auto)) <==> Undisturbed(moves, auto)
  {
    if Undisturbed(moves, auto) {
      forall i | 0 <= i <= |moves| ensures Awake(After(IDLE_NODE, moves, i), auto) {
        TraceAwake(moves, i, auto);
      }
    } else {
      var i :| 0 <= i < |moves| && Lulls(After(IDLE_NODE, moves, i), moves[i], auto);
      TraceKeeps(moves, i, auto);
      LulledHere(After(IDLE_NODE, moves, i), moves[i], auto);
      AfterNext(IDLE_NODE, moves, i);
    }
  }

  lemma LulledHere(s: Sys, m: Move, auto: AutomationId)
    requires KeepsSerial(m, auto) && Inv(s, auto) && !Breaks(s, m, auto) && Lulls(s, m, auto)
    ensures Awake(s, auto) ==> !Awake(Next(s, m), auto)
  {
    StepExactly(s, m, auto);
  }

  /** A restart, which loses every coroutine, leaves an Automation awake exactly if it has no queued run
      or is active, as long as there are no more rows than a restart reads. */
  lemma RestartWakesExactly(moves: seq<Move>, auto: AutomationId, listed: set<AutomationId>)
    requires SerialTrace(moves, auto) && Unbroken(moves, auto)
    requires var db := Trace(IDLE_NODE, moves).db;
             && Listing(db, listed) && |Incomplete(db)| <= INCOMPLETE_LIMIT
             && |set a | a in db.defs && Alive(db, a)| <= DEFINITION_LIMIT
    ensures var s := Trace(IDLE_NODE, moves);
            Awake(Restarted(s, listed), auto) <==>
            (Alive(s.db, auto) && QueuedRuns(s.db, auto) != {} ==> s.db.defs[auto].status == Active)
  {
    AfterAll(IDLE_NODE, moves);
    TraceKeeps(moves, |moves|, auto);
    RestartWakes(Trace(IDLE_NODE, moves), auto, listed);
  }

  lemma RestartWakes(s: Sys, auto: AutomationId, listed: set<AutomationId>)
    requires Inv(s, auto) && Listing(s.db, listed) && |Incomplete(s.db)| <= INCOMPLETE_LIMIT
    requires |set a | a in s.db.defs && Alive(s.db, a)| <= DEFINITION_LIMIT
    ensures Awake(Restarted(s, listed), auto) <==>
            (Alive(s.db, auto) && QueuedRuns(s.db, auto) != {} ==> s.db.defs[auto].status == Active)
  {
    RestartKeeps(s, auto, listed);
    AllRead(s.db, auto, listed);
  }

  /** What a lost wake-up costs: runs that are here to stay, without a coroutine, stay so. No waiting request,
      resumption or edit helps, until a submission, a restart or the missed-run branch. */
  lemma {:induction false} StuckUntilRescue(s: Sys, moves: seq<Move>, i: nat, auto: AutomationId)
    requires Inv(s, auto) && Stuck(s, auto) && SerialTrace(moves, auto) && i <= |moves|
    requires forall j :: 0 <= j < |moves| ==> !Breaks(After(s, moves, j), moves[j], auto)
    requires forall j :: 0 <= j < |moves| ==> !Rescues(After(s, moves, j), moves[j], auto)
    ensures Inv(After(s, moves, i), auto) && Stuck(After(s, moves, i), auto)
  {
    if i == 0 {
      AfterAll(s, moves);
    } else {
      StuckUntilRescue(s, moves, i - 1, auto);
      AfterNext(s, moves, i - 1);
      StillStuck(After(s, moves, i - 1), moves[i - 1], auto);
    }
  }

  lemma StillStuck(s: Sys, m: Move, auto: AutomationId)
    requires Inv(s, auto) && KeepsSerial(m, auto) && !Breaks(s, m, auto)
    requires Stuck(s, auto) && !Rescues(s, m, auto)
    ensures Inv(Next(s, m), auto) && Stuck(Next(s, m), auto)
  {
    StepExactly(s, m, auto);
  }

  // ---- a coroutine really drains --------------------------------------------------------------

  /** What is left to do for one Automation. */
  function Work(v: View): nat {
    3 * |v.queued| + 2 * |v.running| + if v.closing == map[] then 0 else 1
  }

  lemma TakenUpWorks(v: View, run: RunId, ready: bool)
    requires Idle(v) && Serial(v) && run in v.queued
    ensures Work(TakenUp(v, run, ready)) < Work(v)
  {
    var v' := TakenUp(v, run, ready);
    TakenUpView(v, run, ready);
    assert v.queued == v'.queued + {run};
  }

  lemma ExecutedWorks(s: Sys, run: RunId, ready: set<RunId>)
    requires WellFormed(s) && run < |s.db.runs| && Alive(s.db, s.db.runs[run].auto)
    requires var v := ViewOf(s, s.db.runs[run].auto); Idle(v) && Serial(v) && run in v.queued
    ensures var auto := s.db.runs[run].auto; Work(ViewOf(Executed(s, run, ready), auto)) < Work(ViewOf(s, auto))
  {
    var auto := s.db.runs[run].auto;
    ExecutedView(s, run, ready, auto);
    TakenUpWorks(ViewOf(s, auto), run, Ready(s.db, auto, run, ready));
  }

  lemma NextStart(s: Sys, run: RunId, ready: set<RunId>)
    requires run < |s.db.runs| && run in s.scheduled
    ensures Next(s, Start(run, ready)) == Executed(s.(scheduled := s.scheduled - multiset{run}), run, ready)
  {
  }

  lemma NextSettle(s: Sys, run: RunId, ok: bool, stop: bool)
    requires run < |s.db.runs| && run in s.executing && Alive(s.db, s.db.runs[run].auto)
    ensures Next(s, Settle(run, ok, stop)) == Settled(s, run, ok, stop)
  {
  }

  lemma NextDrain(s: Sys, run: RunId, ready: set<RunId>)
    requires run < |s.db.runs| && run in s.closing
    ensures Next(s, Drain(run, ready)) == Drained(s, run, ready)
  {
  }

  lemma BegunWork(s: Sys, run: RunId, auto: AutomationId)
    requires Inv(s, auto) && Of(s.db.runs, auto, run) && run in s.scheduled
    ensures var s1 := s.(scheduled := s.scheduled - multiset{run});
            var v1 := ViewOf(s1, auto);
            WellFormed(s1) && Idle(v1) && Serial(v1) && run in v1.queued && Work(v1) == Work(ViewOf(s, auto))
  {
    UnscheduledView(s, run, auto);
    assert run in ViewOf(s, auto).scheduled;
    BegunView(ViewOf(s, auto), run);
  }

  /** Every start lowers the work left, */
  lemma StartWorks(s: Sys, run: RunId, ready: set<RunId>, auto: AutomationId)
    requires Inv(s, auto) && Of(s.db.runs, auto, run) && run in s.scheduled && Alive(s.db, auto)
    ensures Work(ViewOf(Next(s, Start(run, ready)), auto)) < Work(ViewOf(s, auto))
  {
    BegunWork(s, run, auto);
    ExecutedWorks(s.(scheduled := s.scheduled - multiset{run}), run, ready);
    NextStart(s, run, ready);
  }

  /** every end of a turn, */
  lemma SettleWorks(s: Sys, run: RunId, ok: bool, stop: bool, auto: AutomationId)
    requires Inv(s, auto) && Of(s.db.runs, auto, run) && run in s.executing && Alive(s.db, auto)
    ensures Work(ViewOf(Next(s, Settle(run, ok, stop)), auto)) < Work(ViewOf(s, auto))
  {
    SettledWork(s, run, ok, stop, auto);
    NextSettle(s, run, ok, stop);
  }

  lemma SettledWork(s: Sys, run: RunId, ok: bool, stop: bool, auto: AutomationId)
    requires Inv(s, auto) && Of(s.db.runs, auto, run) && run in s.executing
    ensures Work(ViewOf(Settled(s, run, ok, stop), auto)) < Work(ViewOf(s, auto))
  {
    var v, status := ViewOf(s, auto), if ok then Completed else Failed;
    SettledViews(s, run, ok, stop, auto);
    MovedView(s, run, status, auto);
    assert run in v.executing;
    SettledLess(v, run, status);
  }

  lemma SettledLess(v: View, run: RunId, status: RunStatus)
    requires Serial(v) && run in v.executing && Terminal(status)
    ensures run in v.running
    ensures var v1 := MovedIn(v, run, status);
            Work(v1.(executing := Drop(v1.executing, run), closing := Bump(v1.closing, run))) < Work(v)
  {
    SettledView(v, run, status);
    var v1 := MovedIn(v, run, status);
    var v' := v1.(executing := Drop(v1.executing, run), closing := Bump(v1.closing, run));
    assert v'.running == {} && v.running == {run};
    assert v'.queued == v.queued;
  }

  /** and every drain. */
  lemma DrainWorks(s: Sys, run: RunId, ready: set<RunId>, auto: AutomationId)
    requires Inv(s, auto) && Of(s.db.runs, auto, run) && run in s.closing && Alive(s.db, auto)
    ensures Work(ViewOf(Next(s, Drain(run, ready)), auto)) < Work(ViewOf(s, auto))
  {
    DrainedWork(s, run, ready, auto);
    NextDrain(s, run, ready);
  }

  lemma DrainedWork(s: Sys, run: RunId, ready: set<RunId>, auto: AutomationId)
    requires Inv(s, auto) && Of(s.db.runs, auto, run) && run in s.closing && Alive(s.db, auto)
    ensures Work(ViewOf(Drained(s, run, ready), auto)) < Work(ViewOf(s, auto))
  {
    ClosedOwn(s, run, auto);
    ClosedLess(s, run, auto);
    if Others(s.db, run) != {} {
      var next := Oldest(s.db, Others(s.db, run));
      assert next in QueuedRuns(s.db, auto);
      ExecutedWorks(Closed(s, run), next, ready);
    }
  }

  lemma ClosedLess(s: Sys, run: RunId, auto: AutomationId)
    requires Inv(s, auto) && Of(s.db.runs, auto, run) && run in s.closing
    ensures Work(ViewOf(Closed(s, run), auto)) < Work(ViewOf(s, auto))
  {
    ClosedOwn(s, run, auto);
    ClosedView(s, run, auto);
    assert run in ViewOf(s, auto).closing;
  }
}
