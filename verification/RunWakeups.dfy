/** No lost wake-up, in every mode: whatever the policies are and however many coroutines there are, a run
    that is here to stay has somebody who will come for it. */
module RunWakeups {
  import opened AutomationFacts
  import opened RunSets
  import opened RunSlices
  import opened RunViews
  import opened RunSafety
  import opened RunMoves
  import opened RunTheorems
  import opened RunBounds

  /** A coroutine of this Automation, or a caller about to submit one. */
  predicate Attends(s: Sys, auto: AutomationId, r: RunId) {
    Manning(s, auto, r) || (Of(s.db.runs, auto, r) && r in s.held && s.held[r] == Submit)
  }

  ghost predicate Attended(s: Sys, auto: AutomationId) {
    exists r :: Attends(s, auto, r)
  }

  /** Unsettled runs, with the rejected ones if every caller decides on the count of the moment. */
  function Waiting(s: Sys, auto: AutomationId, prompt: bool): set<RunId> {
    if prompt then ActiveRuns(s.db, auto) else Standing(s, auto)
  }

  /** The definition is gone, or no run waits, or somebody will come. */
  ghost predicate SomebodyComes(s: Sys, auto: AutomationId, prompt: bool) {
    Alive(s.db, auto) && Waiting(s, auto, prompt) != {} ==> Attended(s, auto)
  }

  /** Running runs execute, and coroutines that are about to drain have settled their run. */
  ghost predicate Covered(s: Sys, auto: AutomationId) {
    && (forall r :: r in RunningRuns(s.db, auto) ==> r in s.executing)
    && (forall r: RunId :: Of(s.db.runs, auto, r) && r in s.closing ==> Terminal(s.db.runs[r].status))
  }

  ghost predicate Tended(s: Sys, auto: AutomationId, prompt: bool) {
    WellFormed(s) && Covered(s, auto) && SomebodyComes(s, auto, prompt)
  }

  /** The caller counted now, and its policy lets at least one run in. */
  predicate CountsNow(s: Sys, auto: AutomationId, policy: Policy, counted: nat) {
    && counted == |ActiveRuns(s.db, auto)|
    && (policy.mode == ParallelWithLimit ==> ParallelLimit(policy) >= 1)
  }

  /** A set-up that raises, and a restart that leaves somebody waiting or a run marked running. */
  ghost predicate Abandons(s: Sys, m: Move, auto: AutomationId) {
    match m
    case SetupFails(run) => Enabled(s, m) && s.db.runs[run].auto == auto
    case Restart(listed) => Enabled(s, m) && !(Resumable(s.db, auto, listed) && Overlooked(s.db, auto) == {})
    case _ => false
  }

  /** What can lose the wake-up besides: with counts of the moment no row at all; with old ones a row of a
      living definition that is left to wait where there is nobody. */
  ghost predicate Disturbs(s: Sys, m: Move, auto: AutomationId, prompt: bool) {
    || Abandons(s, m, auto)
    || (&& m.Insert? && m.auto == auto
        && if prompt then !CountsNow(s, auto, m.snapshot.policy, m.counted)
           else Alive(s.db, auto) && Admit(m.snapshot.policy, m.counted) == Enqueue && !Attended(s, auto))
  }

  // ---- one lemma per move -------------------------------------------------------------------------

  /** The runs of this Automation are the same, and settled ones stay settled. */
  predicate SameRuns(s: Sys, s': Sys, auto: AutomationId) {
    && |s.db.runs| == |s'.db.runs|
    && (forall r: RunId :: r < |s.db.runs| ==> s'.db.runs[r].auto == s.db.runs[r].auto)
    && (forall r: RunId :: r < |s.db.runs| && Terminal(s.db.runs[r].status) ==> Terminal(s'.db.runs[r].status))
  }

  /** Everybody who attended still does. */
  lemma StillTended(s: Sys, s': Sys, auto: AutomationId, prompt: bool)
    requires Tended(s, auto, prompt) && WellFormed(s') && SameRuns(s, s', auto)
    requires RunningRuns(s'.db, auto) <= RunningRuns(s.db, auto) &&
             Waiting(s', auto, prompt) <= Waiting(s, auto, prompt)
    requires Alive(s'.db, auto) ==> Alive(s.db, auto) || Waiting(s, auto, prompt) == {}
    requires forall r :: Attends(s, auto, r) ==> Attends(s', auto, r)
    requires forall r: RunId :: Of(s.db.runs, auto, r) && r in s'.closing ==>
             r in s.closing || Terminal(s'.db.runs[r].status)
    requires forall r :: r in RunningRuns(s'.db, auto) && r in s.executing ==> r in s'.executing
    ensures Tended(s', auto, prompt)
  {
    if r :| Attends(s, auto, r) { assert Attends(s', auto, r); }
  }

  /** Somebody new attends. */
  lemma NewlyTended(s: Sys, s': Sys, auto: AutomationId, r: RunId, prompt: bool)
    requires Tended(s, auto, prompt) && WellFormed(s') && SameRuns(s, s', auto) &&
             (Alive(s'.db, auto) ==> Attends(s', auto, r))
    requires forall q :: q in RunningRuns(s'.db, auto) ==>
               q in s'.executing || (q in RunningRuns(s.db, auto) && q !in s.executing)
    requires forall q: RunId :: Of(s.db.runs, auto, q) && q in s'.closing ==>
             q in s.closing || Terminal(s'.db.runs[q].status)
    ensures Tended(s', auto, prompt)
  {
  }

  lemma SkippedSame(s: Sys, s': Sys, run: RunId, auto: AutomationId)
    requires run < |s.db.runs| && s'.db == WithRunStatus(s.db, run, Skipped)
    ensures SameRuns(s, s', auto) && RunningRuns(s'.db, auto) <= RunningRuns(s.db, auto)
    ensures Alive(s'.db, auto) <==> Alive(s.db, auto)
  {
  }

  /** Under a count of the moment, whoever is not submitted has been counted behind somebody. */
  lemma CountedBehind(policy: Policy, active: nat)
    requires policy.mode == ParallelWithLimit ==> ParallelLimit(policy) >= 1
    ensures Admit(policy, active) != Submit ==> active > 0
  {
  }

  lemma InsertTends(s: Sys, m: Move, auto: AutomationId, prompt: bool)
    requires m.Insert? && Tended(s, auto, prompt) && !Disturbs(s, m, auto, prompt)
    ensures Tended(Next(s, m), auto, prompt)
  {
    var Insert(a, snapshot, occurrence, now, counted) := m;
    var s', n, verdict := Next(s, m), |s.db.runs|, Admit(snapshot.policy, counted);
    NextWellFormed(s, m);
    if Admissible(s.db, a, snapshot, occurrence) {
      InsertedAttends(s, m, auto);
      InsertMoves(s.db, a, occurrence, snapshot.revision, now, auto);
      InsertedMarking(s, a, snapshot, occurrence, now, verdict);
      if a != auto || (!prompt && verdict == Reject) {
        assert Waiting(s', auto, prompt) <= Waiting(s, auto, prompt);
      } else if prompt {
        CountedBehind(snapshot.policy, counted);
      }
    }
  }

  /** Whoever attends still does, and a caller about to submit attends. */
  lemma InsertedAttends(s: Sys, m: Move, auto: AutomationId)
    requires m.Insert? && WellFormed(s) && Admissible(s.db, m.auto, m.snapshot, m.occurrence)
    ensures Attended(s, auto) || (m.auto == auto && Admit(m.snapshot.policy, m.counted) == Submit) ==>
              Attended(Next(s, m), auto)
  {
    if r :| Attends(s, auto, r) {
      assert Attends(Next(s, m), auto, r);
    } else if m.auto == auto && Admit(m.snapshot.policy, m.counted) == Submit {
      assert Attends(Next(s, m), auto, |s.db.runs|);
    }
  }

  lemma ConcludeTends(s: Sys, m: Move, auto: AutomationId, prompt: bool)
    requires m.Conclude? && Enabled(s, m) && Tended(s, auto, prompt)
    ensures Tended(Next(s, m), auto, prompt)
  {
    var s' := Next(s, m);
    NextWellFormed(s, m);
    ConcludedShrinks(s, m.run, auto);
    if s.held[m.run] == Reject { SkippedSame(s, s', m.run, auto); }
    StillTended(s, s', auto, prompt);
  }

  lemma MissedTends(s: Sys, m: Move, auto: AutomationId, prompt: bool)
    requires m.MissedSkip? && Tended(s, auto, prompt)
    ensures Tended(Next(s, m), auto, prompt)
  {
    var MissedSkip(a, snapshot, occurrence, now) := m;
    NextWellFormed(s, m);
    if snapshot.status == Active && HasOccurrence(s.db, a, occurrence) {
      MissedShrinks(s, a, snapshot, occurrence, now, auto);
      SkippedSame(s, Next(s, m), RunOf(s.db, a, occurrence), auto);
      StillTended(s, Next(s, m), auto, prompt);
    } else if snapshot.status == Active && a in s.db.defs {
      FreshTends(s, a, snapshot, occurrence, now, auto, prompt);
    }
  }

  lemma FreshTends(s: Sys, a: AutomationId, snapshot: Definition, occurrence: string, now: int, auto: AutomationId,
                   prompt: bool)
    requires Tended(s, auto, prompt) && Admissible(s.db, a, snapshot, occurrence)
    requires WellFormed(MissedSkipped(s, a, snapshot, occurrence, now))
    ensures Tended(MissedSkipped(s, a, snapshot, occurrence, now), auto, prompt)
  {
    var s' := MissedSkipped(s, a, snapshot, occurrence, now);
    MissedShrinks(s, a, snapshot, occurrence, now, auto);
    InsertMoves(s.db, a, occurrence, snapshot.revision, now, auto);
    StatusMoves(WithRun(s.db, a, occurrence, snapshot.revision, now), |s.db.runs|, Skipped, auto);
    assert RunningRuns(s'.db, auto) == RunningRuns(s.db, auto) - {|s.db.runs|};
    if r :| Attends(s, auto, r) { assert Attends(s', auto, r); }
  }

  /** A run is taken up. */
  lemma ExecutedTends(s: Sys, s0: Sys, run: RunId, ready: set<RunId>, auto: AutomationId, prompt: bool)
    requires Tended(s, auto, prompt) && run < |s.db.runs| && WellFormed(s0) && s0.db == s.db && s0.held == s.held
    requires s0.executing == s.executing && s0.closing <= s.closing
    requires s.db.runs[run].auto != auto ==> forall r :: Attends(s, auto, r) ==> Attends(s0, auto, r)
    ensures Tended(Executed(s0, run, ready), auto, prompt)
  {
    if s.db.runs[run].auto == auto {
      ExecutedOwn(s, s0, run, ready, auto, prompt);
    } else {
      ExecutedView(s0, run, ready, auto);
      ExecutedShrinks(s0, run, ready, auto);
      ExecutedRuns(s0, run, ready, auto);
      StillTended(s, Executed(s0, run, ready), auto, prompt);
    }
  }

  lemma ExecutedOwn(s: Sys, s0: Sys, run: RunId, ready: set<RunId>, auto: AutomationId, prompt: bool)
    requires Tended(s, auto, prompt) && Of(s.db.runs, auto, run) && WellFormed(s0) && s0.db == s.db && s0.held == s.held
    requires s0.executing == s.executing && s0.closing <= s.closing
    ensures Tended(Executed(s0, run, ready), auto, prompt)
  {
    ExecutedView(s0, run, ready, auto);
    ExecutedRuns(s0, run, ready, auto);
    NewlyTended(s, Executed(s0, run, ready), auto, run, prompt);
  }

  lemma ExecutedRuns(s: Sys, run: RunId, ready: set<RunId>, auto: AutomationId)
    requires run < |s.db.runs|
    ensures var s' := Executed(s, run, ready);
            && SameRuns(s, s', auto) && RunningRuns(s'.db, auto) <= RunningRuns(s.db, auto) + {run}
            && (run in RunningRuns(s'.db, auto) ==> run in RunningRuns(s.db, auto) || run in s'.executing)
            && (s.db.runs[run].auto != auto ==> RunningRuns(s'.db, auto) == RunningRuns(s.db, auto))
  {
  }

  lemma StartTends(s: Sys, m: Move, auto: AutomationId, prompt: bool)
    requires m.Start? && Enabled(s, m) && Tended(s, auto, prompt)
    ensures Tended(Next(s, m), auto, prompt)
  {
    var s0 := s.(scheduled := s.scheduled - multiset{m.run});
    UnscheduledView(s, m.run, auto);
    ExecutedTends(s, s0, m.run, m.ready, auto, prompt);
    NextStart(s, m.run, m.ready);
  }

  lemma DrainTends(s: Sys, m: Move, auto: AutomationId, prompt: bool)
    requires m.Drain? && Enabled(s, m) && Tended(s, auto, prompt)
    ensures Tended(Next(s, m), auto, prompt)
  {
    var own := s.db.runs[m.run].auto;
    ClosedView(s, m.run, auto);
    NextDrain(s, m.run, m.ready);
    if RunningRuns(s.db, own) == {} && Others(s.db, m.run) != {} {
      DrainStarts(s, m.run, m.ready, auto, prompt);
    } else if own == auto {
      DrainedAway(s, m.run, auto, prompt);
    } else {
      StillTended(s, Closed(s, m.run), auto, prompt);
    }
  }

  lemma DrainStarts(s: Sys, run: RunId, ready: set<RunId>, auto: AutomationId, prompt: bool)
    requires run < |s.db.runs| && WellFormed(Closed(s, run)) && Tended(s, auto, prompt)
    requires RunningRuns(s.db, s.db.runs[run].auto) == {} && Others(s.db, run) != {}
    ensures Tended(Drained(s, run, ready), auto, prompt)
  {
    var next := Oldest(s.db, Others(s.db, run));
    assert next in QueuedRuns(s.db, s.db.runs[run].auto);
    ExecutedTends(s, Closed(s, run), next, ready, auto, prompt);
  }

  /** A coroutine that leaves without starting another either sees one executing or nothing to do. */
  lemma DrainedAway(s: Sys, run: RunId, auto: AutomationId, prompt: bool)
    requires Tended(s, auto, prompt) && Of(s.db.runs, auto, run) && run in s.closing && WellFormed(Closed(s, run))
    requires RunningRuns(s.db, auto) != {} || Others(s.db, run) == {}
    ensures Tended(Closed(s, run), auto, prompt)
  {
    if r :| r in RunningRuns(s.db, auto) {
      assert Attends(Closed(s, run), auto, r);
    } else {
      assert run !in QueuedRuns(s.db, auto);
      assert QueuedRuns(s.db, auto) == {} && ActiveRuns(s.db, auto) == {};
    }
  }

  lemma SettledSame(s: Sys, s': Sys, run: RunId, status: RunStatus, stop: bool, auto: AutomationId)
    requires run < |s.db.runs| && Terminal(status)
    requires s'.db == Stopped(WithRunStatus(s.db, run, status), s.db.runs[run].auto, stop)
    ensures SameRuns(s, s', auto) && RunningRuns(s'.db, auto) <= RunningRuns(s.db, auto) - {run}
    ensures Terminal(s'.db.runs[run].status) && (Alive(s'.db, auto) <==> Alive(s.db, auto))
  {
  }

  lemma SettleTends(s: Sys, m: Move, auto: AutomationId, prompt: bool)
    requires m.Settle? && Enabled(s, m) && Tended(s, auto, prompt)
    ensures Tended(Next(s, m), auto, prompt)
  {
    var Settle(run, ok, stop) := m;
    var s', status := Next(s, m), if ok then Completed else Failed;
    NextWellFormed(s, m);
    SettledSame(s, s', run, status, ok && stop, auto);
    StoppedShrinks(s.db, run, status, s.db.runs[run].auto, ok && stop, auto);
    StillTended(s, s', auto, prompt);
  }

  lemma RaisesTends(s: Sys, m: Move, auto: AutomationId, prompt: bool)
    requires m.RaisesLate? && Enabled(s, m) && Tended(s, auto, prompt)
    ensures Tended(Next(s, m), auto, prompt)
  {
    var RaisesLate(run, paused) := m;
    NextWellFormed(s, m);
    SettledSame(s, Next(s, m), run, Completed, paused, auto);
    StoppedShrinks(s.db, run, Completed, s.db.runs[run].auto, paused, auto);
    StillTended(s, Next(s, m), auto, prompt);
  }

  lemma ElsewhereTends(s: Sys, m: Move, auto: AutomationId, prompt: bool)
    requires m.SetupFails? && Enabled(s, m) && Tended(s, auto, prompt) && s.db.runs[m.run].auto != auto
    ensures Tended(Next(s, m), auto, prompt)
  {
    NextWellFormed(s, m);
    StillTended(s, Next(s, m), auto, prompt);
  }

  lemma AdminTends(s: Sys, m: Move, auto: AutomationId, prompt: bool)
    requires m.Admin? && Enabled(s, m) && Tended(s, auto, prompt)
    ensures Tended(Next(s, m), auto, prompt)
  {
    NextWellFormed(s, m);
    AdminRows(s.db, m.op);
    assert Next(s, m).db.runs == s.db.runs;
    AdminAlive(s.db, m.op, auto);
    if auto !in s.db.defs { assert ActiveRuns(s.db, auto) == {}; }
    StillTended(s, Next(s, m), auto, prompt);
  }

  lemma AdminAlive(db: Db, op: StoreOp, auto: AutomationId)
    requires !op.CreateRun? && !op.UpdateRun?
    ensures Alive(Apply(db, op), auto) ==> Alive(db, auto) || auto !in db.defs
  {
  }

  lemma RestartTends(s: Sys, m: Move, auto: AutomationId, prompt: bool)
    requires m.Restart? && Enabled(s, m) && Tended(s, auto, prompt) && !Disturbs(s, m, auto, prompt)
    ensures Tended(Next(s, m), auto, prompt)
  {
    var s' := Restarted(s, m.listed);
    RestartedWell(s, m.listed, auto);
    RestartBound(s, m.listed, auto);
    if Alive(s.db, auto) && QueuedRuns(s.db, auto) != {} {
      ResumedAttends(s, m.listed, auto);
    }
  }

  lemma ResumedAttends(s: Sys, listed: set<AutomationId>, auto: AutomationId)
    requires Resumed(s.db, auto, listed) && |Restarted(s, listed).db.runs| == |s.db.runs|
    requires forall r: RunId :: r < |s.db.runs| ==> Restarted(s, listed).db.runs[r].auto == s.db.runs[r].auto
    ensures Attended(Restarted(s, listed), auto)
  {
    var r := QueueRead(s.db, auto)[0];
    assert r in QueueRead(s.db, auto) && r in QueuedRuns(s.db, auto);
    var prefix := FirstOf(QueueRead(s.db, auto), ResumeLimit(s.db.defs[auto].policy));
    assert prefix[0] == r && r in prefix;
    assert Resumes(s.db, r, listed);
    assert Attends(Restarted(s, listed), auto, r);
  }

  lemma StepTends(s: Sys, m: Move, auto: AutomationId, prompt: bool)
    requires Tended(s, auto, prompt) && !Disturbs(s, m, auto, prompt)
    ensures Tended(Next(s, m), auto, prompt)
  {
    if Enabled(s, m) {
      match m
      case Insert(_, _, _, _, _) => InsertTends(s, m, auto, prompt);
      case Conclude(_) => ConcludeTends(s, m, auto, prompt);
      case MissedSkip(_, _, _, _) => MissedTends(s, m, auto, prompt);
      case Start(_, _) => StartTends(s, m, auto, prompt);
      case Settle(_, _, _) => SettleTends(s, m, auto, prompt);
      case Drain(_, _) => DrainTends(s, m, auto, prompt);
      case RaisesLate(_, _) => RaisesTends(s, m, auto, prompt);
      case SetupFails(_) => ElsewhereTends(s, m, auto, prompt);
      case Admin(_) => AdminTends(s, m, auto, prompt);
      case Restart(_) => RestartTends(s, m, auto, prompt);
    }
  }

  /** The counts are of the moment, in every mode that lets a run in, or no row is left to wait where there is
      nobody; no set-up of this Automation raises, and every restart resumes it. */
  ghost predicate Untroubled(moves: seq<Move>, auto: AutomationId, prompt: bool) {
    forall j :: 0 <= j < |moves| ==> !Disturbs(After(IDLE_NODE, moves, j), moves[j], auto, prompt)
  }

  lemma {:induction false} AlwaysTended(moves: seq<Move>, i: nat, auto: AutomationId, prompt: bool)
    requires Untroubled(moves, auto, prompt) && i <= |moves|
    ensures Tended(After(IDLE_NODE, moves, i), auto, prompt)
  {
    if i == 0 {
      NobodyWaits(auto, prompt);
      AfterAll(IDLE_NODE, moves);
    } else {
      AlwaysTended(moves, i - 1, auto, prompt);
      AfterNext(IDLE_NODE, moves, i - 1);
      StepTends(After(IDLE_NODE, moves, i - 1), moves[i - 1], auto, prompt);
    }
  }

  lemma NobodyWaits(auto: AutomationId, prompt: bool)
    ensures Tended(IDLE_NODE, auto, prompt)
  {
    AlwaysWellFormed([], 0);
    AfterAll(IDLE_NODE, []);
    assert Waiting(IDLE_NODE, auto, prompt) == {};
  }

  /** No set-up of this Automation raises, and every restart resumes it. */
  ghost predicate NeverAbandoned(moves: seq<Move>, auto: AutomationId) {
    forall j :: 0 <= j < |moves| ==> !Abandons(After(IDLE_NODE, moves, j), moves[j], auto)
  }

  /** Every row of this Automation is inserted under the count of the moment, by a policy that lets a run in. */
  ghost predicate AlwaysCounted(moves: seq<Move>, auto: AutomationId) {
    forall j :: 0 <= j < |moves| && moves[j].Insert? && moves[j].auto == auto ==>
      CountsNow(After(IDLE_NODE, moves, j), auto, moves[j].snapshot.policy, moves[j].counted)
  }

  lemma CountedIsUntroubled(moves: seq<Move>, auto: AutomationId)
    requires NeverAbandoned(moves, auto) && AlwaysCounted(moves, auto)
    ensures Untroubled(moves, auto, true)
  {
  }

  /** No lost wake-up. In every mode, under policies that change, and over every trace, with callers of other
      threads at any point between, with missed-run skips and late exceptions: as long as requests decide on the
      count of the moment, no set-up of this Automation raises and every restart resumes it, any queued or
      running run of a definition that is not deleted has a coroutine of its Automation, or a caller about to
      submit one. */
  lemma NoLostWakeup(moves: seq<Move>, auto: AutomationId)
    requires NeverAbandoned(moves, auto) && AlwaysCounted(moves, auto)
    ensures var s := Trace(IDLE_NODE, moves);
            Alive(s.db, auto) && ActiveRuns(s.db, auto) != {} ==> Attended(s, auto)
  {
    CountedIsUntroubled(moves, auto);
    TendedAtEnd(moves, auto, true);
  }

  lemma TendedAtEnd(moves: seq<Move>, auto: AutomationId, prompt: bool)
    requires Untroubled(moves, auto, prompt)
    ensures Tended(Trace(IDLE_NODE, moves), auto, prompt)
  {
    AfterAll(IDLE_NODE, moves);
    AlwaysTended(moves, |moves|, auto, prompt);
  }

  /** With counts however old: the same for the runs that are not rejected, as long as no row is left to wait where
      there is nobody. */
  lemma WakeupUnderOldCounts(moves: seq<Move>, auto: AutomationId)
    requires Untroubled(moves, auto, false)
    ensures var s := Trace(IDLE_NODE, moves);
            Alive(s.db, auto) && Standing(s, auto) != {} ==> Attended(s, auto)
  {
    TendedAtEnd(moves, auto, false);
  }

  /** So a row inserted under a count of the moment is never left to wait where there is nobody: after such moves
      it does not lose the wake-up in any mode, nor that of the serial invariant. */
  lemma PromptNeverStrands(moves: seq<Move>, m: Move, auto: AutomationId)
    requires NeverAbandoned(moves, auto) && AlwaysCounted(moves, auto) && m.Insert? && m.auto == auto
    requires CountsNow(Trace(IDLE_NODE, moves), auto, m.snapshot.policy, m.counted)
    ensures var s := Trace(IDLE_NODE, moves);
            && !Disturbs(s, m, auto, false)
            && (Serial(ViewOf(s, auto)) ==> !Lulls(s, m, auto))
  {
    CountedIsUntroubled(moves, auto);
    TendedAtEnd(moves, auto, true);
    var s := Trace(IDLE_NODE, moves);
    CountedBehind(m.snapshot.policy, m.counted);
    if Attended(s, auto) && Serial(ViewOf(s, auto)) { AttendedIsManned(s, auto); }
  }

  lemma AttendedIsManned(s: Sys, auto: AutomationId)
    requires Attended(s, auto) && Serial(ViewOf(s, auto))
    ensures Manned(ViewOf(s, auto))
  {
    var v := ViewOf(s, auto);
    var r :| Attends(s, auto, r);
    assert r in v.scheduled || r in v.executing || r in v.closing || r in Promises(v);
  }

  /** Under serial policies: if no move breaks the invariant, requests decide on the count of the moment, no set-up
      raises and every restart resumes, then the Automation is awake throughout. */
  lemma PromptIsAwake(moves: seq<Move>, i: nat, auto: AutomationId)
    requires SerialTrace(moves, auto) && Unbroken(moves, auto) && i <= |moves|
    requires NeverAbandoned(moves, auto) && AlwaysCounted(moves, auto)
    ensures Awake(After(IDLE_NODE, moves, i), auto)
  {
    var s := After(IDLE_NODE, moves, i);
    CountedIsUntroubled(moves, auto);
    AlwaysTended(moves, i, auto, true);
    TraceKeeps(moves, i, auto);
    RowsStandHere(s, auto);
    if Attended(s, auto) { AttendedIsManned(s, auto); }
  }

  lemma RowsStandHere(s: Sys, auto: AutomationId)
    ensures Rows(ViewOf(s, auto)) <= ActiveRuns(s.db, auto)
  {
  }
}
