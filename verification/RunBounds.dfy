/** How many runs an Automation has at once, in every mode. */
module RunBounds {
  import opened AutomationFacts
  import opened RunSets
  import opened RunSlices
  import opened RunViews
  import opened RunMoves
  import opened RunTheorems
  import opened RunSafety

  /** Rows that were rejected and are not marked yet. Until then the queries count them. */
  function Marking(s: Sys): set<RunId> {
    set r | r in s.held && s.held[r] == Reject
  }

  /** Unsettled runs that are here to stay. */
  function Standing(s: Sys, auto: AutomationId): set<RunId> {
    ActiveRuns(s.db, auto) - Marking(s)
  }

  function Bound(policy: Policy): nat {
    match policy.mode
    case Skip => 1
    case QueueOne => 2
    case ParallelWithLimit => if ParallelLimit(policy) < 0 then 0 else ParallelLimit(policy)
  }

  /** A verdict under the count of the moment leaves room for itself. */
  lemma AdmittedBound(policy: Policy, active: nat)
    ensures Admit(policy, active) != Reject ==> active + 1 <= Bound(policy)
  {
  }

  /** A row there is no room for, and a crash that leaves too many rejected rows unmarked. */
  ghost predicate Overbooks(s: Sys, m: Move, auto: AutomationId, bound: nat) {
    match m
    case Insert(a, snapshot, occurrence, _, counted) =>
      && a == auto && Admissible(s.db, auto, snapshot, occurrence)
      && Admit(snapshot.policy, counted) != Reject && |Standing(s, auto)| >= bound
    case Restart(listed) => Enabled(s, m) && |ActiveRuns(Restarted(s, listed).db, auto)| > bound
    case _ => false
  }

  ghost predicate Bounded(s: Sys, auto: AutomationId, bound: nat) {
    |Standing(s, auto)| <= bound
  }

  lemma StatusShrinks(db: Db, run: RunId, status: RunStatus, auto: AutomationId)
    requires run < |db.runs|
    ensures ActiveRuns(WithRunStatus(db, run, status), auto) <= ActiveRuns(db, auto)
  {
  }

  lemma ExecutedShrinks(s: Sys, run: RunId, ready: set<RunId>, auto: AutomationId)
    requires run < |s.db.runs|
    ensures ActiveRuns(Executed(s, run, ready).db, auto) <= ActiveRuns(s.db, auto)
    ensures Executed(s, run, ready).held == s.held
  {
    StatusShrinks(s.db, run, Running, auto);
    StatusShrinks(s.db, run, RunBlocked, auto);
  }

  lemma StoppedShrinks(db: Db, run: RunId, status: RunStatus, own: AutomationId, stop: bool, auto: AutomationId)
    requires run < |db.runs|
    ensures ActiveRuns(Stopped(WithRunStatus(db, run, status), own, stop), auto) <= ActiveRuns(db, auto)
  {
    StatusShrinks(db, run, status, auto);
    assert ActiveRuns(Stopped(WithRunStatus(db, run, status), own, stop), auto) ==
      ActiveRuns(WithRunStatus(db, run, status), auto);
  }

  lemma DrainedShrinks(s: Sys, run: RunId, ready: set<RunId>, auto: AutomationId)
    requires run < |s.db.runs|
    ensures ActiveRuns(Drained(s, run, ready).db, auto) <= ActiveRuns(s.db, auto) &&
            Drained(s, run, ready).held == s.held
  {
    if RunningRuns(s.db, s.db.runs[run].auto) == {} && Others(s.db, run) != {} {
      var next := Oldest(s.db, Others(s.db, run));
      assert next in Others(s.db, run);
      ExecutedShrinks(Closed(s, run), next, ready, auto);
    }
  }

  /** A mark takes a row that did not count. */
  lemma ConcludedShrinks(s: Sys, run: RunId, auto: AutomationId)
    requires run < |s.db.runs| && run in s.held && s.held[run] != Enqueue
    ensures Standing(Concluded(s, run), auto) <= Standing(s, auto)
  {
    if s.held[run] == Reject {
      StatusShrinks(s.db, run, Skipped, auto);
      assert run !in ActiveRuns(Concluded(s, run).db, auto);
      assert Marking(Concluded(s, run)) == Marking(s) - {run};
    } else {
      assert Marking(Concluded(s, run)) == Marking(s);
    }
  }

  lemma MissedShrinks(s: Sys, a: AutomationId, snapshot: Definition, occurrence: string, now: int, auto: AutomationId)
    ensures var s' := MissedSkipped(s, a, snapshot, occurrence, now);
            ActiveRuns(s'.db, auto) <= ActiveRuns(s.db, auto) && s'.held == s.held
  {
    if snapshot.status == Active {
      if HasOccurrence(s.db, a, occurrence) {
        StatusShrinks(s.db, RunOf(s.db, a, occurrence), Skipped, auto);
      } else if a in s.db.defs {
        var db := WithRun(s.db, a, occurrence, snapshot.revision, now);
        InsertMoves(s.db, a, occurrence, snapshot.revision, now, auto);
        StatusMoves(db, |s.db.runs|, Skipped, auto);
      }
    }
  }

  /** Only insertions and restarts add runs that are here to stay. */
  lemma OthersShrink(s: Sys, m: Move, auto: AutomationId)
    requires !m.Insert? && !m.Restart? && forall r :: r in s.held ==> s.held[r] != Enqueue
    ensures Standing(Next(s, m), auto) <= Standing(s, auto)
  {
    if Enabled(s, m) {
      match m
      case Conclude(run) => ConcludedShrinks(s, run, auto);
      case MissedSkip(a, snapshot, occurrence, now) => MissedShrinks(s, a, snapshot, occurrence, now, auto);
      case Start(run, ready) => ExecutedShrinks(s.(scheduled := s.scheduled - multiset{run}), run, ready, auto);
      case Settle(run, ok, stop) =>
        StoppedShrinks(s.db, run, if ok then Completed else Failed, s.db.runs[run].auto, ok && stop, auto);
      case Drain(run, ready) => DrainedShrinks(s, run, ready, auto);
      case RaisesLate(run, paused) => StoppedShrinks(s.db, run, Completed, s.db.runs[run].auto, paused, auto);
      case SetupFails(_) =>
      case Admin(op) => assert Next(s, m).db.runs == s.db.runs;
    }
  }

  lemma InsertedStanding(s: Sys, a: AutomationId, snapshot: Definition, occurrence: string, now: int, verdict: Verdict,
                         auto: AutomationId)
    requires Admissible(s.db, a, snapshot, occurrence) && forall r :: r in s.held ==> r < |s.db.runs|
    ensures |Standing(Inserted(s, a, snapshot, occurrence, now, verdict), auto)| ==
            |Standing(s, auto)| + if a == auto && verdict != Reject then 1 else 0
  {
    var s', n := Inserted(s, a, snapshot, occurrence, now, verdict), |s.db.runs|;
    InsertMoves(s.db, a, occurrence, snapshot.revision, now, auto);
    assert ActiveRuns(s'.db, auto) == ActiveRuns(s.db, auto) + if a == auto then {n} else {};
    InsertedMarking(s, a, snapshot, occurrence, now, verdict);
    assert n !in Standing(s, auto);
    OneMore(ActiveRuns(s.db, auto), Marking(s), n, a == auto, verdict == Reject);
  }

  lemma InsertedMarking(s: Sys, a: AutomationId, snapshot: Definition, occurrence: string, now: int, verdict: Verdict)
    requires Admissible(s.db, a, snapshot, occurrence) && forall r :: r in s.held ==> r < |s.db.runs|
    ensures Marking(Inserted(s, a, snapshot, occurrence, now, verdict)) ==
            Marking(s) + if verdict == Reject then {|s.db.runs|} else {}
    ensures |s.db.runs| !in Marking(s)
  {
  }

  lemma OneMore(active: set<RunId>, marking: set<RunId>, n: RunId, own: bool, rejected: bool)
    requires n !in active && n !in marking
    ensures var active' := active + if own then {n} else {};
            var marking' := marking + if rejected then {n} else {};
            |active' - marking'| == |active - marking| + if own && !rejected then 1 else 0
  {
    var active' := active + if own then {n} else {};
    var marking' := marking + if rejected then {n} else {};
    assert active' - marking' == active - marking + if own && !rejected then {n} else {};
  }

  lemma StepBound(s: Sys, m: Move, auto: AutomationId, bound: nat)
    requires WellFormed(s) && Bounded(s, auto, bound)
    ensures Bounded(Next(s, m), auto, bound) <==> !Overbooks(s, m, auto, bound)
  {
    if m.Insert? {
      InsertBound(s, m, auto, bound);
    } else if m.Restart? {
      if Enabled(s, m) { RestartBound(s, m.listed, auto); }
    } else {
      OthersShrink(s, m, auto);
      Monotone(Standing(Next(s, m), auto), Standing(s, auto));
    }
  }

  lemma InsertBound(s: Sys, m: Move, auto: AutomationId, bound: nat)
    requires m.Insert? && WellFormed(s) && Bounded(s, auto, bound)
    ensures Bounded(Next(s, m), auto, bound) <==> !Overbooks(s, m, auto, bound)
  {
    if Admissible(s.db, m.auto, m.snapshot, m.occurrence) {
      InsertedStanding(s, m.auto, m.snapshot, m.occurrence, m.now, Admit(m.snapshot.policy, m.counted), auto);
    }
  }

  lemma RestartBound(s: Sys, listed: set<AutomationId>, auto: AutomationId)
    ensures Standing(Restarted(s, listed), auto) == ActiveRuns(Restarted(s, listed).db, auto)
  {
    assert Marking(Restarted(s, listed)) == {};
  }

  lemma {:induction false} AlwaysWellFormed(moves: seq<Move>, i: nat)
    requires i <= |moves|
    ensures WellFormed(After(IDLE_NODE, moves, i))
  {
    if i == 0 {
      AfterAll(IDLE_NODE, moves);
      assert Starts([], 0) == 0;
    } else {
      AlwaysWellFormed(moves, i - 1);
      AfterNext(IDLE_NODE, moves, i - 1);
      NextWellFormed(After(IDLE_NODE, moves, i - 1), moves[i - 1]);
    }
  }

  lemma {:induction false} BoundedUpTo(moves: seq<Move>, i: nat, auto: AutomationId, bound: nat)
    requires forall j :: 0 <= j < |moves| ==> !Overbooks(After(IDLE_NODE, moves, j), moves[j], auto, bound)
    requires i <= |moves|
    ensures Bounded(After(IDLE_NODE, moves, i), auto, bound)
  {
    if i == 0 {
      IdleBounded(moves, auto, bound);
    } else {
      BoundedUpTo(moves, i - 1, auto, bound);
      BoundedNext(moves, i - 1, auto, bound);
    }
  }

  lemma IdleBounded(moves: seq<Move>, auto: AutomationId, bound: nat)
    ensures Bounded(After(IDLE_NODE, moves, 0), auto, bound)
  {
    AfterAll(IDLE_NODE, moves);
    assert Standing(IDLE_NODE, auto) == {};
  }

  lemma BoundedNext(moves: seq<Move>, i: nat, auto: AutomationId, bound: nat)
    requires i < |moves| && !Overbooks(After(IDLE_NODE, moves, i), moves[i], auto, bound)
    requires Bounded(After(IDLE_NODE, moves, i), auto, bound)
    ensures Bounded(After(IDLE_NODE, moves, i + 1), auto, bound)
  {
    AlwaysWellFormed(moves, i);
    AfterNext(IDLE_NODE, moves, i);
    StepBound(After(IDLE_NODE, moves, i), moves[i], auto, bound);
  }

  /** In every mode, the runs that are here to stay are within a bound all along a trace if and only if no
      move of it overbooks. */
  lemma AdmissionBound(moves: seq<Move>, auto: AutomationId, bound: nat)
    ensures (forall i :: 0 <= i <= |moves| ==> Bounded(After(IDLE_NODE, moves, i), auto, bound)) <==>
            (forall i :: 0 <= i < |moves| ==> !Overbooks(After(IDLE_NODE, moves, i), moves[i], auto, bound))
  {
    if forall i :: 0 <= i < |moves| ==> !Overbooks(After(IDLE_NODE, moves, i), moves[i], auto, bound) {
      forall i | 0 <= i <= |moves| ensures Bounded(After(IDLE_NODE, moves, i), auto, bound) {
        BoundedUpTo(moves, i, auto, bound);
      }
    } else {
      var i :| 0 <= i < |moves| && Overbooks(After(IDLE_NODE, moves, i), moves[i], auto, bound);
      AlwaysWellFormed(moves, i);
      AfterNext(IDLE_NODE, moves, i);
      OverbookedHere(After(IDLE_NODE, moves, i), moves[i], auto, bound);
    }
  }

  lemma OverbookedHere(s: Sys, m: Move, auto: AutomationId, bound: nat)
    requires WellFormed(s) && Overbooks(s, m, auto, bound)
    ensures Bounded(s, auto, bound) ==> !Bounded(Next(s, m), auto, bound)
  {
    if Bounded(s, auto, bound) { StepBound(s, m, auto, bound); }
  }

  // ---- when the policy is enough --------------------------------------------------------------------

  /** Requests decide on the count of the moment under a policy within the bound, and no crash comes
      between a rejected row and its mark. */
  ghost predicate InTime(s: Sys, m: Move, auto: AutomationId, bound: nat) {
    match m
    case Insert(a, snapshot, _, _, counted) =>
      a == auto ==> Bound(snapshot.policy) <= bound && counted == |ActiveRuns(s.db, auto)|
    case Restart(_) => Marking(s) * ActiveRuns(s.db, auto) == {}
    case _ => true
  }

  lemma {:induction false} BlockShrinks(db: Db, order: seq<RunId>, auto: AutomationId)
    requires forall i :: 0 <= i < |order| ==> order[i] < |db.runs|
    ensures ActiveRuns(BlockEach(db, order), auto) <= ActiveRuns(db, auto)
    decreases order
  {
    if order != [] {
      StatusShrinks(db, order[0], RunBlocked, auto);
      BlockShrinks(WithRunStatus(db, order[0], RunBlocked), order[1..], auto);
    }
  }

  lemma RestartShrinks(s: Sys, auto: AutomationId, listed: set<AutomationId>)
    ensures ActiveRuns(Restarted(s, listed).db, auto) <= ActiveRuns(s.db, auto)
  {
    var order := Only(ReadRuns(s.db), Interrupted(s.db));
    assert forall i :: 0 <= i < |order| ==> order[i] in order;
    BlockShrinks(s.db, order, auto);
  }

  lemma InTimeNeverOverbooks(s: Sys, m: Move, auto: AutomationId, bound: nat)
    requires Bounded(s, auto, bound) && InTime(s, m, auto, bound)
    ensures !Overbooks(s, m, auto, bound)
  {
    match m
    case Insert(a, snapshot, _, _, counted) =>
      AdmittedBound(snapshot.policy, counted);
      Monotone(Standing(s, auto), ActiveRuns(s.db, auto));
    case Restart(listed) =>
      RestartShrinks(s, auto, listed);
      assert Standing(s, auto) == ActiveRuns(s.db, auto);
      Monotone(ActiveRuns(Restarted(s, listed).db, auto), ActiveRuns(s.db, auto));
    case _ =>
  }

  /** Under policies within a bound, whose requests are in time, the runs that are here to stay are within it. */
  lemma {:induction false} PolicyBounds(moves: seq<Move>, i: nat, auto: AutomationId, bound: nat)
    requires forall j :: 0 <= j < |moves| ==> InTime(After(IDLE_NODE, moves, j), moves[j], auto, bound)
    requires i <= |moves|
    ensures Bounded(After(IDLE_NODE, moves, i), auto, bound)
  {
    if i == 0 {
      AfterAll(IDLE_NODE, moves);
      assert Standing(IDLE_NODE, auto) == {};
    } else {
      PolicyBounds(moves, i - 1, auto, bound);
      AlwaysWellFormed(moves, i - 1);
      AfterNext(IDLE_NODE, moves, i - 1);
      InTimeNeverOverbooks(After(IDLE_NODE, moves, i - 1), moves[i - 1], auto, bound);
      StepBound(After(IDLE_NODE, moves, i - 1), moves[i - 1], auto, bound);
    }
  }
}
