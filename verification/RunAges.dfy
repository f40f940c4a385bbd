/** The order of age: while the clock does not go back, whoever runs is older than whoever waits, and a
    restart that reads only the oldest rows resumes nobody beside a run that it does not read. */
module RunAges {
  import opened AutomationFacts
  import opened RunSets
  import opened RunSlices
  import opened RunViews
  import opened RunMoves
  import opened RunTheorems

  /** A run that runs, that a coroutine has in hand, or that a caller is about to submit. */
  predicate Leads(s: Sys, auto: AutomationId, t: RunId) {
    Of(s.db.runs, auto, t) && (s.db.runs[t].status == Running || t in s.scheduled ||
      (t in s.held && s.held[t] == Submit))
  }

  /** Nobody overtakes. */
  ghost predicate InOrder(s: Sys, auto: AutomationId) {
    forall t, q :: Leads(s, auto, t) && q in QueuedRuns(s.db, auto) ==> NotAfter(s.db, t, q)
  }

  /** The clock has not gone back since the unsettled runs of this Automation were inserted. */
  predicate Forward(s: Sys, m: Move, auto: AutomationId) {
    m.Insert? && m.auto == auto ==> forall r :: r in ActiveRuns(s.db, auto) ==> s.db.runs[r].createdAt <= m.now
  }

  // ---- what a restart reads ---------------------------------------------------------------------------

  /** Whatever is not after a row that is read is read itself. */
  lemma ReadIsClosed(db: Db, x: RunId, y: RunId)
    requires x in Incomplete(db) && y in ReadRuns(db) && y < |db.runs| && NotAfter(db, x, y)
    ensures x in ReadRuns(db)
  {
    var order := ByAge(db, Incomplete(db));
    ByAgeSorted(db, Incomplete(db));
    var j :| 0 <= j < |ReadRuns(db)| && ReadRuns(db)[j] == y;
    var i :| 0 <= i < |order| && order[i] == x;
    assert order[j] == y && i <= j;
    assert ReadRuns(db)[i] == x;
  }

  /** Where running runs are older than queued ones, a restart that reads a queued run reads the running ones. */
  lemma NobodyOverlooked(s: Sys, auto: AutomationId, listed: set<AutomationId>)
    requires InOrder(s, auto) && Resumed(s.db, auto, listed)
    ensures Overlooked(s.db, auto) == {}
  {
    var q := QueueRead(s.db, auto)[0];
    assert q in QueueRead(s.db, auto);
    forall t | t in RunningRuns(s.db, auto) ensures t in ReadRuns(s.db) {
      assert Leads(s, auto, t);
      ReadIsClosed(s.db, t, q);
    }
  }

  lemma {:induction false} OnlyInOrder(db: Db, order: seq<RunId>, keep: set<RunId>, q: RunId)
    requires InAgeOrder(db, order) && q in order && q in keep && q < |db.runs|
    ensures var kept := Only(order, keep); kept != [] && kept[0] < |db.runs| && NotAfter(db, kept[0], q)
  {
    if order[0] in keep {
      if q != order[0] {
        var j :| 0 < j < |order| && order[j] == q;
        assert NotAfter(db, order[0], order[j]);
      }
    } else {
      assert [] + Only(order[1..], keep) == Only(order[1..], keep);
      OnlyInOrder(db, order[1..], keep, q);
    }
  }

  /** The first queued run that is read is the oldest of all. */
  lemma ResumedIsOldest(db: Db, auto: AutomationId, q: RunId)
    requires QueueRead(db, auto) != [] && q in QueuedRuns(db, auto)
    ensures var t := QueueRead(db, auto)[0]; t < |db.runs| && NotAfter(db, t, q)
  {
    var t := QueueRead(db, auto)[0];
    assert t in QueueRead(db, auto);
    if NotAfter(db, q, t) { ReadIsClosed(db, q, t); }
    if q in ReadRuns(db) {
      ByAgeSorted(db, Incomplete(db));
      OnlyInOrder(db, ReadRuns(db), QueuedRuns(db, auto), q);
    }
  }

  // ---- every move keeps the order -----------------------------------------------------------------

  /** The same rows with other statuses, perhaps one more. */
  predicate SameAges(db: Db, db': Db) {
    && |db.runs| <= |db'.runs|
    && forall r: RunId :: r < |db.runs| ==>
         db'.runs[r].auto == db.runs[r].auto && db'.runs[r].createdAt == db.runs[r].createdAt
  }

  lemma NobodyNew(s: Sys, s': Sys, auto: AutomationId)
    requires InOrder(s, auto) && SameAges(s.db, s'.db)
    requires forall t :: Leads(s', auto, t) ==> Leads(s, auto, t)
    requires QueuedRuns(s'.db, auto) <= QueuedRuns(s.db, auto)
    ensures InOrder(s', auto)
  {
  }

  lemma StatusAges(s: Sys, s': Sys, run: RunId, status: RunStatus, auto: AutomationId)
    requires run < |s.db.runs| && s'.db == WithRunStatus(s.db, run, status) && status != Queued
    ensures SameAges(s.db, s'.db) && QueuedRuns(s'.db, auto) <= QueuedRuns(s.db, auto)
    ensures forall t: RunId :: t < |s.db.runs| && s'.db.runs[t].status == Running ==>
              s.db.runs[t].status == Running || (t == run && status == Running)
  {
  }

  lemma LeadsActive(s: Sys, auto: AutomationId, t: RunId)
    requires Inv(s, auto) && Leads(s, auto, t)
    ensures t in ActiveRuns(s.db, auto)
  {
    CarriedInView(s, auto, t);
  }

  /** A new row behind the others, or at the head of none. */
  lemma GrownInOrder(s: Sys, s': Sys, auto: AutomationId, now: int, own: bool, submits: bool)
    requires InOrder(s, auto) && SameAges(s.db, s'.db)
    requires |s'.db.runs| == |s.db.runs| + 1 && s'.db.runs[|s.db.runs|].createdAt == now
    requires QueuedRuns(s'.db, auto) <= QueuedRuns(s.db, auto) + if own then {|s.db.runs|} else {}
    requires forall t :: Leads(s', auto, t) ==> Leads(s, auto, t) || (t == |s.db.runs| && submits)
    requires submits ==> QueuedRuns(s.db, auto) == {}
    requires own ==> forall t: RunId :: Leads(s, auto, t) ==> s.db.runs[t].createdAt <= now
    ensures InOrder(s', auto)
  {
  }

  lemma InsertInOrder(s: Sys, m: Move, auto: AutomationId)
    requires m.Insert? && Inv(s, auto) && InOrder(s, auto) && Forward(s, m, auto)
    requires m.auto == auto && Admit(m.snapshot.policy, m.counted) == Submit ==> QueuedRuns(s.db, auto) == {}
    ensures InOrder(Next(s, m), auto)
  {
    if Admissible(s.db, m.auto, m.snapshot, m.occurrence) {
      forall t: RunId | m.auto == auto && Leads(s, auto, t) ensures s.db.runs[t].createdAt <= m.now {
        LeadsActive(s, auto, t);
      }
      InsertedLeads(s, m, auto);
      InsertedRows(s, m, auto);
      GrownInOrder(s, Next(s, m), auto, m.now, m.auto == auto,
                   m.auto == auto && Admit(m.snapshot.policy, m.counted) == Submit);
    }
  }

  lemma InsertedRows(s: Sys, m: Move, auto: AutomationId)
    requires m.Insert? && Admissible(s.db, m.auto, m.snapshot, m.occurrence)
    ensures var s' := Next(s, m);
            && SameAges(s.db, s'.db) && |s'.db.runs| == |s.db.runs| + 1 && s'.db.runs[|s.db.runs|].createdAt == m.now
            && QueuedRuns(s'.db, auto) <= QueuedRuns(s.db, auto) + if m.auto == auto then {|s.db.runs|} else {}
  {
    InsertMoves(s.db, m.auto, m.occurrence, m.snapshot.revision, m.now, auto);
  }

  lemma InsertedLeads(s: Sys, m: Move, auto: AutomationId)
    requires m.Insert? && WellFormed(s) && Admissible(s.db, m.auto, m.snapshot, m.occurrence)
    ensures forall t :: Leads(Next(s, m), auto, t) ==>
              Leads(s, auto, t) || (t == |s.db.runs| && m.auto == auto && Admit(m.snapshot.policy, m.counted) == Submit)
  {
  }

  lemma ConcludeInOrder(s: Sys, m: Move, auto: AutomationId)
    requires m.Conclude? && Enabled(s, m) && InOrder(s, auto)
    ensures InOrder(Next(s, m), auto)
  {
    if s.held[m.run] != Submit { StatusAges(s, Next(s, m), m.run, Skipped, auto); }
    NobodyNew(s, Next(s, m), auto);
  }

  lemma MissedInOrder(s: Sys, m: Move, auto: AutomationId)
    requires m.MissedSkip? && WellFormed(s) && InOrder(s, auto)
    ensures InOrder(Next(s, m), auto)
  {
    var MissedSkip(a, snapshot, occurrence, now) := m;
    if snapshot.status == Active && HasOccurrence(s.db, a, occurrence) {
      StatusAges(s, Next(s, m), RunOf(s.db, a, occurrence), Skipped, auto);
      NobodyNew(s, Next(s, m), auto);
    } else if snapshot.status == Active && a in s.db.defs {
      FreshInOrder(s, m, auto);
    }
  }

  lemma FreshInOrder(s: Sys, m: Move, auto: AutomationId)
    requires m.MissedSkip? && WellFormed(s) && InOrder(s, auto) && Admissible(s.db, m.auto, m.snapshot, m.occurrence)
    ensures InOrder(Next(s, m), auto)
  {
    var db := WithRun(s.db, m.auto, m.occurrence, m.snapshot.revision, m.now);
    InsertMoves(s.db, m.auto, m.occurrence, m.snapshot.revision, m.now, auto);
    StatusMoves(db, |s.db.runs|, Skipped, auto);
    NobodyNew(s, Next(s, m), auto);
  }

  lemma ExecutedInOrder(s: Sys, run: RunId, ready: set<RunId>, auto: AutomationId)
    requires InOrder(s, auto) && run < |s.db.runs|
    requires forall q :: Of(s.db.runs, auto, run) && q in QueuedRuns(s.db, auto) ==> NotAfter(s.db, run, q)
    ensures InOrder(Executed(s, run, ready), auto)
  {
    var s' := Executed(s, run, ready);
    StatusAges(s, s.(db := WithRunStatus(s.db, run, Running)), run, Running, auto);
    StatusAges(s, s.(db := WithRunStatus(s.db, run, RunBlocked)), run, RunBlocked, auto);
    forall t, q | Leads(s', auto, t) && q in QueuedRuns(s'.db, auto) ensures NotAfter(s'.db, t, q) {
      assert t != run ==> Leads(s, auto, t);
    }
  }

  lemma StartInOrder(s: Sys, m: Move, auto: AutomationId)
    requires m.Start? && Enabled(s, m) && InOrder(s, auto)
    ensures InOrder(Next(s, m), auto)
  {
    var s1 := s.(scheduled := s.scheduled - multiset{m.run});
    NobodyNew(s, s1, auto);
    assert Of(s.db.runs, auto, m.run) ==> Leads(s, auto, m.run);
    ExecutedInOrder(s1, m.run, m.ready, auto);
  }

  /** A drain takes up the oldest. */
  lemma DrainInOrder(s: Sys, m: Move, auto: AutomationId)
    requires m.Drain? && Enabled(s, m) && Inv(s, auto) && InOrder(s, auto)
    ensures InOrder(Next(s, m), auto)
  {
    var own, s1 := s.db.runs[m.run].auto, Closed(s, m.run);
    NobodyNew(s, s1, auto);
    if RunningRuns(s.db, own) == {} && Others(s.db, m.run) != {} {
      var next := Oldest(s.db, Others(s.db, m.run));
      assert IsOldest(s.db, Others(s.db, m.run), next);
      if own == auto { ClosedOwn(s, m.run, auto); }
      ExecutedInOrder(s1, next, m.ready, auto);
    }
  }

  lemma SettleInOrder(s: Sys, m: Move, auto: AutomationId)
    requires (m.Settle? || m.RaisesLate? || m.SetupFails? || m.Admin?) && Enabled(s, m) && InOrder(s, auto)
    ensures InOrder(Next(s, m), auto)
  {
    match m
    case Settle(run, ok, _) => SettledInOrder(s, run, if ok then Completed else Failed, Next(s, m), auto);
    case RaisesLate(run, _) => SettledInOrder(s, run, Completed, Next(s, m), auto);
    case SetupFails(_) => NobodyNew(s, Next(s, m), auto);
    case Admin(op) =>
      AdminRows(s.db, op);
      NobodyNew(s, Next(s, m), auto);
  }

  lemma SettledInOrder(s: Sys, run: RunId, status: RunStatus, s': Sys, auto: AutomationId)
    requires InOrder(s, auto) && run < |s.db.runs| && Terminal(status)
    requires s'.db.runs == WithRunStatus(s.db, run, status).runs && s'.scheduled == s.scheduled && s'.held == s.held
    ensures InOrder(s', auto)
  {
    var s1 := s.(db := WithRunStatus(s.db, run, status));
    StatusAges(s, s1, run, status, auto);
    NobodyNew(s, s1, auto);
    NobodyNew(s1, s', auto);
  }

  lemma {:induction false} BlockAges(db: Db, order: seq<RunId>)
    requires forall i :: 0 <= i < |order| ==> order[i] < |db.runs|
    ensures SameAges(db, BlockEach(db, order))
    decreases order
  {
    if order != [] { BlockAges(WithRunStatus(db, order[0], RunBlocked), order[1..]); }
  }

  lemma RestartedAges(s: Sys, listed: set<AutomationId>)
    ensures SameAges(s.db, Restarted(s, listed).db)
  {
    var order := Only(ReadRuns(s.db), Interrupted(s.db));
    assert forall i :: 0 <= i < |order| ==> order[i] in order;
    BlockAges(s.db, order);
  }

  lemma RestartedLeads(s: Sys, listed: set<AutomationId>, auto: AutomationId, t: RunId)
    requires Inv(s, auto) && Leads(Restarted(s, listed), auto, t)
    ensures Of(s.db.runs, auto, t) && (Resumes(s.db, t, listed) || t in RunningRuns(s.db, auto))
  {
    var s' := Restarted(s, listed);
    RestartedWell(s, listed, auto);
    if t !in s'.scheduled { assert t in RunningRuns(s'.db, auto); }
  }

  /** A restart resumes the oldest queued run. */
  lemma RestartInOrder(s: Sys, listed: set<AutomationId>, auto: AutomationId)
    requires Inv(s, auto) && InOrder(s, auto)
    ensures InOrder(Restarted(s, listed), auto)
  {
    var s' := Restarted(s, listed);
    RestartedAges(s, listed);
    RestartedWell(s, listed, auto);
    forall t, q | Leads(s', auto, t) && q in QueuedRuns(s'.db, auto) ensures NotAfter(s'.db, t, q) {
      RestartedLeads(s, listed, auto, t);
      RestartedOrder(s, listed, auto, t, q);
    }
  }

  lemma RestartedOrder(s: Sys, listed: set<AutomationId>, auto: AutomationId, t: RunId, q: RunId)
    requires Inv(s, auto) && InOrder(s, auto) && q in QueuedRuns(s.db, auto)
    requires Of(s.db.runs, auto, t) && (Resumes(s.db, t, listed) || t in RunningRuns(s.db, auto))
    ensures NotAfter(s.db, t, q)
  {
    if t in RunningRuns(s.db, auto) {
      assert Leads(s, auto, t);
    } else {
      ResumesOldest(s.db, auto, t, listed);
      ResumedIsOldest(s.db, auto, q);
    }
  }

  /** The clock does not go back, and a row to be submitted waits beside no other. */
  predicate Timely(s: Sys, m: Move, auto: AutomationId) {
    && Forward(s, m, auto)
    && (m.Insert? && m.auto == auto && Admit(m.snapshot.policy, m.counted) == Submit ==> QueuedRuns(s.db, auto) == {})
  }

  lemma StepInOrder(s: Sys, m: Move, auto: AutomationId)
    requires Inv(s, auto) && InOrder(s, auto) && Timely(s, m, auto)
    ensures InOrder(Next(s, m), auto)
  {
    if Enabled(s, m) {
      match m
      case Insert(_, _, _, _, _) => InsertInOrder(s, m, auto);
      case Conclude(_) => ConcludeInOrder(s, m, auto);
      case MissedSkip(_, _, _, _) => MissedInOrder(s, m, auto);
      case Start(_, _) => StartInOrder(s, m, auto);
      case Drain(_, _) => DrainInOrder(s, m, auto);
      case Restart(listed) => RestartInOrder(s, listed, auto);
      case _ => SettleInOrder(s, m, auto);
    }
  }

  lemma RestartIsSafe(s: Sys, m: Move, auto: AutomationId)
    requires m.Restart? && InOrder(s, auto)
    ensures !Breaks(s, m, auto)
  {
    if Resumed(s.db, auto, m.listed) { NobodyOverlooked(s, auto, m.listed); }
  }

  lemma {:induction false} TimelyKeeps(moves: seq<Move>, i: nat, auto: AutomationId)
    requires SerialTrace(moves, auto) && i <= |moves|
    requires forall j :: 0 <= j < |moves| ==> Timely(After(IDLE_NODE, moves, j), moves[j], auto)
    requires forall j :: 0 <= j < |moves| ==> moves[j].Restart? || !Breaks(After(IDLE_NODE, moves, j), moves[j], auto)
    ensures Inv(After(IDLE_NODE, moves, i), auto) && InOrder(After(IDLE_NODE, moves, i), auto)
  {
    if i == 0 {
      NodeStartsIdle(auto);
      AfterAll(IDLE_NODE, moves);
    } else {
      var s := After(IDLE_NODE, moves, i - 1);
      TimelyKeeps(moves, i - 1, auto);
      AfterNext(IDLE_NODE, moves, i - 1);
      StepInOrder(s, moves[i - 1], auto);
      if moves[i - 1].Restart? { RestartIsSafe(s, moves[i - 1], auto); }
      Unbreaking(s, moves[i - 1], auto);
    }
  }

  /** While the clock does not go back and no row to be submitted waits beside another, no restart breaks
      the invariant, however many rows there are: a trace is unbroken if its other moves are. */
  lemma RestartsNeverBreak(moves: seq<Move>, auto: AutomationId)
    requires SerialTrace(moves, auto)
    requires forall j :: 0 <= j < |moves| ==> Timely(After(IDLE_NODE, moves, j), moves[j], auto)
    requires forall j :: 0 <= j < |moves| ==> moves[j].Restart? || !Breaks(After(IDLE_NODE, moves, j), moves[j], auto)
    ensures Unbroken(moves, auto)
  {
    forall j | 0 <= j < |moves| ensures !Breaks(After(IDLE_NODE, moves, j), moves[j], auto) {
      TimelyKeeps(moves, j, auto);
      if moves[j].Restart? { RestartIsSafe(After(IDLE_NODE, moves, j), moves[j], auto); }
    }
  }
}
