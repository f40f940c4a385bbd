/** What becomes of a run, move by move, in terms of the rows and of the coroutines alone: who starts it, who blocks
    it, who settles it and how. */
module RunOutcomes {
  import opened AutomationFacts
  import opened RunSets
  import opened RunSlices
  import opened RunViews
  import opened RunMoves
  import opened RunTheorems
  import opened RunBounds

  predicate HasStatus(db: Db, run: RunId, status: RunStatus) {
    run < |db.runs| && db.runs[run].status == status
  }

  /** The definition of this run is confirmed and active, and its Agent, workspace, model profile and extensions are
      among what is available. */
  predicate MayStart(db: Db, run: RunId, available: set<RunId>) {
    && run < |db.runs| && db.runs[run].auto in db.defs
    && db.defs[db.runs[run].auto].confirmed && db.defs[db.runs[run].auto].status == Active && run in available
  }

  predicate IsAlive(db: Db, run: RunId) {
    run < |db.runs| && db.runs[run].auto in db.defs && db.defs[db.runs[run].auto].status != Deleted
  }

  // ---- starting -----------------------------------------------------------------------------------------

  /** A start makes a queued run running exactly if it may start, and blocked if not; with a deleted definition it
      leaves it. No other run changes. */
  lemma StartDecides(s: Sys, run: RunId, available: set<RunId>)
    requires run in s.scheduled && HasStatus(s.db, run, Queued)
    ensures var s' := Next(s, Start(run, available));
            && |s'.db.runs| == |s.db.runs| && s'.db.defs == s.db.defs
            && (forall r: RunId :: r < |s.db.runs| && r != run ==> s'.db.runs[r] == s.db.runs[r])
            && (s'.db.runs[run].status ==
                  if !IsAlive(s.db, run) then Queued
                   else if MayStart(s.db, run, available) then Running
                   else RunBlocked)
            && s'.scheduled == s.scheduled - multiset{run}
            && s'.executing == s.executing +
               (if IsAlive(s.db, run) && MayStart(s.db, run, available) then multiset{run} else multiset{})
            && s'.closing == s.closing +
               (if IsAlive(s.db, run) && !MayStart(s.db, run, available) then multiset{run} else multiset{})
  {
  }

  /** Another run of the same Automation is queued. */
  predicate QueuesBeside(db: Db, run: RunId, r: RunId) {
    HasStatus(db, r, Queued) && run < |db.runs| && r != run && db.runs[r].auto == db.runs[run].auto
  }

  /** The next run of an Automation: queued, not the one that drains, and none such is older. */
  predicate NextInQueue(db: Db, run: RunId, next: RunId) {
    && QueuesBeside(db, run, next)
    && forall r :: 0 <= r < |db.runs| && QueuesBeside(db, run, r) ==>
         db.runs[next].createdAt < db.runs[r].createdAt
         || (db.runs[next].createdAt == db.runs[r].createdAt && next <= r)
  }

  predicate NobodyRuns(db: Db, run: RunId)
    requires run < |db.runs|
  {
    forall r :: 0 <= r < |db.runs| && db.runs[r].auto == db.runs[run].auto ==> db.runs[r].status != Running
  }

  lemma TakesNext(db: Db, run: RunId, next: RunId)
    requires NextInQueue(db, run, next)
    ensures Others(db, run) != {} && Oldest(db, Others(db, run)) == next
  {
    assert next in Others(db, run);
    assert IsOldest(db, Others(db, run), next);
    OldestIs(db, Others(db, run), next);
  }

  lemma NobodyIsRunning(db: Db, run: RunId)
    requires run < |db.runs|
    ensures RunningRuns(db, db.runs[run].auto) == {} <==> NobodyRuns(db, run)
  {
    if !NobodyRuns(db, run) {
      var r :| 0 <= r < |db.runs| && db.runs[r].auto == db.runs[run].auto && db.runs[r].status == Running;
      assert r in RunningRuns(db, db.runs[run].auto);
    }
  }

  /** So does a drain with the next run of its Automation, if none is running. */
  lemma DrainDecides(s: Sys, run: RunId, available: set<RunId>, next: RunId)
    requires run in s.closing && NextInQueue(s.db, run, next) && NobodyRuns(s.db, run)
    ensures var s' := Next(s, Drain(run, available));
            && |s'.db.runs| == |s.db.runs| && s'.db.defs == s.db.defs
            && (forall r: RunId :: r < |s.db.runs| && r != next ==> s'.db.runs[r] == s.db.runs[r])
            && (s'.db.runs[next].status ==
                  if !IsAlive(s.db, next) then Queued else if MayStart(s.db, next, available) then Running
                  else RunBlocked)
            && s'.scheduled == s.scheduled
            && s'.executing == s.executing +
               (if IsAlive(s.db, next) && MayStart(s.db, next, available) then multiset{next} else multiset{})
            && s'.closing == s.closing - multiset{run} +
               (if IsAlive(s.db, next) && !MayStart(s.db, next, available) then multiset{next} else multiset{})
  {
    TakesNext(s.db, run, next);
    NobodyIsRunning(s.db, run);
  }

  /** Otherwise a drain changes no run. */
  lemma DrainLeaves(s: Sys, run: RunId, available: set<RunId>)
    requires run in s.closing && run < |s.db.runs|
    requires !NobodyRuns(s.db, run) || forall next :: 0 <= next < |s.db.runs| ==> !NextInQueue(s.db, run, next)
    ensures Next(s, Drain(run, available)) == s.(closing := s.closing - multiset{run})
  {
    NobodyIsRunning(s.db, run);
    if Others(s.db, run) != {} {
      var next := Oldest(s.db, Others(s.db, run));
      assert IsOldest(s.db, Others(s.db, run), next);
      forall r | 0 <= r < |s.db.runs| && HasStatus(s.db, r, Queued) && r != run
                 && s.db.runs[r].auto == s.db.runs[run].auto
        ensures NotAfter(s.db, next, r)
      {
        assert r in Others(s.db, run);
      }
      assert NextInQueue(s.db, run, next);
    }
  }

  // ---- every change of a status -----------------------------------------------------------------------

  /** Which move takes a run from one status to another. */
  ghost predicate Explained(s: Sys, m: Move, run: RunId, was: RunStatus, status: RunStatus)
    requires run < |s.db.runs|
  {
    match status
    case Queued => false
    case Running =>
      was == Queued && ((m.Start? && m.run == run && MayStart(s.db, run, m.ready))
                        || (m.Drain? && NextInQueue(s.db, m.run, run) && MayStart(s.db, run, m.ready)))
    case RunBlocked =>
      || (m.Start? && m.run == run && IsAlive(s.db, run) && !MayStart(s.db, run, m.ready))
      || (m.Drain? && NextInQueue(s.db, m.run, run) && IsAlive(s.db, run) && !MayStart(s.db, run, m.ready))
      || (m.Restart? && was == Running)
    case Completed => (m.Settle? && m.run == run && m.ok) || (m.RaisesLate? && m.run == run)
    case Failed => m.Settle? && m.run == run && !m.ok
    case Skipped =>
      || (m.Conclude? && m.run == run && run in s.held && s.held[run] == Reject)
      || (m.MissedSkip? && s.db.runs[run].auto == m.auto && s.db.runs[run].occurrence == m.occurrence)
    case Cancelled => false
  }

  lemma StatusChange(db: Db, x: RunId, status: RunStatus, run: RunId)
    requires x < |db.runs| && run < |db.runs|
    ensures var db' := WithRunStatus(db, x, status);
            && |db'.runs| == |db.runs|
            && db'.runs[run].status ==
               (if run == x && !Terminal(db.runs[x].status) then status else db.runs[run].status)
  {
  }

  lemma StartExplained(s: Sys, m: Move, run: RunId)
    requires m.Start? && Enabled(s, m) && run < |s.db.runs|
    ensures var db' := Next(s, m).db;
            && |db'.runs| == |s.db.runs|
            && (db'.runs[run].status != s.db.runs[run].status ==>
                  Explained(s, m, run, s.db.runs[run].status, db'.runs[run].status))
  {
  }

  lemma DrainExplained(s: Sys, m: Move, run: RunId)
    requires m.Drain? && Enabled(s, m) && run < |s.db.runs|
    ensures var db' := Next(s, m).db;
            && |db'.runs| == |s.db.runs|
            && (db'.runs[run].status != s.db.runs[run].status ==>
                  Explained(s, m, run, s.db.runs[run].status, db'.runs[run].status))
  {
    if NobodyRuns(s.db, m.run) && exists next :: 0 <= next < |s.db.runs| && NextInQueue(s.db, m.run, next) {
      var next :| 0 <= next < |s.db.runs| && NextInQueue(s.db, m.run, next);
      DrainDecides(s, m.run, m.ready, next);
    } else {
      DrainLeaves(s, m.run, m.ready);
    }
  }

  lemma {:induction false} BlockedOnly(db: Db, order: seq<RunId>, run: RunId)
    requires (forall i :: 0 <= i < |order| ==> order[i] < |db.runs|) && run < |db.runs|
    ensures var db' := BlockEach(db, order);
            && |db'.runs| == |db.runs|
            && db'.runs[run].status ==
               if run in order && !Terminal(db.runs[run].status) then RunBlocked else db.runs[run].status
    decreases order
  {
    if order != [] {
      BlockedOnly(WithRunStatus(db, order[0], RunBlocked), order[1..], run);
      assert run in order <==> run == order[0] || run in order[1..];
    }
  }

  /** A restart blocks exactly the running runs that it reads. */
  lemma RestartBlocks(s: Sys, listed: set<AutomationId>, run: RunId)
    requires run < |s.db.runs|
    ensures var db' := Restarted(s, listed).db;
            && |db'.runs| == |s.db.runs|
            && db'.runs[run].status ==
               if s.db.runs[run].status == Running && run in ReadRuns(s.db) then RunBlocked else s.db.runs[run].status
  {
    var order := Only(ReadRuns(s.db), Interrupted(s.db));
    assert forall i :: 0 <= i < |order| ==> order[i] in order;
    BlockedOnly(s.db, order, run);
  }

  lemma CallersExplained(s: Sys, m: Move, run: RunId)
    requires (m.Insert? || m.Conclude? || m.MissedSkip?) && WellFormed(s) && Enabled(s, m) && run < |s.db.runs|
    ensures var db' := Next(s, m).db;
            && |s.db.runs| <= |db'.runs|
            && (db'.runs[run].status != s.db.runs[run].status ==>
                  Explained(s, m, run, s.db.runs[run].status, db'.runs[run].status))
  {
  }

  lemma TurnExplained(s: Sys, m: Move, run: RunId)
    requires m.Settle? || m.RaisesLate? || m.SetupFails? || m.Admin?
    requires Enabled(s, m) && run < |s.db.runs|
    ensures var db' := Next(s, m).db;
            && |s.db.runs| == |db'.runs|
            && (db'.runs[run].status != s.db.runs[run].status ==>
                  Explained(s, m, run, s.db.runs[run].status, db'.runs[run].status))
  {
    match m
    case Settle(x, ok, stop) => StatusChange(s.db, x, if ok then Completed else Failed, run);
    case RaisesLate(x, _) => StatusChange(s.db, x, Completed, run);
    case SetupFails(_) =>
    case Admin(op) => AdminRows(s.db, op);
  }

  /** Whatever happens, a run becomes running only where it was queued, its definition is confirmed and active, and
      its environment is available; and it is blocked, completed, failed or skipped only by the moves that say so. */
  lemma StatusExplained(s: Sys, m: Move, run: RunId)
    requires WellFormed(s) && run < |s.db.runs|
    ensures var db' := Next(s, m).db;
            && run < |db'.runs|
            && (db'.runs[run].status != s.db.runs[run].status ==>
                  Explained(s, m, run, s.db.runs[run].status, db'.runs[run].status))
  {
    if Enabled(s, m) {
      match m
      case Start(_, _) => StartExplained(s, m, run);
      case Drain(_, _) => DrainExplained(s, m, run);
      case Restart(listed) => RestartBlocks(s, listed, run);
      case Insert(_, _, _, _, _) => CallersExplained(s, m, run);
      case Conclude(_) => CallersExplained(s, m, run);
      case MissedSkip(_, _, _, _) => CallersExplained(s, m, run);
      case _ => TurnExplained(s, m, run);
    }
  }

  /** Over every trace, a run that is running was started at some move at which its definition was confirmed and
      active and its environment available. */
  lemma {:induction false} StartedReady(moves: seq<Move>, i: nat, run: RunId) returns (j: nat)
    requires i <= |moves| && HasStatus(After(IDLE_NODE, moves, i).db, run, Running)
    ensures j < i && (moves[j].Start? || moves[j].Drain?)
    ensures MayStart(After(IDLE_NODE, moves, j).db, run, moves[j].ready)
  {
    if i == 0 {
      AfterAll(IDLE_NODE, moves);
    } else {
      var s, m := After(IDLE_NODE, moves, i - 1), moves[i - 1];
      AlwaysWellFormed(moves, i - 1);
      AfterNext(IDLE_NODE, moves, i - 1);
      if HasStatus(s.db, run, Running) {
        j := StartedReady(moves, i - 1, run);
      } else {
        j := i - 1;
        if run < |s.db.runs| { StatusExplained(s, m, run); } else { NewIsQueued(s, m, run); }
      }
    }
  }

  lemma NewIsQueued(s: Sys, m: Move, run: RunId)
    requires WellFormed(s) && run >= |s.db.runs|
    ensures !HasStatus(Next(s, m).db, run, Running)
  {
    if m.Insert? || m.MissedSkip? || m.Conclude? {
      NewByCaller(s, m, run);
    } else if Enabled(s, m) {
      NobodyNew(s, m);
    }
  }

  lemma NewByCaller(s: Sys, m: Move, run: RunId)
    requires m.Insert? || m.MissedSkip? || m.Conclude?
    requires WellFormed(s) && run >= |s.db.runs|
    ensures !HasStatus(Next(s, m).db, run, Running)
  {
  }

  lemma NobodyNew(s: Sys, m: Move)
    requires !m.Insert? && !m.MissedSkip? && !m.Conclude? && WellFormed(s) && Enabled(s, m)
    ensures |Next(s, m).db.runs| == |s.db.runs|
  {
    match m
    case Start(x, available) => SameSize(s.(scheduled := s.scheduled - multiset{x}), x, available);
    case Drain(x, available) => DrainSize(s, x, available);
    case Restart(listed) => RestartedWell(s, listed, "");
    case Admin(op) => AdminRows(s.db, op);
    case _ =>
  }

  lemma SameSize(s: Sys, run: RunId, available: set<RunId>)
    requires run < |s.db.runs|
    ensures |Executed(s, run, available).db.runs| == |s.db.runs|
  {
  }

  lemma DrainSize(s: Sys, run: RunId, available: set<RunId>)
    requires run < |s.db.runs|
    ensures |Drained(s, run, available).db.runs| == |s.db.runs|
  {
    if Others(s.db, run) != {} {
      var next := Oldest(s.db, Others(s.db, run));
      assert next in Others(s.db, run);
      SameSize(Closed(s, run), next, available);
    }
  }

  // ---- requests ---------------------------------------------------------------------------------------

  /** The admission rules, mode by mode. */
  lemma AdmissionRules(policy: Policy, active: nat)
    ensures policy.mode == Skip ==> Admit(policy, active) == if active == 0 then Submit else Reject
    ensures policy.mode == QueueOne ==>
              Admit(policy, active) == if active == 0 then Submit else if active == 1 then Enqueue else Reject
    ensures policy.mode == ParallelWithLimit ==>
              Admit(policy, active) ==
              if active < (if policy.limit == 0 then 1 else policy.limit) then Submit else Reject
  {
  }

  predicate Known(db: Db, auto: AutomationId, occurrence: string) {
    exists r :: 0 <= r < |db.runs| && db.runs[r].auto == auto && db.runs[r].occurrence == occurrence
  }

  lemma KnownOccurrence(db: Db, auto: AutomationId, occurrence: string)
    ensures Known(db, auto, occurrence) <==> HasOccurrence(db, auto, occurrence)
  {
    if HasOccurrence(db, auto, occurrence) {
      var r: RunId :| IsOccurrence(db, auto, occurrence, r);
      assert db.runs[r].auto == auto;
    }
    if r :| 0 <= r < |db.runs| && db.runs[r].auto == auto && db.runs[r].occurrence == occurrence {
      assert IsOccurrence(db, auto, occurrence, r);
    }
  }

  /** An insertion does nothing for a snapshot that is not active, a missing definition or a known occurrence.
      Otherwise it adds one queued row, and leaves its caller to submit it, to mark it, or with nothing to do. */
  lemma InsertDecides(s: Sys, m: Move)
    requires m.Insert?
    ensures var s', n := Next(s, m), |s.db.runs|;
            && s'.db.defs == s.db.defs && s'.scheduled == s.scheduled && s'.executing == s.executing
            && s'.closing == s.closing
            && if m.snapshot.status != Active || m.auto !in s.db.defs || Known(s.db, m.auto, m.occurrence) then s' == s
               else
                 && |s'.db.runs| == n + 1 && (forall r: RunId :: r < n ==> s'.db.runs[r] == s.db.runs[r])
                 && s'.db.runs[n].auto == m.auto && s'.db.runs[n].occurrence == m.occurrence
                 && s'.db.runs[n].status == Queued && s'.db.runs[n].createdAt == m.now
                 && s'.db.runs[n].revision == m.snapshot.revision
                 && s'.held == match Admit(m.snapshot.policy, m.counted)
                               case Submit => s.held[n := Submit]
                               case Reject => s.held[n := Reject]
                               case Enqueue => s.held
  {
    KnownOccurrence(s.db, m.auto, m.occurrence);
  }

  /** A request without interference: nothing for a snapshot that is not active, a missing definition or a known
      occurrence. Otherwise a new run of the occurrence: skipped if there is no room for it; queued and submitted, or
      queued behind another, by the number of queued and running runs at that moment. */
  lemma RequestDecides(s: Sys, auto: AutomationId, snapshot: Definition, occurrence: string, now: int)
    requires WellFormed(s)
    ensures var s', n := Requested(s, auto, snapshot, occurrence, now), |s.db.runs|;
            var active := set r: RunId | r < n && s.db.runs[r].auto == auto
                                         && (s.db.runs[r].status == Queued || s.db.runs[r].status == Running);
            if snapshot.status != Active || auto !in s.db.defs || Known(s.db, auto, occurrence) then s' == s
            else
              && s'.db.defs == s.db.defs && |s'.db.runs| == n + 1
              && (forall r: RunId :: r < n ==> s'.db.runs[r] == s.db.runs[r])
              && s'.db.runs[n].auto == auto && s'.db.runs[n].occurrence == occurrence
              && s'.held == s.held && s'.executing == s.executing && s'.closing == s.closing
              && match Admit(snapshot.policy, |active|)
                 case Submit => s'.db.runs[n].status == Queued && s'.scheduled == s.scheduled + multiset{n}
                 case Enqueue => s'.db.runs[n].status == Queued && s'.scheduled == s.scheduled
                 case Reject => s'.db.runs[n].status == Skipped && s'.scheduled == s.scheduled
  {
    KnownOccurrence(s.db, auto, occurrence);
    CountsActive(s.db, auto);
    if Admissible(s.db, auto, snapshot, occurrence) { AdmittedRequest(s, auto, snapshot, occurrence, now); }
  }

  lemma CountsActive(db: Db, auto: AutomationId)
    ensures ActiveRuns(db, auto) == set r: RunId | r < |db.runs| && db.runs[r].auto == auto
                                      && (db.runs[r].status == Queued || db.runs[r].status == Running)
  {
  }

  lemma AdmittedRequest(s: Sys, auto: AutomationId, snapshot: Definition, occurrence: string, now: int)
    requires WellFormed(s) && Admissible(s.db, auto, snapshot, occurrence)
    ensures var s', n := Requested(s, auto, snapshot, occurrence, now), |s.db.runs|;
            && s'.db.defs == s.db.defs && |s'.db.runs| == n + 1
            && (forall r: RunId :: r < n ==> s'.db.runs[r] == s.db.runs[r])
            && s'.db.runs[n].auto == auto && s'.db.runs[n].occurrence == occurrence
            && s'.held == s.held && s'.executing == s.executing && s'.closing == s.closing
            && match VerdictNow(s, auto, snapshot.policy)
               case Submit => s'.db.runs[n].status == Queued && s'.scheduled == s.scheduled + multiset{n}
               case Enqueue => s'.db.runs[n].status == Queued && s'.scheduled == s.scheduled
               case Reject => s'.db.runs[n].status == Skipped && s'.scheduled == s.scheduled
  {
    var n, m := |s.db.runs|, Insert(auto, snapshot, occurrence, now, |ActiveRuns(s.db, auto)|);
    var s1 := Next(s, m);
    RequestIsTwoMoves(s, auto, snapshot, occurrence, now);
    AdmittedInsertion(s, auto, snapshot, occurrence, now);
    if VerdictNow(s, auto, snapshot.policy) != Enqueue { ConcludeDecides(s1, n); }
  }

  lemma AdmittedInsertion(s: Sys, auto: AutomationId, snapshot: Definition, occurrence: string, now: int)
    requires WellFormed(s) && Admissible(s.db, auto, snapshot, occurrence)
    ensures var n, m := |s.db.runs|, Insert(auto, snapshot, occurrence, now, |ActiveRuns(s.db, auto)|);
            var s1, verdict := Next(s, m), VerdictNow(s, auto, snapshot.policy);
            && s1.db.defs == s.db.defs && |s1.db.runs| == n + 1
            && (forall r: RunId :: r < n ==> s1.db.runs[r] == s.db.runs[r])
            && s1.db.runs[n].auto == auto && s1.db.runs[n].occurrence == occurrence && s1.db.runs[n].status == Queued
            && s1.scheduled == s.scheduled && s1.executing == s.executing && s1.closing == s.closing
            && if verdict == Enqueue then s1.held == s.held
               else n in s1.held && s1.held[n] == verdict && s1.held - {n} == s.held
  {
    var m := Insert(auto, snapshot, occurrence, now, |ActiveRuns(s.db, auto)|);
    KnownOccurrence(s.db, auto, occurrence);
    InsertDecides(s, m);
  }

  /** It is the insertion under the count of the moment and, unless the run waits, the last step of its caller. */
  lemma RequestIsTwoMoves(s: Sys, auto: AutomationId, snapshot: Definition, occurrence: string, now: int)
    requires Admissible(s.db, auto, snapshot, occurrence)
    ensures var s1 := Next(s, Insert(auto, snapshot, occurrence, now, |ActiveRuns(s.db, auto)|));
            Requested(s, auto, snapshot, occurrence, now) ==
              if VerdictNow(s, auto, snapshot.policy) == Enqueue then s1 else Next(s1, Conclude(|s.db.runs|))
  {
  }

  /** A submission makes one coroutine; a mark settles its run as skipped unless it is settled already. */
  lemma ConcludeDecides(s: Sys, run: RunId)
    requires run in s.held && run < |s.db.runs|
    ensures var s' := Next(s, Conclude(run));
            && s'.held == s.held - {run} && s'.db.defs == s.db.defs
            && s'.executing == s.executing && s'.closing == s.closing
            && if s.held[run] == Submit then s'.db == s.db && s'.scheduled == s.scheduled + multiset{run}
               else
                 && s'.scheduled == s.scheduled && |s'.db.runs| == |s.db.runs|
                 && (forall r: RunId :: r < |s.db.runs| && r != run ==> s'.db.runs[r] == s.db.runs[r])
                 && s'.db.runs[run].status ==
                    if HasStatus(s.db, run, Queued) || HasStatus(s.db, run, Running) then Skipped
                    else s.db.runs[run].status
  {
  }

  /** The missed-run branch settles as skipped the run that the occurrence has, or a new one. It submits nothing. */
  lemma MissedDecides(s: Sys, m: Move)
    requires m.MissedSkip? && m.snapshot.status == Active
    ensures var s', n := Next(s, m), |s.db.runs|;
            && s'.db.defs == s.db.defs && s'.scheduled == s.scheduled && s'.executing == s.executing
            && s'.closing == s.closing && s'.held == s.held
            && if Known(s.db, m.auto, m.occurrence) then
                 && |s'.db.runs| == n
                 && exists run :: 0 <= run < n && s.db.runs[run].auto == m.auto
                      && s.db.runs[run].occurrence == m.occurrence
                      && Terminal(s'.db.runs[run].status)
                      && (!Terminal(s.db.runs[run].status) ==> s'.db.runs[run].status == Skipped)
                      && forall r: RunId :: r < n && r != run ==> s'.db.runs[r] == s.db.runs[r]
               else if m.auto !in s.db.defs then s' == s
               else
                 && |s'.db.runs| == n + 1 && (forall r: RunId :: r < n ==> s'.db.runs[r] == s.db.runs[r])
                 && s'.db.runs[n].auto == m.auto && s'.db.runs[n].occurrence == m.occurrence
                 && s'.db.runs[n].status == Skipped
  {
    KnownOccurrence(s.db, m.auto, m.occurrence);
    if HasOccurrence(s.db, m.auto, m.occurrence) {
      var run := RunOf(s.db, m.auto, m.occurrence);
      assert IsOccurrence(s.db, m.auto, m.occurrence, run);
    }
  }

  // ---- the end of a turn --------------------------------------------------------------------------------

  /** What a stop phrase does to the definitions: it pauses one that is active, and raises its revision. */
  predicate PausedOnly(db: Db, db': Db, auto: AutomationId, stop: bool) {
    && db'.defs.Keys == db.defs.Keys && (forall a :: a in db.defs && a != auto ==> db'.defs[a] == db.defs[a])
    && (auto in db.defs ==>
          if stop && db.defs[auto].status == Active
          then db'.defs[auto] == db.defs[auto].(status := Paused, revision := db.defs[auto].revision + 1)
          else db'.defs[auto] == db.defs[auto])
  }

  /** A turn completes its run if it succeeded and fails it if not, and its coroutine goes on to drain. */
  lemma SettleDecides(s: Sys, run: RunId, ok: bool, stop: bool)
    requires Enabled(s, Settle(run, ok, stop))
    ensures var s' := Next(s, Settle(run, ok, stop));
            && |s'.db.runs| == |s.db.runs|
            && (forall r: RunId :: r < |s.db.runs| && r != run ==> s'.db.runs[r] == s.db.runs[r])
            && (HasStatus(s.db, run, Running) ==> s'.db.runs[run].status == if ok then Completed else Failed)
            && PausedOnly(s.db, s'.db, s.db.runs[run].auto, ok && stop)
            && s'.executing == s.executing - multiset{run} && s'.closing == s.closing + multiset{run}
            && s'.scheduled == s.scheduled && s'.held == s.held
  {
  }

  /** An exception after completion leaves the run completed and its coroutine where it is. */
  lemma RaiseDecides(s: Sys, run: RunId, paused: bool)
    requires Enabled(s, RaisesLate(run, paused))
    ensures var s' := Next(s, RaisesLate(run, paused));
            && |s'.db.runs| == |s.db.runs|
            && (forall r: RunId :: r < |s.db.runs| && r != run ==> s'.db.runs[r] == s.db.runs[r])
            && (HasStatus(s.db, run, Running) ==> s'.db.runs[run].status == Completed)
            && PausedOnly(s.db, s'.db, s.db.runs[run].auto, paused)
            && s'.executing == s.executing && s'.closing == s.closing && s'.scheduled == s.scheduled
            && s'.held == s.held
  {
  }

  // ---- restarts -------------------------------------------------------------------------------------------

  predicate Before(db: Db, x: RunId, y: RunId) {
    && x < |db.runs| && y < |db.runs|
    && (db.runs[x].createdAt < db.runs[y].createdAt || (db.runs[x].createdAt == db.runs[y].createdAt && x < y))
  }

  function Unsettled(db: Db): set<RunId> {
    set r: RunId | r < |db.runs| && (db.runs[r].status == Queued || db.runs[r].status == Running)
  }

  /** How many of some runs come before one. */
  function Ahead(db: Db, ids: set<RunId>, run: RunId): set<RunId> {
    set r | r in ids && Before(db, r, run)
  }

  lemma Prefix(db: Db, order: seq<RunId>, ids: set<RunId>, run: RunId, i: nat)
    requires Distinct(order) && InAgeOrder(db, order) && (forall r :: r in order <==> r in ids)
    requires i < |order| && order[i] == run && forall r :: r in ids ==> r < |db.runs|
    ensures |Ahead(db, ids, run)| == i
  {
    var first := Elements(order[..i]);
    DistinctSize(order[..i]);
    forall r ensures r in first <==> r in Ahead(db, ids, run) {
      if r in ids { PrefixMember(db, order, i, r); }
    }
    assert first == Ahead(db, ids, run);
  }

  lemma PrefixMember(db: Db, order: seq<RunId>, i: nat, r: RunId)
    requires Distinct(order) && InAgeOrder(db, order) && i < |order| && r in order
    requires forall k :: 0 <= k < |order| ==> order[k] < |db.runs|
    ensures r in order[..i] <==> Before(db, r, order[i])
  {
    var k :| 0 <= k < |order| && order[k] == r;
    if k < i {
      assert order[..i][k] == r && NotAfter(db, order[k], order[i]);
    } else {
      NotFirst(order, i, k);
      if k > i { assert NotAfter(db, order[i], order[k]); }
    }
  }

  lemma NotFirst(order: seq<RunId>, i: nat, k: nat)
    requires Distinct(order) && i <= k < |order|
    ensures order[k] !in order[..i]
  {
  }

  function Elements(order: seq<RunId>): (ids: set<RunId>)
    ensures forall r :: r in ids <==> r in order
  {
    if order == [] then {} else {order[0]} + Elements(order[1..])
  }

  lemma {:induction false} DistinctSize(order: seq<RunId>)
    requires Distinct(order)
    ensures |Elements(order)| == |order|
  {
    if order != [] {
      DistinctSize(order[1..]);
      assert order[0] !in order[1..];
    }
  }

  lemma FirstAre(db: Db, order: seq<RunId>, ids: set<RunId>, limit: nat, run: RunId)
    requires Distinct(order) && InAgeOrder(db, order) && (forall r :: r in order <==> r in ids)
    requires forall r :: r in ids ==> r < |db.runs|
    ensures run in FirstOf(order, limit) <==> run in ids && |Ahead(db, ids, run)| < limit
  {
    if run in ids {
      var i :| 0 <= i < |order| && order[i] == run;
      Prefix(db, order, ids, run, i);
      if i < limit { assert FirstOf(order, limit)[i] == run; }
      if run in FirstOf(order, limit) {
        var k :| 0 <= k < |FirstOf(order, limit)| && FirstOf(order, limit)[k] == run;
        assert order[k] == run;
      }
    }
  }

  /** A restart reads an unsettled run exactly if fewer than a thousand come before it. */
  lemma ReadExactly(db: Db, run: RunId)
    ensures run in ReadRuns(db) <==> run in Unsettled(db) && |Ahead(db, Unsettled(db), run)| < 1_000
  {
    assert Incomplete(db) == Unsettled(db);
    ByAgeSorted(db, Incomplete(db));
    FirstAre(db, ByAge(db, Incomplete(db)), Unsettled(db), 1_000, run);
  }

  /** The queued runs of one Automation that a restart reads. */
  ghost function ReadQueue(db: Db, auto: AutomationId): set<RunId> {
    set r | r in Unsettled(db) && |Ahead(db, Unsettled(db), r)| < 1_000 && db.runs[r].auto == auto
            && db.runs[r].status == Queued
  }

  lemma {:induction false} OnlySorted(db: Db, order: seq<RunId>, keep: set<RunId>)
    requires InAgeOrder(db, order) && forall r :: r in order ==> r < |db.runs|
    ensures InAgeOrder(db, Only(order, keep))
  {
    if order != [] {
      var rest := Only(order[1..], keep);
      assert order[0] in order && forall r :: r in order[1..] ==> r in order;
      OnlySorted(db, order[1..], keep);
      forall k | 0 <= k < |rest| ensures rest[k] < |db.runs| && NotAfter(db, order[0], rest[k]) {
        assert rest[k] in order[1..];
        HeadIsFirst(db, order, rest[k]);
      }
      if order[0] in keep { HeadSorted(db, order[0], rest); } else { assert [] + rest == rest; }
    }
  }

  lemma HeadIsFirst(db: Db, order: seq<RunId>, r: RunId)
    requires InAgeOrder(db, order) && order != [] && r in order[1..]
    ensures order[0] < |db.runs| && r < |db.runs| && NotAfter(db, order[0], r)
  {
    var j :| 0 <= j < |order[1..]| && order[1..][j] == r;
    assert order[j + 1] == r;
  }

  lemma HeadSorted(db: Db, x: RunId, t: seq<RunId>)
    requires InAgeOrder(db, t) && x < |db.runs|
    requires forall k :: 0 <= k < |t| ==> t[k] < |db.runs| && NotAfter(db, x, t[k])
    ensures InAgeOrder(db, [x] + t)
  {
    forall i, j | 0 <= i < j < |[x] + t| ensures ([x] + t)[i] < |db.runs| && ([x] + t)[j] < |db.runs| &&
                                                 NotAfter(db, ([x] + t)[i], ([x] + t)[j]) {
      assert ([x] + t)[j] == t[j - 1];
      if i > 0 { assert ([x] + t)[i] == t[i - 1]; }
    }
  }

  /** How many queued runs of one Automation a restart resumes at most. */
  function Resumable(policy: Policy): nat {
    if policy.mode == ParallelWithLimit && policy.limit > 1 then policy.limit else 1
  }

  lemma QueueSorted(db: Db, auto: AutomationId)
    ensures var order := QueueRead(db, auto);
            Distinct(order) && InAgeOrder(db, order) && forall r :: r in order <==> r in ReadQueue(db, auto)
  {
    ByAgeSorted(db, Incomplete(db));
    assert Distinct(ReadRuns(db)) && InAgeOrder(db, ReadRuns(db));
    OnlyDistinct(ReadRuns(db), QueuedRuns(db, auto));
    forall r | r in ReadRuns(db) ensures r < |db.runs| { ReadExactly(db, r); }
    OnlySorted(db, ReadRuns(db), QueuedRuns(db, auto));
    forall r ensures r in QueueRead(db, auto) <==> r in ReadQueue(db, auto) { ReadExactly(db, r); }
  }

  /** A restart resumes a queued run exactly if it reads it and its definition, this one is active, and fewer runs of
      its Automation than the policy lets in at once are read before it. */
  lemma ResumesExactly(db: Db, run: RunId, listed: set<AutomationId>)
    requires run < |db.runs|
    ensures var auto := db.runs[run].auto;
            Resumes(db, run, listed) <==>
            && auto in listed && auto in db.defs && db.defs[auto].status == Active && run in ReadQueue(db, auto)
            && |Ahead(db, ReadQueue(db, auto), run)| < Resumable(db.defs[auto].policy)
  {
    var auto := db.runs[run].auto;
    var order := QueueRead(db, auto);
    QueueSorted(db, auto);
    if auto in db.defs {
      assert ResumeLimit(db.defs[auto].policy) == Resumable(db.defs[auto].policy);
      FirstAre(db, order, ReadQueue(db, auto), Resumable(db.defs[auto].policy), run);
    }
  }

  /** A restart keeps the definitions, loses every coroutine and every caller, blocks exactly the running runs that it
      reads, and makes one coroutine for each run that it resumes. */
  lemma RestartDecides(s: Sys, listed: set<AutomationId>, run: RunId)
    requires Enabled(s, Restart(listed)) && WellFormed(s) && run < |s.db.runs|
    ensures var s' := Next(s, Restart(listed));
            && s'.db.defs == s.db.defs && |s'.db.runs| == |s.db.runs|
            && (s'.db.runs[run].status ==
                  if s.db.runs[run].status == Running && |Ahead(s.db, Unsettled(s.db), run)| < 1_000 then RunBlocked
                  else s.db.runs[run].status)
            && (s'.scheduled[run] == if Resumes(s.db, run, listed) then 1 else 0)
            && s'.executing == multiset{} && s'.closing == multiset{} && s'.held == map[]
  {
    RestartBlocks(s, listed, run);
    ReadExactly(s.db, run);
    RestartedWell(s, listed, s.db.runs[run].auto);
  }

  /** The definitions it reads: none that is deleted, and every other one as long as there are at most ten thousand. */
  lemma ListsExactly(s: Sys, listed: set<AutomationId>)
    ensures var alive := set a | a in s.db.defs && s.db.defs[a].status != Deleted;
            Enabled(s, Restart(listed)) <==> listed <= alive && (|alive| <= 10_000 ==> alive <= listed)
  {
    var alive := set a | a in s.db.defs && s.db.defs[a].status != Deleted;
    assert alive == set a | a in s.db.defs && Alive(s.db, a);
  }
}
