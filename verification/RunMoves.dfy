/** What each move of the engine does to one Automation, exactly. */
module RunMoves {
  import opened AutomationFacts
  import opened RunSets
  import opened RunSlices
  import opened RunViews
  import opened RunSafety

  // ---- what a trace has to respect for the Automation under study ---------------------------

  /** The policies its definition is given are serial; every other Automation may do as it likes. */
  predicate KeepsSerial(m: Move, auto: AutomationId) {
    match m
    case Admin(CreateDefinition(a, _, policy, _, _, _)) => a == auto ==> SerialPolicy(policy)
    case Admin(UpdateDefinition(a, _, edit, _)) => a == auto && edit.policy.Some? ==> SerialPolicy(edit.policy.value)
    case _ => true
  }

  predicate HasSerial(db: Db, auto: AutomationId) {
    auto in db.defs ==> SerialPolicy(db.defs[auto].policy)
  }

  ghost predicate Inv(s: Sys, auto: AutomationId) {
    WellFormed(s) && HasSerial(s.db, auto) && Serial(ViewOf(s, auto))
  }

  /** No lost wake-up: while a living definition has runs that are here to stay, there is a coroutine
      that carries one of them or is about to look for one, or a caller about to submit one. */
  ghost predicate Awake(s: Sys, auto: AutomationId) {
    Alive(s.db, auto) && Rows(ViewOf(s, auto)) != {} ==> Manned(ViewOf(s, auto))
  }

  /** Runs that are here to stay, and nobody to start them. */
  ghost predicate Stuck(s: Sys, auto: AutomationId) {
    Dormant(ViewOf(s, auto)) && Rows(ViewOf(s, auto)) != {}
  }

  // ---- the moves that take something away ---------------------------------------------------

  /** Running runs that a restart does not get to. */
  ghost function Overlooked(db: Db, auto: AutomationId): set<RunId> {
    RunningRuns(db, auto) - set r | r in ReadRuns(db)
  }

  /** A restart resumes a queued run of this Automation: its definition is read and active then, and
      so is the run. */
  ghost predicate Resumed(db: Db, auto: AutomationId, listed: set<AutomationId>) {
    auto in listed && auto in db.defs && db.defs[auto].status == Active && QueueRead(db, auto) != []
  }

  /** A restart leaves nobody waiting. */
  ghost predicate Resumable(db: Db, auto: AutomationId, listed: set<AutomationId>) {
    Alive(db, auto) && QueuedRuns(db, auto) + Overlooked(db, auto) != {} ==> Resumed(db, auto, listed)
  }

  /** A coroutine carries this run, or a caller is about to submit it. */
  predicate Expected(s: Sys, auto: AutomationId, r: RunId) {
    Carried(s, auto, r) || (Of(s.db.runs, auto, r) && r in s.held && s.held[r] == Submit)
  }

  /** A move that breaks the invariant: a row whose caller will submit it where there is a coroutine or a
      running run already, the mark of a rejected row that a drain has taken up, the missed-run branch
      on a run that is carried or about to be, an exception after completion with an attempt left, and
      a restart that resumes a run beside one it does not get to settle. */
  ghost predicate Breaks(s: Sys, m: Move, auto: AutomationId) {
    match m
    case Insert(a, snapshot, occurrence, _, counted) =>
      && a == auto && Admissible(s.db, auto, snapshot, occurrence)
      && Admit(snapshot.policy, counted) == Submit && !Idle(ViewOf(s, auto))
    case Conclude(run) => Enabled(s, m) && s.held[run] == Reject && Carried(s, auto, run)
    case MissedSkip(a, snapshot, occurrence, _) =>
      && a == auto && snapshot.status == Active && HasOccurrence(s.db, auto, occurrence)
      && Expected(s, auto, RunOf(s.db, auto, occurrence))
    case RaisesLate(run, _) => Enabled(s, m) && s.db.runs[run].auto == auto
    case Restart(listed) => Enabled(s, m) && Resumed(s.db, auto, listed) && Overlooked(s.db, auto) != {}
    case _ => false
  }

  /** A move that loses the wake-up: a row left to wait where there is nobody, a set-up that raises, and a
      restart that does not resume. */
  ghost predicate Lulls(s: Sys, m: Move, auto: AutomationId) {
    match m
    case Insert(a, snapshot, occurrence, _, counted) =>
      && a == auto && Admissible(s.db, auto, snapshot, occurrence) && Alive(s.db, auto)
      && Admit(snapshot.policy, counted) == Enqueue && !Manned(ViewOf(s, auto))
    case SetupFails(run) =>
      Enabled(s, m) && s.db.runs[run].auto == auto && Alive(s.db, auto) && Rows(ViewOf(s, auto)) != {}
    case Restart(listed) => Enabled(s, m) && !Resumable(s.db, auto, listed)
    case _ => false
  }

  /** A move that can end a wait without coroutine: a submission, the missed-run branch on an occurrence that
      has a run, and a restart. */
  ghost predicate Rescues(s: Sys, m: Move, auto: AutomationId) {
    match m
    case Insert(a, snapshot, _, _, counted) => a == auto && Admit(snapshot.policy, counted) == Submit
    case MissedSkip(a, snapshot, occurrence, _) => a == auto && HasOccurrence(s.db, auto, occurrence)
    case Restart(_) => true
    case _ => false
  }

  /** What one move keeps. */
  ghost predicate Kept(s: Sys, s': Sys, auto: AutomationId) {
    && Inv(s', auto)
    && (Awake(s, auto) ==> Awake(s', auto))
    && (Stuck(s, auto) ==> Stuck(s', auto))
  }

  /** Exactly what a move keeps: the invariant unless the move breaks it, then the wake-up unless the
      move loses it, and a wait without coroutine unless the move may end it. */
  ghost predicate Exactly(s: Sys, s': Sys, m: Move, auto: AutomationId) {
    && (Inv(s', auto) <==> !Breaks(s, m, auto))
    && (!Breaks(s, m, auto) && Awake(s, auto) ==> (Awake(s', auto) <==> !Lulls(s, m, auto)))
    && (!Breaks(s, m, auto) && !Rescues(s, m, auto) && Stuck(s, auto) ==> Stuck(s', auto))
  }

  // ---- one lemma per move -------------------------------------------------------------------

  /** A view that did not change, in a state whose definition did not come to life. */
  lemma SameView(s: Sys, s': Sys, auto: AutomationId)
    requires Inv(s, auto) && WellFormed(s') && HasSerial(s'.db, auto)
    requires ViewOf(s', auto) == ViewOf(s, auto)
    requires Alive(s'.db, auto) ==> Alive(s.db, auto) || Rows(ViewOf(s, auto)) == {}
    ensures Kept(s, s', auto)
  {
  }

  lemma NewRun(s: Sys, auto: AutomationId)
    requires WellFormed(s)
    ensures Unknown(ViewOf(s, auto), |s.db.runs|)
  {
  }

  /** A new row, as every Automation sees it. */
  lemma InsertedView(s: Sys, auto: AutomationId, snapshot: Definition, occurrence: string, now: int, verdict: Verdict,
                     other: AutomationId)
    requires WellFormed(s) && Admissible(s.db, auto, snapshot, occurrence)
    ensures var s', v := Inserted(s, auto, snapshot, occurrence, now, verdict), ViewOf(s, other);
            && WellFormed(s') && s'.db.defs == s.db.defs
            && ViewOf(s', other) == if auto != other then v else WithNew(v, |s.db.runs|, verdict)
  {
    GrownView(s, auto, snapshot.revision, occurrence, now, other);
    if verdict != Enqueue {
      HeldView(Grown(s, auto, snapshot.revision, occurrence, now), |s.db.runs|, verdict, other);
    }
  }

  /** An insertion under any verdict: when it breaks the invariant, and when it loses the wake-up. */
  lemma InsertionExactly(s: Sys, s': Sys, auto: AutomationId, verdict: Verdict)
    requires Inv(s, auto) && WellFormed(s') && s'.db.defs == s.db.defs
    requires ViewOf(s', auto) == WithNew(ViewOf(s, auto), |s.db.runs|, verdict)
    ensures Inv(s', auto) <==> !(verdict == Submit && !Idle(ViewOf(s, auto)))
    ensures Inv(s', auto) && Awake(s, auto) ==>
              (Awake(s', auto) <==> !(verdict == Enqueue && !Manned(ViewOf(s, auto)) && Alive(s.db, auto)))
    ensures verdict != Submit && Stuck(s, auto) ==> Stuck(s', auto)
  {
    NewRun(s, auto);
    NewExactly(ViewOf(s, auto), |s.db.runs|, verdict);
  }

  lemma NewExactly(v: View, n: RunId, verdict: Verdict)
    requires Serial(v) && Unknown(v, n)
    ensures var v' := WithNew(v, n, verdict);
            && (Serial(v') <==> verdict != Submit || Idle(v))
            && (Manned(v') <==> if verdict == Submit then Idle(v) else Manned(v))
            && Rows(v') == Rows(v) + (if verdict == Reject then {} else {n})
            && (verdict != Submit ==> (Dormant(v') <==> Dormant(v)))
  {
    if verdict == Submit { NewPromise(v, n); } else { NewWaiting(v, n, verdict); }
  }

  lemma NewPromise(v: View, n: RunId)
    requires Serial(v) && Unknown(v, n)
    ensures var v' := WithNew(v, n, Submit);
            (Serial(v') <==> Idle(v)) && (Manned(v') <==> Idle(v)) && Rows(v') == Rows(v) + {n}
  {
    PromiseView(v, n);
  }

  lemma NewWaiting(v: View, n: RunId, verdict: Verdict)
    requires Serial(v) && Unknown(v, n) && verdict != Submit
    ensures var v' := WithNew(v, n, verdict);
            && Serial(v') && (Manned(v') <==> Manned(v)) && (Dormant(v') <==> Dormant(v))
            && Rows(v') == Rows(v) + (if verdict == Reject then {} else {n})
  {
    WaitingView(v, n, verdict);
  }

  lemma InsertExactly(s: Sys, m: Move, auto: AutomationId)
    requires m.Insert? && Inv(s, auto)
    ensures Exactly(s, Next(s, m), m, auto)
  {
    var Insert(a, snapshot, occurrence, now, counted) := m;
    if !Admissible(s.db, a, snapshot, occurrence) {
      SameView(s, Next(s, m), auto);
    } else {
      InsertedView(s, a, snapshot, occurrence, now, Admit(snapshot.policy, counted), auto);
      if a == auto {
        InsertionExactly(s, Next(s, m), auto, Admit(snapshot.policy, counted));
      } else {
        SameView(s, Next(s, m), auto);
      }
    }
  }

  // ---- callers that conclude, and the missed-run branch ---------------------------------------

  lemma CarriedInView(s: Sys, auto: AutomationId, r: RunId)
    requires Inv(s, auto) && Of(s.db.runs, auto, r)
    ensures var v := ViewOf(s, auto);
            && (Carried(s, auto, r) <==> r in v.scheduled || r in v.executing)
            && (Expected(s, auto, r) <==> CountedOn(v, r))
            && (Expected(s, auto, r) ==> !Terminal(s.db.runs[r].status))
  {
    var v := ViewOf(s, auto);
    if Expected(s, auto, r) { SettledUnder(v, r, Skipped); }
  }

  /** What marking a run as skipped does to a view, if the run is not settled yet. */
  function SkippedIn(v: View, r: RunId, settled: bool): View {
    if settled then v else MovedIn(v, r, Skipped)
  }

  lemma SkippedFree(v: View, r: RunId, settled: bool)
    requires Serial(v) && !CountedOn(v, r) && (settled ==> r !in v.queued && r !in v.running)
    ensures var v' := SkippedIn(v, r, settled);
            && Serial(v') && (Manned(v) ==> Manned(v')) && (Dormant(v) ==> Dormant(v'))
            && Rows(v') == Rows(v) - {r} && r !in v'.queued && r !in v'.running && v'.held == v.held
  {
    if settled {
      assert r !in Rows(v) && Rows(v) - {r} == Rows(v);
    } else {
      SettledFree(v, r, Skipped);
      SkippedDormant(v, r);
    }
  }

  lemma SkippedDormant(v: View, r: RunId)
    ensures Dormant(v) ==> Dormant(MovedIn(v, r, Skipped))
  {
    var v' := MovedIn(v, r, Skipped);
    assert Promises(v') == Promises(v);
    assert v'.running == v.running - {r};
    Monotone(v'.running, v.running);
  }

  lemma SkippedView(s: Sys, auto: AutomationId, r: RunId)
    requires Inv(s, auto) && Of(s.db.runs, auto, r)
    ensures var settled, v := Terminal(s.db.runs[r].status), ViewOf(s, auto);
            && WellFormed(Moved(s, r, Skipped)) && ViewOf(Moved(s, r, Skipped), auto) == SkippedIn(v, r, settled)
            && (settled ==> r !in v.queued && r !in v.running)
  {
    MovedView(s, r, Skipped, auto);
  }

  /** Marking a run as skipped breaks the invariant exactly if somebody counts on the run. */
  lemma SkippedOnly(s: Sys, auto: AutomationId, r: RunId)
    requires Inv(s, auto) && Of(s.db.runs, auto, r)
    ensures Inv(Moved(s, r, Skipped), auto) <==> !Expected(s, auto, r)
    ensures !Expected(s, auto, r) && Awake(s, auto) ==> Awake(Moved(s, r, Skipped), auto)
  {
    SkippedView(s, auto, r);
    CarriedInView(s, auto, r);
    if Expected(s, auto, r) {
      SettledUnder(ViewOf(s, auto), r, Skipped);
    } else {
      SkippedFree(ViewOf(s, auto), r, Terminal(s.db.runs[r].status));
    }
  }

  /** The mark is made, and its caller is done. */
  lemma MarkedView(s: Sys, auto: AutomationId, run: RunId)
    requires Inv(s, auto) && Of(s.db.runs, auto, run) && run in s.held && s.held[run] == Reject
    ensures var v := ViewOf(s, auto);
            && WellFormed(Concluded(s, run)) && run in v.held && v.held[run] == Reject
            && ViewOf(Concluded(s, run), auto) ==
               var v1 := SkippedIn(v, run, Terminal(s.db.runs[run].status)); v1.(held := v1.held - {run})
  {
    SkippedView(s, auto, run);
    ReleasedView(Moved(s, run, Skipped), run, auto);
  }

  lemma MarkFree(v: View, r: RunId, settled: bool)
    requires Serial(v) && !CountedOn(v, r) && (settled ==> r !in v.queued && r !in v.running)
    requires r in v.held && v.held[r] == Reject
    ensures var v1 := SkippedIn(v, r, settled);
            var v' := v1.(held := v1.held - {r});
            && Serial(v') && (Manned(v) ==> Manned(v')) && (Dormant(v) ==> Dormant(v')) && Rows(v') == Rows(v)
  {
    SkippedFree(v, r, settled);
    ReleasedRows(SkippedIn(v, r, settled), r);
    RejectedIsNoRow(v, r);
  }

  lemma RejectedIsNoRow(v: View, r: RunId)
    requires r in v.held && v.held[r] == Reject
    ensures Rows(v) - {r} == Rows(v)
  {
    assert r in Rejected(v);
  }

  lemma MarkUnder(v: View, r: RunId)
    requires Serial(v) && CountedOn(v, r) && r in v.held && v.held[r] == Reject
    ensures var v1 := MovedIn(v, r, Skipped); !Serial(v1.(held := v1.held - {r}))
  {
    SettledUnder(v, r, Skipped);
    ReleasedRows(MovedIn(v, r, Skipped), r);
  }

  lemma MarkedOwn(s: Sys, auto: AutomationId, run: RunId)
    requires Inv(s, auto) && Of(s.db.runs, auto, run) && run in s.held && s.held[run] == Reject
    ensures Inv(Concluded(s, run), auto) <==> !Carried(s, auto, run)
    ensures !Carried(s, auto, run) ==> Kept(s, Concluded(s, run), auto)
  {
    MarkedView(s, auto, run);
    SkippedView(s, auto, run);
    CarriedInView(s, auto, run);
    if Carried(s, auto, run) {
      MarkUnder(ViewOf(s, auto), run);
    } else {
      MarkFree(ViewOf(s, auto), run, Terminal(s.db.runs[run].status));
    }
  }

  lemma ConcludedOther(s: Sys, auto: AutomationId, run: RunId)
    requires Inv(s, auto) && run < |s.db.runs| && s.db.runs[run].auto != auto && run in s.held
    ensures Kept(s, Concluded(s, run), auto)
  {
    if s.held[run] == Submit {
      ScheduledView(s, run, auto);
      ReleasedView(s.(scheduled := s.scheduled + multiset{run}), run, auto);
    } else {
      MovedView(s, run, Skipped, auto);
      ReleasedView(Moved(s, run, Skipped), run, auto);
    }
    SameView(s, Concluded(s, run), auto);
  }

  lemma SubmittedOwn(s: Sys, auto: AutomationId, run: RunId)
    requires Inv(s, auto) && Of(s.db.runs, auto, run) && run in s.held && s.held[run] == Submit
    ensures Kept(s, Concluded(s, run), auto)
  {
    ScheduledView(s, run, auto);
    ReleasedView(s.(scheduled := s.scheduled + multiset{run}), run, auto);
    KeptView(ViewOf(s, auto), run);
    MannedIsNotUnmanned(ViewOf(s, auto));
  }

  /** A submission always keeps its promise; the mark of a rejected row breaks the invariant exactly if a
      coroutine carries the row by now. */
  lemma ConcludeExactly(s: Sys, m: Move, auto: AutomationId)
    requires m.Conclude? && Enabled(s, m) && Inv(s, auto)
    ensures Exactly(s, Next(s, m), m, auto)
  {
    var run := m.run;
    if s.db.runs[run].auto != auto {
      ConcludedOther(s, auto, run);
    } else if s.held[run] == Submit {
      SubmittedOwn(s, auto, run);
    } else {
      MarkedOwn(s, auto, run);
    }
  }

  /** A row that is settled in the step that made it shows in no view. */
  lemma SkippedFresh(s: Sys, auto: AutomationId, revision: nat, occurrence: string, now: int, other: AutomationId)
    requires WellFormed(s) && auto in s.db.defs
    ensures var s' := Moved(Grown(s, auto, revision, occurrence, now), |s.db.runs|, Skipped);
            WellFormed(s') && ViewOf(s', other) == ViewOf(s, other)
  {
    var n, v := |s.db.runs|, ViewOf(s, other);
    GrownView(s, auto, revision, occurrence, now, other);
    MovedView(Grown(s, auto, revision, occurrence, now), n, Skipped, other);
    NewRun(s, other);
    assert v.queued + {n} - {n} + {} == v.queued;
    assert v.running - {n} + {} == v.running;
  }

  lemma MissedOnExisting(s: Sys, auto: AutomationId, snapshot: Definition, occurrence: string, now: int)
    requires Inv(s, auto) && snapshot.status == Active && HasOccurrence(s.db, auto, occurrence)
    ensures var s' := MissedSkipped(s, auto, snapshot, occurrence, now);
            var expected := Expected(s, auto, RunOf(s.db, auto, occurrence));
            && (Inv(s', auto) <==> !expected)
            && (!expected && Awake(s, auto) ==> Awake(s', auto))
  {
    SkippedOnly(s, auto, RunOf(s.db, auto, occurrence));
  }

  lemma MissedElsewhere(s: Sys, a: AutomationId, snapshot: Definition, occurrence: string, now: int, auto: AutomationId)
    requires Inv(s, auto) && (a != auto || !HasOccurrence(s.db, a, occurrence) || snapshot.status != Active)
    ensures Kept(s, MissedSkipped(s, a, snapshot, occurrence, now), auto)
  {
    if snapshot.status == Active {
      if HasOccurrence(s.db, a, occurrence) {
        MovedView(s, RunOf(s.db, a, occurrence), Skipped, auto);
      } else if a in s.db.defs {
        SkippedFresh(s, a, snapshot.revision, occurrence, now, auto);
      }
    }
    SameView(s, MissedSkipped(s, a, snapshot, occurrence, now), auto);
  }

  /** The missed-run branch keeps the invariant exactly if nobody counts on the run of the occurrence; a
      fresh occurrence has none. */
  lemma MissedSkipExactly(s: Sys, m: Move, auto: AutomationId)
    requires m.MissedSkip? && Inv(s, auto)
    ensures Exactly(s, Next(s, m), m, auto)
  {
    var MissedSkip(a, snapshot, occurrence, now) := m;
    if a == auto && snapshot.status == Active && HasOccurrence(s.db, auto, occurrence) {
      MissedOnExisting(s, auto, snapshot, occurrence, now);
    } else {
      MissedElsewhere(s, a, snapshot, occurrence, now, auto);
    }
  }

  // ---- the coroutine ------------------------------------------------------------------------------

  /** Taking up a queued run, as every Automation sees it. */
  lemma ExecutedView(s: Sys, run: RunId, ready: set<RunId>, other: AutomationId)
    requires WellFormed(s) && run < |s.db.runs|
    ensures var s', v, auto := Executed(s, run, ready), ViewOf(s, other), s.db.runs[run].auto;
            && WellFormed(s') && s'.db.defs == s.db.defs
            && (other != auto || !Alive(s.db, auto) ==> ViewOf(s', other) == v)
            && (other == auto && Alive(s.db, auto) && run in v.queued ==>
                  ViewOf(s', other) == TakenUp(v, run, Ready(s.db, auto, run, ready)))
  {
    var auto := s.db.runs[run].auto;
    if Alive(s.db, auto) {
      if Ready(s.db, auto, run, ready) {
        MovedView(s, run, Running, other);
        EnteredView(Moved(s, run, Running), run, other);
      } else {
        MovedView(s, run, RunBlocked, other);
        ClosingView(Moved(s, run, RunBlocked), run, other);
      }
    }
  }

  /** From an idle Automation, taking up a queued run leaves exactly its coroutine, unless the definition is gone. */
  lemma ExecutedLands(s: Sys, run: RunId, ready: set<RunId>)
    requires WellFormed(s) && run < |s.db.runs|
    requires var v := ViewOf(s, s.db.runs[run].auto); Idle(v) && Serial(v) && run in v.queued
    ensures var auto, s' := s.db.runs[run].auto, Executed(s, run, ready);
            && WellFormed(s') && s'.db.defs == s.db.defs && Serial(ViewOf(s', auto))
            && (Alive(s.db, auto) ==> Manned(ViewOf(s', auto)))
  {
    var auto := s.db.runs[run].auto;
    ExecutedView(s, run, ready, auto);
    if Alive(s.db, auto) { TakenUpView(ViewOf(s, auto), run, Ready(s.db, auto, run, ready)); }
  }

  /** Where there was a coroutine, everything is kept as long as there is one, or no run that is here to stay. */
  lemma Lands(s: Sys, s': Sys, auto: AutomationId)
    requires Inv(s, auto) && Manned(ViewOf(s, auto))
    requires WellFormed(s') && HasSerial(s'.db, auto) && Serial(ViewOf(s', auto))
    requires Alive(s'.db, auto) ==> Manned(ViewOf(s', auto)) || Rows(ViewOf(s', auto)) == {}
    ensures Kept(s, s', auto)
  {
    MannedIsNotUnmanned(ViewOf(s, auto));
  }

  lemma StartedOwn(s: Sys, run: RunId, ready: set<RunId>, auto: AutomationId)
    requires Inv(s, auto) && Of(s.db.runs, auto, run) && run in s.scheduled
    ensures Kept(s, Executed(s.(scheduled := s.scheduled - multiset{run}), run, ready), auto)
  {
    var s1 := s.(scheduled := s.scheduled - multiset{run});
    UnscheduledView(s, run, auto);
    assert run in ViewOf(s, auto).scheduled;
    BegunView(ViewOf(s, auto), run);
    ExecutedLands(s1, run, ready);
    Lands(s, Executed(s1, run, ready), auto);
  }

  lemma StartKeeps(s: Sys, m: Move, auto: AutomationId)
    requires m.Start? && Enabled(s, m) && Inv(s, auto)
    ensures Kept(s, Next(s, m), auto)
  {
    var Start(run, ready) := m;
    if s.db.runs[run].auto == auto {
      StartedOwn(s, run, ready, auto);
    } else {
      UnscheduledView(s, run, auto);
      ExecutedView(s.(scheduled := s.scheduled - multiset{run}), run, ready, auto);
      SameView(s, Next(s, m), auto);
    }
  }

  lemma ClosedOwn(s: Sys, run: RunId, auto: AutomationId)
    requires Inv(s, auto) && Of(s.db.runs, auto, run) && run in s.closing
    ensures var v, v1 := ViewOf(s, auto), ViewOf(Closed(s, run), auto);
            && WellFormed(Closed(s, run)) && Manned(v) && Idle(v1) && Serial(v1) && run !in v1.queued
            && RunningRuns(s.db, auto) == {} && v1.queued == QueuedRuns(s.db, auto)
  {
    var v := ViewOf(s, auto);
    assert run in v.closing;
    ClosedView(s, run, auto);
    ClosedIdle(v, run);
    assert RunningRuns(s.db, auto) == v.running;
  }

  lemma DrainedOwn(s: Sys, run: RunId, ready: set<RunId>, auto: AutomationId)
    requires Inv(s, auto) && Of(s.db.runs, auto, run) && run in s.closing
    ensures Kept(s, Drained(s, run, ready), auto)
  {
    ClosedOwn(s, run, auto);
    if Others(s.db, run) != {} {
      var next := Oldest(s.db, Others(s.db, run));
      assert next in QueuedRuns(s.db, auto);
      ExecutedLands(Closed(s, run), next, ready);
    } else {
      assert ViewOf(Closed(s, run), auto).queued == {};
      assert Rows(ViewOf(Closed(s, run), auto)) == {};
    }
    Lands(s, Drained(s, run, ready), auto);
  }

  lemma DrainedOther(s: Sys, run: RunId, ready: set<RunId>, auto: AutomationId)
    requires Inv(s, auto) && run < |s.db.runs| && s.db.runs[run].auto != auto && run in s.closing
    ensures Kept(s, Drained(s, run, ready), auto)
  {
    ClosedView(s, run, auto);
    if RunningRuns(s.db, s.db.runs[run].auto) == {} && Others(s.db, run) != {} {
      var next := Oldest(s.db, Others(s.db, run));
      assert next in QueuedRuns(s.db, s.db.runs[run].auto);
      ExecutedView(Closed(s, run), next, ready, auto);
    }
    SameView(s, Drained(s, run, ready), auto);
  }

  /** A drain keeps everything: it takes up the oldest other queued run, or there is none to wait. */
  lemma DrainKeeps(s: Sys, m: Move, auto: AutomationId)
    requires m.Drain? && Enabled(s, m) && Inv(s, auto)
    ensures Kept(s, Next(s, m), auto)
  {
    if s.db.runs[m.run].auto == auto {
      DrainedOwn(s, m.run, m.ready, auto);
    } else {
      DrainedOther(s, m.run, m.ready, auto);
    }
  }

  /** A status and perhaps a pause, as every Automation sees it. */
  lemma StoppedView(s: Sys, run: RunId, status: RunStatus, stop: bool, other: AutomationId)
    requires WellFormed(s) && run < |s.db.runs|
    ensures var s' := s.(db := Stopped(WithRunStatus(s.db, run, status), s.db.runs[run].auto, stop));
            && WellFormed(s') && ViewOf(s', other) == ViewOf(Moved(s, run, status), other)
            && (Alive(s'.db, other) <==> Alive(s.db, other)) && (HasSerial(s.db, other) ==> HasSerial(s'.db, other))
  {
    var s1 := Moved(s, run, status);
    var s' := s.(db := Stopped(s1.db, s.db.runs[run].auto, stop));
    MovedView(s, run, status, other);
    assert s'.db.log != s1.db.log ==> s'.db.log == s1.db.log + [DefinitionStatus(s.db.runs[run].auto, Paused)];
    DefinitionsView(s1, s', other);
  }

  lemma SettledViews(s: Sys, run: RunId, ok: bool, stop: bool, other: AutomationId)
    requires WellFormed(s) && run < |s.db.runs| && run in s.executing
    ensures var s', status := Settled(s, run, ok, stop), if ok then Completed else Failed;
            && WellFormed(s') && (Alive(s'.db, other) <==> Alive(s.db, other))
            && (HasSerial(s.db, other) ==> HasSerial(s'.db, other))
            && ViewOf(s', other) ==
               var v1 := ViewOf(Moved(s, run, status), other);
               if s.db.runs[run].auto != other then v1
               else v1.(executing := Drop(v1.executing, run), closing := Bump(v1.closing, run))
  {
    var status := if ok then Completed else Failed;
    var s1 := s.(db := Stopped(WithRunStatus(s.db, run, status), s.db.runs[run].auto, ok && stop));
    StoppedView(s, run, status, ok && stop, other);
    LeftView(s1, run, other);
    ClosingView(s1.(executing := s1.executing - multiset{run}), run, other);
  }

  lemma SettledOwn(s: Sys, run: RunId, ok: bool, stop: bool, auto: AutomationId)
    requires Inv(s, auto) && Of(s.db.runs, auto, run) && run in s.executing
    ensures Kept(s, Settled(s, run, ok, stop), auto)
  {
    var v, status := ViewOf(s, auto), if ok then Completed else Failed;
    SettledViews(s, run, ok, stop, auto);
    MovedView(s, run, status, auto);
    assert run in v.executing;
    SettledView(v, run, status);
    Lands(s, Settled(s, run, ok, stop), auto);
  }

  lemma SettleKeeps(s: Sys, m: Move, auto: AutomationId)
    requires m.Settle? && Enabled(s, m) && Inv(s, auto)
    ensures Kept(s, Next(s, m), auto)
  {
    var Settle(run, ok, stop) := m;
    if s.db.runs[run].auto == auto {
      SettledOwn(s, run, ok, stop, auto);
    } else {
      SettledViews(s, run, ok, stop, auto);
      MovedView(s, run, if ok then Completed else Failed, auto);
      SameView(s, Next(s, m), auto);
    }
  }

  /** An exception after completion, with an attempt left, breaks the invariant of its Automation. */
  lemma RaisesLateExactly(s: Sys, m: Move, auto: AutomationId)
    requires m.RaisesLate? && Enabled(s, m) && Inv(s, auto)
    ensures Exactly(s, Next(s, m), m, auto)
  {
    var RaisesLate(run, paused) := m;
    StoppedView(s, run, Completed, paused, auto);
    MovedView(s, run, Completed, auto);
    if s.db.runs[run].auto == auto {
      assert run in ViewOf(s, auto).executing;
      SettledUnder(ViewOf(s, auto), run, Completed);
    } else {
      SameView(s, Next(s, m), auto);
    }
  }

  /** A failed set-up keeps everything except the promise of a wake-up. */
  lemma SetupFailsExactly(s: Sys, m: Move, auto: AutomationId)
    requires m.SetupFails? && Enabled(s, m) && Inv(s, auto)
    ensures Exactly(s, Next(s, m), m, auto)
  {
    var run := m.run;
    var s1 := s.(executing := s.executing - multiset{run});
    LeftView(s, run, auto);
    if s.db.runs[run].auto == auto {
      SetupFailsOwn(s, run, auto);
    } else {
      ClosingView(s1, run, auto);
      SameView(s, Next(s, m), auto);
    }
  }

  lemma SetupFailsOwn(s: Sys, run: RunId, auto: AutomationId)
    requires Inv(s, auto) && Of(s.db.runs, auto, run) && run in s.executing
    ensures var s' := SetupFailed(s, run);
            && s'.db == s.db && Inv(s', auto) && Dormant(ViewOf(s', auto)) && !Manned(ViewOf(s', auto))
            && Rows(ViewOf(s', auto)) == Rows(ViewOf(s, auto)) && !Dormant(ViewOf(s, auto))
  {
    var v := ViewOf(s, auto);
    assert run in v.executing;
    LeftView(s, run, auto);
    AbandonedView(v, run);
    assert run in v.running;
    MannedIsNotUnmanned(v);
    MannedIsNotUnmanned(v.(executing := Drop(v.executing, run)));
    assert Rejected(v.(executing := Drop(v.executing, run))) == Rejected(v);
  }

  // ---- definitions --------------------------------------------------------------------------------

  /** Definition calls leave the run table alone and log no run event. */
  lemma AdminRows(db: Db, op: StoreOp)
    requires !op.CreateRun? && !op.UpdateRun?
    ensures var db' := Apply(db, op);
            && db'.runs == db.runs && db.defs.Keys <= db'.defs.Keys
            && (db'.log == db.log || exists e: Event :: db'.log == db.log + [e] && !e.RunEvent?)
  {
    var db' := Apply(db, op);
    if db'.log != db.log {
      assert db'.log == db.log + [db'.log[|db.log|]];
    }
  }

  lemma AdminFacts(db: Db, op: StoreOp, auto: AutomationId)
    requires !op.CreateRun? && !op.UpdateRun? && KeepsSerial(Admin(op), auto) && HasSerial(db, auto)
    ensures var db' := Apply(db, op);
            HasSerial(db', auto) && (Alive(db', auto) ==> Alive(db, auto) || auto !in db.defs)
  {
  }

  lemma NoRuns(s: Sys, auto: AutomationId)
    requires WellFormed(s) && auto !in s.db.defs
    ensures Rows(ViewOf(s, auto)) == {}
  {
  }

  lemma AdminKeeps(s: Sys, m: Move, auto: AutomationId)
    requires m.Admin? && Enabled(s, m) && KeepsSerial(m, auto) && Inv(s, auto)
    ensures Kept(s, Next(s, m), auto)
  {
    AdminFacts(s.db, m.op, auto);
    AdminRows(s.db, m.op);
    DefinitionsView(s, Next(s, m), auto);
    if auto !in s.db.defs { NoRuns(s, auto); }
    SameView(s, Next(s, m), auto);
  }

  // ---- restart ------------------------------------------------------------------------------

  lemma RestOfSet(order: seq<RunId>)
    requires order != []
    ensures (set r | r in order) == {order[0]} + set r | r in order[1..]
  {
  }

  lemma LessRunning(running: set<RunId>, run: RunId, rest: set<RunId>, all: set<RunId>)
    requires all == {run} + rest
    ensures running - {run} + {} - rest == running - all
    ensures run !in running ==> running - rest == running - all
  {
  }

  lemma {:induction false} BlockEachView(s: Sys, order: seq<RunId>, auto: AutomationId)
    requires WellFormed(s) && forall i :: 0 <= i < |order| ==>
             order[i] < |s.db.runs| && s.db.runs[order[i]].status != Queued
    ensures var s', v := s.(db := BlockEach(s.db, order)), ViewOf(s, auto);
            && WellFormed(s') && s'.db.defs == s.db.defs && |s'.db.runs| == |s.db.runs|
            && ViewOf(s', auto) == v.(running := v.running - set r | r in order)
    decreases order
  {
    var v := ViewOf(s, auto);
    if order == [] {
      assert v.running - {} == v.running;
    } else {
      var run := order[0];
      var s1 := Moved(s, run, RunBlocked);
      MovedView(s, run, RunBlocked, auto);
      RestOfSet(order);
      assert v.queued - {run} + {} == v.queued;
      assert s.db.runs[run].auto != auto || Terminal(s.db.runs[run].status) ==> run !in v.running;
      BlockEachView(s1, order[1..], auto);
      LessRunning(v.running, run, set r | r in order[1..], set r | r in order);
    }
  }

  lemma {:induction false} BlockKeepsAutos(db: Db, order: seq<RunId>)
    requires forall i :: 0 <= i < |order| ==> order[i] < |db.runs|
    ensures |BlockEach(db, order).runs| == |db.runs|
    ensures forall r: RunId :: r < |db.runs| ==> BlockEach(db, order).runs[r].auto == db.runs[r].auto
    decreases order
  {
    if order != [] { BlockKeepsAutos(WithRunStatus(db, order[0], RunBlocked), order[1..]); }
  }

  lemma FirstOfOne(s: seq<RunId>)
    requires s != []
    ensures FirstOf(s, 1) == [s[0]]
  {
  }

  /** Under a serial policy a restart resumes exactly the oldest queued run it reads. */
  lemma ResumesOldest(db: Db, auto: AutomationId, r: RunId, listed: set<AutomationId>)
    requires auto in db.defs && SerialPolicy(db.defs[auto].policy)
    requires Of(db.runs, auto, r)
    ensures Resumes(db, r, listed) <==> Resumed(db, auto, listed) && r == QueueRead(db, auto)[0]
  {
    if QueueRead(db, auto) != [] { FirstOfOne(QueueRead(db, auto)); }
  }

  ghost function ResumedIn(db: Db, auto: AutomationId, listed: set<AutomationId>): map<RunId, nat> {
    if Resumed(db, auto, listed) then map[QueueRead(db, auto)[0] := 1] else map[]
  }

  lemma ResumedView(db: Db, runs: seq<Run>, auto: AutomationId, listed: set<AutomationId>)
    requires HasSerial(db, auto)
    requires forall r: RunId :: r < |db.runs| ==> db.runs[r].auto in db.defs
    requires |runs| == |db.runs| && forall r: RunId :: r < |runs| ==> runs[r].auto == db.runs[r].auto
    ensures Counted(runs, auto, multiset(set r: RunId | r < |db.runs| && Resumes(db, r, listed))) ==
            ResumedIn(db, auto, listed)
  {
    var resumed := multiset(set r: RunId | r < |db.runs| && Resumes(db, r, listed));
    forall r: RunId | Of(runs, auto, r) ensures resumed[r] == if r in ResumedIn(db, auto, listed) then 1 else 0 {
      ResumesOldest(db, auto, r, listed);
    }
    if Resumed(db, auto, listed) {
      assert QueueRead(db, auto)[0] in QueueRead(db, auto);
    }
  }

  /** After a restart only overlooked runs are running, and under a serial policy the oldest queued run
      that was read, if it is resumed, has the only coroutine. */
  lemma RestartView(s: Sys, auto: AutomationId, listed: set<AutomationId>)
    requires Inv(s, auto)
    ensures var s', v := Restarted(s, listed), ViewOf(s, auto);
            && WellFormed(s') && s'.db.defs == s.db.defs
            && ViewOf(s', auto) == View(v.queued, Overlooked(s.db, auto), ResumedIn(s.db, auto, listed), map[], map[],
              map[], v.begun)
  {
    var order := Only(ReadRuns(s.db), Interrupted(s.db));
    assert forall i :: 0 <= i < |order| ==> order[i] in order;
    var db := BlockEach(s.db, order);
    BlockEachView(s, order, auto);
    BlockKeepsAutos(s.db, order);
    ResumedView(s.db, db.runs, auto, listed);
    LeftRunning(s.db, order, auto);
    RestartedParts(s, db, listed);
    ViewWithout(s, db, multiset(set r: RunId | r < |s.db.runs| && Resumes(s.db, r, listed)), auto);
  }

  /** The view of the blocked database with new coroutines and no callers. */
  lemma ViewWithout(s: Sys, db: Db, resumed: multiset<RunId>, auto: AutomationId)
    requires WellFormed(s.(db := db)) && |db.runs| == |s.db.runs|
    requires forall r: RunId :: r >= |db.runs| ==> resumed[r] == 0
    ensures WellFormed(Sys(db, resumed, multiset{}, multiset{}, map[]))
    ensures var v := ViewOf(s.(db := db), auto);
            ViewOf(Sys(db, resumed, multiset{}, multiset{}, map[]), auto) ==
              View(v.queued, v.running, Counted(db.runs, auto, resumed), map[], map[], map[], v.begun)
  {
  }

  lemma LeftRunning(db: Db, order: seq<RunId>, auto: AutomationId)
    requires order == Only(ReadRuns(db), Interrupted(db))
    ensures RunningRuns(db, auto) - (set r | r in order) == Overlooked(db, auto)
  {
  }

  lemma RestartedParts(s: Sys, db: Db, listed: set<AutomationId>)
    requires db == BlockInterrupted(s.db)
    ensures Restarted(s, listed) ==
            Sys(db, multiset(set r: RunId | r < |s.db.runs| && Resumes(s.db, r, listed)), multiset{}, multiset{}, map[])
  {
  }

  lemma ResumedOne(db: Db, auto: AutomationId, listed: set<AutomationId>)
    ensures var resumed := ResumedIn(db, auto, listed);
            && (resumed == map[] || exists t :: t in QueuedRuns(db, auto) && resumed == map[t := 1])
            && (resumed != map[] <==> Resumed(db, auto, listed))
  {
    if Resumed(db, auto, listed) {
      var t := QueueRead(db, auto)[0];
      assert t in QueueRead(db, auto);
      assert t in QueuedRuns(db, auto) && ResumedIn(db, auto, listed) == map[t := 1];
      assert t in ResumedIn(db, auto, listed);
    }
  }

  /** A restart breaks the invariant exactly if it resumes a run beside one it overlooks; otherwise it
      wakes the Automation exactly if it leaves nobody waiting. */
  lemma RestartKeeps(s: Sys, auto: AutomationId, listed: set<AutomationId>)
    requires Inv(s, auto)
    ensures Inv(Restarted(s, listed), auto) <==> !(Resumed(s.db, auto, listed) && Overlooked(s.db, auto) != {})
    ensures Inv(Restarted(s, listed), auto) ==> (Awake(Restarted(s, listed), auto) <==> Resumable(s.db, auto, listed))
  {
    RestartView(s, auto, listed);
    ResumedOne(s.db, auto, listed);
    RestartedView(ViewOf(s, auto), Overlooked(s.db, auto), ResumedIn(s.db, auto, listed));
  }

  /** With no more rows than a restart reads, it overlooks nothing, and it resumes exactly the queued runs
      of an active definition. */
  lemma AllRead(db: Db, auto: AutomationId, listed: set<AutomationId>)
    requires |Incomplete(db)| <= INCOMPLETE_LIMIT && Listing(db, listed)
    requires |set a | a in db.defs && Alive(db, a)| <= DEFINITION_LIMIT
    ensures Overlooked(db, auto) == {}
    ensures Resumable(db, auto, listed) <==>
            (Alive(db, auto) && QueuedRuns(db, auto) != {} ==> db.defs[auto].status == Active)
  {
    NoneOverlooked(db, auto);
    if QueuedRuns(db, auto) != {} {
      var t :| t in QueuedRuns(db, auto);
      assert t in Incomplete(db) && t in ReadRuns(db);
      assert t in QueueRead(db, auto);
    }
  }

  lemma NoneOverlooked(db: Db, auto: AutomationId)
    requires |Incomplete(db)| <= INCOMPLETE_LIMIT
    ensures ReadRuns(db) == ByAge(db, Incomplete(db)) && Overlooked(db, auto) == {}
  {
    assert ReadRuns(db) == ByAge(db, Incomplete(db));
    assert forall r :: r in RunningRuns(db, auto) ==> r in Incomplete(db);
  }

  // ---- every move keeps the tables in order ---------------------------------------------------------

  lemma ConcludedWell(s: Sys, run: RunId)
    requires WellFormed(s) && run < |s.db.runs| && run in s.held
    ensures WellFormed(Concluded(s, run))
  {
    var auto := s.db.runs[run].auto;
    if s.held[run] == Submit {
      ScheduledView(s, run, auto);
      ReleasedView(s.(scheduled := s.scheduled + multiset{run}), run, auto);
    } else {
      MovedView(s, run, Skipped, auto);
      ReleasedView(Moved(s, run, Skipped), run, auto);
    }
  }

  lemma MissedWell(s: Sys, a: AutomationId, snapshot: Definition, occurrence: string, now: int)
    requires WellFormed(s)
    ensures WellFormed(MissedSkipped(s, a, snapshot, occurrence, now))
  {
    if snapshot.status == Active {
      if HasOccurrence(s.db, a, occurrence) {
        MovedView(s, RunOf(s.db, a, occurrence), Skipped, a);
      } else if a in s.db.defs {
        SkippedFresh(s, a, snapshot.revision, occurrence, now, a);
      }
    }
  }

  lemma DrainedWell(s: Sys, run: RunId, ready: set<RunId>)
    requires WellFormed(s) && run < |s.db.runs| && run in s.closing
    ensures WellFormed(Drained(s, run, ready)) && Drained(s, run, ready).db.defs == s.db.defs
  {
    var auto := s.db.runs[run].auto;
    ClosedView(s, run, auto);
    if RunningRuns(s.db, auto) == {} && Others(s.db, run) != {} {
      var next := Oldest(s.db, Others(s.db, run));
      assert next in QueuedRuns(s.db, auto);
      ExecutedView(Closed(s, run), next, ready, auto);
    }
  }

  /** What a restart makes of the running runs of any Automation. */
  lemma RestartedWell(s: Sys, listed: set<AutomationId>, auto: AutomationId)
    requires WellFormed(s)
    ensures var s' := Restarted(s, listed);
            && WellFormed(s') && s'.db.defs == s.db.defs && |s'.db.runs| == |s.db.runs|
            && RunningRuns(s'.db, auto) == Overlooked(s.db, auto) && QueuedRuns(s'.db, auto) == QueuedRuns(s.db, auto)
            && (forall r: RunId :: r < |s.db.runs| ==> s'.db.runs[r].auto == s.db.runs[r].auto)
  {
    var order := Only(ReadRuns(s.db), Interrupted(s.db));
    assert forall i :: 0 <= i < |order| ==> order[i] in order;
    var db := BlockEach(s.db, order);
    BlockEachView(s, order, auto);
    BlockKeepsAutos(s.db, order);
    LeftRunning(s.db, order, auto);
    RestartedParts(s, db, listed);
    var resumed := multiset(set r: RunId | r < |s.db.runs| && Resumes(s.db, r, listed));
    ViewWithout(s, db, resumed, auto);
    assert RunningRuns(db, auto) == ViewOf(s.(db := db), auto).running;
    assert QueuedRuns(db, auto) == ViewOf(s.(db := db), auto).queued;
  }

  lemma NextWellFormed(s: Sys, m: Move)
    requires WellFormed(s)
    ensures WellFormed(Next(s, m))
  {
    if Enabled(s, m) {
      match m
      case Insert(auto, snapshot, occurrence, now, counted) =>
        if Admissible(s.db, auto, snapshot, occurrence) {
          InsertedView(s, auto, snapshot, occurrence, now, Admit(snapshot.policy, counted), auto);
        }
      case Conclude(run) => ConcludedWell(s, run);
      case MissedSkip(auto, snapshot, occurrence, now) => MissedWell(s, auto, snapshot, occurrence, now);
      case Admin(op) =>
        AdminRows(s.db, op);
        DefinitionsView(s, Next(s, m), "");
      case Restart(listed) => RestartedWell(s, listed, "");
      case _ => TurnWellFormed(s, m);
    }
  }

  lemma TurnWellFormed(s: Sys, m: Move)
    requires WellFormed(s) && Enabled(s, m)
    requires m.Start? || m.Settle? || m.Drain? || m.RaisesLate? || m.SetupFails?
    ensures WellFormed(Next(s, m))
  {
    match m
    case Start(run, ready) =>
      UnscheduledView(s, run, "");
      ExecutedView(s.(scheduled := s.scheduled - multiset{run}), run, ready, "");
    case Settle(run, ok, stop) => SettledViews(s, run, ok, stop, "");
    case Drain(run, ready) => DrainedWell(s, run, ready);
    case RaisesLate(run, paused) => StoppedView(s, run, Completed, paused, "");
    case SetupFails(run) =>
      LeftView(s, run, "");
      ClosingView(s.(executing := s.executing - multiset{run}), run, "");
  }
}
