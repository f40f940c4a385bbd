/** Where the promises of the engine end: callers in other threads, the missed-run branch on a run in
    flight, and exceptions after completion, each with a trace that reaches it from an empty Node. */
module RunTraces {
  import opened AutomationFacts
  import opened RunSets
  import opened RunSlices
  import opened RunViews
  import opened RunSafety
  import opened RunMoves
  import opened RunTheorems
  import opened RunBounds
  import opened RunWakeups

  // ---- which counts are harmless --------------------------------------------------------------------

  ghost predicate Well(s: Sys, auto: AutomationId, bound: nat) {
    Inv(s, auto) && Awake(s, auto) && Bounded(s, auto, bound)
  }

  lemma RowsStand(s: Sys, auto: AutomationId)
    requires WellFormed(s)
    ensures Rows(ViewOf(s, auto)) == Standing(s, auto)
  {
    var v := ViewOf(s, auto);
    assert forall r :: r in ActiveRuns(s.db, auto) ==> (r in Rejected(v) <==> r in Marking(s));
  }

  /** `_prepare_run` is not atomic against the event loop or another thread: whatever the caller counted,
      and whenever. Where all is well under a serial policy, its insertion keeps all well if and only if the
      row is rejected, or is to be submitted where there is no coroutine and no running run, or waits
      behind somebody with room for it. */
  lemma StaleCountExactly(s: Sys, auto: AutomationId, snapshot: Definition, occurrence: string, now: int, counted: nat)
    requires Well(s, auto, Bound(snapshot.policy)) && Alive(s.db, auto)
    requires SerialPolicy(snapshot.policy) && Admissible(s.db, auto, snapshot, occurrence)
    ensures var verdict, v := Admit(snapshot.policy, counted), ViewOf(s, auto);
            Well(Inserted(s, auto, snapshot, occurrence, now, verdict), auto, Bound(snapshot.policy)) <==>
            (|| verdict == Reject
             || (verdict == Submit && Idle(v))
             || (verdict == Enqueue && Manned(v) && |Standing(s, auto)| < 2))
  {
    var verdict, v := Admit(snapshot.policy, counted), ViewOf(s, auto);
    var s' := Inserted(s, auto, snapshot, occurrence, now, verdict);
    InsertedView(s, auto, snapshot, occurrence, now, verdict, auto);
    InsertionExactly(s, s', auto, verdict);
    InsertedStanding(s, auto, snapshot, occurrence, now, verdict, auto);
    RowsStand(s, auto);
    IdleStands(s, auto);
  }

  /** Where all is well, an Automation without coroutine has no run that is here to stay. */
  lemma IdleStands(s: Sys, auto: AutomationId)
    requires Inv(s, auto) && Awake(s, auto) && Alive(s.db, auto)
    ensures Idle(ViewOf(s, auto)) ==> Standing(s, auto) == {}
  {
    RowsStand(s, auto);
    MannedIsNotUnmanned(ViewOf(s, auto));
  }

  /** A verdict under the count of the moment is harmless, unless it is to submit and a coroutine is between
      settling its run and looking for the next one. */
  lemma CountedNow(v: View, policy: Policy)
    requires Serial(v) && SerialPolicy(policy)
    ensures Admit(policy, |v.queued + v.running|) == Submit ==> (Idle(v) <==> v.closing == map[])
  {
    if Admit(policy, |v.queued + v.running|) == Submit {
      assert v.queued + v.running == {};
      assert v.queued == {} && v.running == {};
      if t :| Owns(v, t) || Promised(v, t) { assert t in v.closing; }
    }
  }

  // ---- traces from an empty Node ------------------------------------------------------------

  /** The definition these traces create. */
  function Def(policy: Policy): Definition {
    Definition("key", Active, 1, policy, true, map[], "")
  }

  function Request(a: AutomationId, policy: Policy, occurrence: string, counted: nat): Move {
    Insert(a, Def(policy), occurrence, 0, counted)
  }

  /** A definition is created, and a first run is requested. */
  function First(a: AutomationId, policy: Policy): seq<Move> {
    [Admin(StoreOp.CreateDefinition(a, "key", policy, true, map[], false))] + [Request(a, policy, "1", 0)] +
      [Conclude(0)]
  }

  /** One definition and its runs, and who does what. */
  ghost predicate Stands(s: Sys, a: AutomationId, policy: Policy, runs: seq<Run>, scheduled: multiset<RunId>,
                         executing: multiset<RunId>, closing: multiset<RunId>, held: map<RunId, Verdict>) {
    && s.db.defs == map[a := Def(policy)] && s.db.runs == runs
    && s.scheduled == scheduled && s.executing == executing && s.closing == closing && s.held == held
  }

  function RunAt(a: AutomationId, occurrence: string, status: RunStatus): Run {
    Run(a, occurrence, status, 0, 1)
  }

  /** A row is inserted under some verdict. */
  lemma Inserts(s: Sys, a: AutomationId, policy: Policy, occurrence: string, counted: nat)
    requires s.db.defs == map[a := Def(policy)] && forall r :: 0 <= r < |s.db.runs| ==>
             s.db.runs[r].occurrence != occurrence
    ensures var s', n, verdict := Next(s, Request(a, policy, occurrence, counted)), |s.db.runs|, Admit(policy, counted);
            && Stands(s', a, policy, s.db.runs + [RunAt(a, occurrence, Queued)], s.scheduled, s.executing, s.closing,
                      if verdict == Enqueue then s.held else s.held[n := verdict])
            && s'.db.log == s.db.log + [RunEvent(a, n, Queued)]
  {
    assert !HasOccurrence(s.db, a, occurrence);
  }

  lemma Other(c: char, d: char)
    requires c != d
    ensures [c] != [d]
  {
    assert [c][0] == c && [d][0] == d;
  }

  lemma Created(a: AutomationId, policy: Policy)
    ensures Stands(Trace(IDLE_NODE, First(a, policy)[..1]), a, policy, [], multiset{}, multiset{}, multiset{}, map[])
    ensures Trace(IDLE_NODE, First(a, policy)[..1]).db.log == [DefinitionCreated(a)]
  {
    var m := First(a, policy)[0];
    assert First(a, policy)[..1] == [] + [m];
    TraceStep(IDLE_NODE, [], m);
  }

  /** Under a parallel limit below one, which lets nobody in, even a request that counts now leaves a row that
      nobody comes for, until its mark. */
  lemma NobodyGetsIn(a: AutomationId, policy: Policy)
    requires policy.mode == ParallelWithLimit && ParallelLimit(policy) < 1
    ensures var s := Trace(IDLE_NODE, First(a, policy)[..2]);
            Alive(s.db, a) && ActiveRuns(s.db, a) == {0} && !Attended(s, a)
  {
    var ms := First(a, policy);
    Created(a, policy);
    assert ms[..2] == ms[..1] + [ms[1]];
    TraceStep(IDLE_NODE, ms[..1], ms[1]);
    Inserts(Trace(IDLE_NODE, ms[..1]), a, policy, "1", 0);
    var s := Trace(IDLE_NODE, ms[..2]);
    assert s.db.runs == [RunAt(a, "1", Queued)] && s.held == map[0 := Reject];
  }

  /** Any policy that admits a run into an empty Automation submits the first one. */
  lemma FirstSubmitted(a: AutomationId, policy: Policy)
    requires Admit(policy, 0) == Submit
    ensures var s := Trace(IDLE_NODE, First(a, policy));
            && Stands(s, a, policy, [RunAt(a, "1", Queued)], multiset{0}, multiset{}, multiset{}, map[])
            && s.db.log == [DefinitionCreated(a)] + [RunEvent(a, 0, Queued)]
  {
    var ms := First(a, policy);
    Created(a, policy);
    assert ms[..2] == ms[..1] + [ms[1]] && ms == ms[..2] + [ms[2]];
    TraceStep(IDLE_NODE, ms[..1], ms[1]);
    Inserts(Trace(IDLE_NODE, ms[..1]), a, policy, "1", 0);
    TraceStep(IDLE_NODE, ms[..2], ms[2]);
    assert map[0 as nat := Submit] - {0} == map[];
  }

  /** A second row is inserted and submitted beside whatever goes on. */
  lemma SubmitsSecond(s: Sys, a: AutomationId, policy: Policy, n: RunId, occurrence: string)
    requires s.db.defs == map[a := Def(policy)] && |s.db.runs| == n && s.held == map[] && Admit(policy, 0) == Submit
    requires forall r :: 0 <= r < n ==> s.db.runs[r].occurrence != occurrence
    requires exists r :: 0 <= r < n && Manning(s, a, r)
    ensures !OneCoroutine(Next(Next(s, Request(a, policy, occurrence, 0)), Conclude(n)), a)
  {
    var r :| 0 <= r < n && Manning(s, a, r);
    Inserts(s, a, policy, occurrence, 0);
    var s' := Next(Next(s, Request(a, policy, occurrence, 0)), Conclude(n));
    assert Manning(s', a, r) && Manning(s', a, n);
  }

  /** Two threads that both counted nothing both submit, whatever the policy. */
  lemma BothCountNothing(a: AutomationId, policy: Policy)
    requires Admit(policy, 0) == Submit
    ensures !OneCoroutine(Trace(IDLE_NODE, First(a, policy) + [Request(a, policy, "2", 0)] + [Conclude(1)]), a)
  {
    var ms := First(a, policy);
    FirstSubmitted(a, policy);
    Other('1', '2');
    TraceStep(IDLE_NODE, ms, Request(a, policy, "2", 0));
    TraceStep(IDLE_NODE, ms + [Request(a, policy, "2", 0)], Conclude(1));
    assert Manning(Trace(IDLE_NODE, ms), a, 0);
    SubmitsSecond(Trace(IDLE_NODE, ms), a, policy, 1, "2");
  }

  lemma SkipsFirst(s: Sys, a: AutomationId, policy: Policy)
    requires Stands(s, a, policy, [RunAt(a, "1", Queued)], multiset{0}, multiset{}, multiset{}, map[])
    ensures Stands(Next(s, MissedSkip(a, Def(policy), "1", 0)), a, policy, [RunAt(a, "1", Skipped)],
                   multiset{0}, multiset{}, multiset{}, map[])
  {
    assert IsOccurrence(s.db, a, "1", 0);
    assert RunOf(s.db, a, "1") == 0;
    assert WithRunStatus(s.db, 0, Skipped).runs == [RunAt(a, "1", Skipped)];
  }

  /** The missed-run branch on the occurrence of a submitted run settles it under its coroutine, and the next
      request counts nothing and is admitted beside it. */
  lemma MissedSkipInFlight(a: AutomationId, policy: Policy)
    requires Admit(policy, 0) == Submit
    ensures !OneCoroutine(Trace(IDLE_NODE, First(a, policy) + [MissedSkip(a, Def(policy), "1", 0)] +
                                           [Request(a, policy, "2", 0)] + [Conclude(1)]), a)
  {
    var ms, m := First(a, policy), MissedSkip(a, Def(policy), "1", 0);
    FirstSubmitted(a, policy);
    TraceStep(IDLE_NODE, ms, m);
    SkipsFirst(Trace(IDLE_NODE, ms), a, policy);
    Other('1', '2');
    TraceStep(IDLE_NODE, ms + [m], Request(a, policy, "2", 0));
    TraceStep(IDLE_NODE, ms + [m] + [Request(a, policy, "2", 0)], Conclude(1));
    assert Manning(Trace(IDLE_NODE, ms + [m]), a, 0);
    SubmitsSecond(Trace(IDLE_NODE, ms + [m]), a, policy, 1, "2");
  }

  function Started(a: AutomationId, policy: Policy): seq<Move> {
    First(a, policy) + [Start(0, {0})]
  }

  lemma FirstStarted(a: AutomationId, policy: Policy)
    requires Admit(policy, 0) == Submit
    ensures Stands(Trace(IDLE_NODE, Started(a, policy)), a, policy, [RunAt(a, "1", Running)],
                   multiset{}, multiset{0}, multiset{}, map[])
  {
    FirstSubmitted(a, policy);
    TraceStep(IDLE_NODE, First(a, policy), Start(0, {0}));
    var s := Trace(IDLE_NODE, First(a, policy));
    assert Ready(s.db, a, 0, {0});
    assert WithRunStatus(s.db, 0, Running).runs == [RunAt(a, "1", Running)];
    assert multiset{0} - multiset{0} == multiset{};
  }

  /** An exception after completion leaves the coroutine of a settled run to its next attempt, and the next
      request counts nothing and is admitted beside it. */
  lemma RaisesLateInFlight(a: AutomationId, policy: Policy)
    requires Admit(policy, 0) == Submit
    ensures !OneCoroutine(Trace(IDLE_NODE, Started(a, policy) + [RaisesLate(0, false)] +
                                           [Request(a, policy, "2", 0)] + [Conclude(1)]), a)
  {
    var ms, m := Started(a, policy), RaisesLate(0, false);
    FirstStarted(a, policy);
    TraceStep(IDLE_NODE, ms, m);
    FirstRaises(Trace(IDLE_NODE, ms), a, policy);
    Other('1', '2');
    TraceStep(IDLE_NODE, ms + [m], Request(a, policy, "2", 0));
    TraceStep(IDLE_NODE, ms + [m] + [Request(a, policy, "2", 0)], Conclude(1));
    assert Manning(Trace(IDLE_NODE, ms + [m]), a, 0);
    SubmitsSecond(Trace(IDLE_NODE, ms + [m]), a, policy, 1, "2");
  }

  lemma FirstRaises(s: Sys, a: AutomationId, policy: Policy)
    requires Stands(s, a, policy, [RunAt(a, "1", Running)], multiset{}, multiset{0}, multiset{}, map[])
    ensures Stands(Next(s, RaisesLate(0, false)), a, policy, [RunAt(a, "1", Completed)],
                   multiset{}, multiset{0}, multiset{}, map[])
  {
    assert WithRunStatus(s.db, 0, Completed).runs == [RunAt(a, "1", Completed)];
  }

  /** The first run is completed, and its coroutine has still to drain. */
  lemma FirstSettles(s: Sys, a: AutomationId, policy: Policy, rest: seq<Run>, held: map<RunId, Verdict>)
    requires Stands(s, a, policy, [RunAt(a, "1", Running)] + rest, multiset{}, multiset{0}, multiset{}, held)
    ensures Stands(Next(s, Settle(0, true, false)), a, policy, [RunAt(a, "1", Completed)] + rest,
                   multiset{}, multiset{}, multiset{0}, held)
  {
    assert WithRunStatus(s.db, 0, Completed).runs == [RunAt(a, "1", Completed)] + rest;
    assert multiset{0} - multiset{0} == multiset{};
  }

  /** In `queue-one`, a run that was counted finishes and drains before the new row is inserted: that one
      waits for nobody. */
  lemma LateBehindNobody(a: AutomationId, policy: Policy)
    requires policy.mode == QueueOne
    ensures Stuck(Trace(IDLE_NODE, Closing(a, policy) + [Drain(0, {})] + [Request(a, policy, "2", 1)]), a)
  {
    var ms := Closing(a, policy);
    FirstCloses(a, policy);
    TraceStep(IDLE_NODE, ms, Drain(0, {}));
    DrainsNothing(Trace(IDLE_NODE, ms), a, policy);
    var ms1 := ms + [Drain(0, {})];
    TraceStep(IDLE_NODE, ms1, Request(a, policy, "2", 1));
    Other('1', '2');
    Inserts(Trace(IDLE_NODE, ms1), a, policy, "2", 1);
    SecondWaits(Trace(IDLE_NODE, ms1 + [Request(a, policy, "2", 1)]), a, policy);
  }

  lemma DrainsNothing(s: Sys, a: AutomationId, policy: Policy)
    requires Stands(s, a, policy, [RunAt(a, "1", Completed)], multiset{}, multiset{}, multiset{0}, map[])
    ensures Stands(Next(s, Drain(0, {})), a, policy, [RunAt(a, "1", Completed)], multiset{}, multiset{}, multiset{},
            map[])
  {
    assert Others(s.db, 0) == {};
    assert multiset{0} - multiset{0} == multiset{};
  }

  lemma SecondWaits(s: Sys, a: AutomationId, policy: Policy)
    requires Stands(s, a, policy, [RunAt(a, "1", Completed)] + [RunAt(a, "2", Queued)],
                    multiset{}, multiset{}, multiset{}, map[])
    ensures Stuck(s, a)
  {
    var v := ViewOf(s, a);
    assert s.db.runs[1] == RunAt(a, "2", Queued);
    assert 1 in v.queued && v.running == {} && v.held == map[];
    assert Promises(v) == {} && 1 in Rows(v);
  }

  /** A drain takes up the one queued run there is. */
  lemma DrainsSecond(s: Sys, a: AutomationId, policy: Policy, held: map<RunId, Verdict>)
    requires Stands(s, a, policy, [RunAt(a, "1", Completed)] + [RunAt(a, "2", Queued)],
                    multiset{}, multiset{}, multiset{0}, held)
    ensures Stands(Next(s, Drain(0, {1})), a, policy, [RunAt(a, "1", Completed)] + [RunAt(a, "2", Running)],
                   multiset{}, multiset{1}, multiset{}, held)
  {
    assert s.db.runs[1] == RunAt(a, "2", Queued);
    assert RunningRuns(s.db, a) == {};
    assert Others(s.db, 0) == {1};
    assert Oldest(s.db, {1}) == 1;
    assert Ready(s.db, a, 1, {1});
    assert WithRunStatus(s.db, 1, Running).runs == [RunAt(a, "1", Completed)] + [RunAt(a, "2", Running)];
    assert multiset{0} - multiset{0} == multiset{};
    assert multiset{} + multiset{1} == multiset{1};
  }

  /** The moves up to a row inserted under some count while the first run executes, which then ends and drains
      into that row. */
  function DrainedInto(a: AutomationId, policy: Policy, counted: nat): seq<Move> {
    Started(a, policy) + [Request(a, policy, "2", counted)] + [Settle(0, true, false)] + [Drain(0, {1})]
  }

  lemma RejectedIsDrained(a: AutomationId, policy: Policy, counted: nat)
    requires Admit(policy, 0) == Submit && Admit(policy, counted) == Reject
    ensures Stands(Trace(IDLE_NODE, DrainedInto(a, policy, counted)), a, policy,
                   [RunAt(a, "1", Completed)] + [RunAt(a, "2", Running)], multiset{}, multiset{1}, multiset{},
                   map[1 := Reject])
  {
    var ms := Started(a, policy);
    FirstStarted(a, policy);
    TraceStep(IDLE_NODE, ms, Request(a, policy, "2", counted));
    Other('1', '2');
    Inserts(Trace(IDLE_NODE, ms), a, policy, "2", counted);
    var ms1 := ms + [Request(a, policy, "2", counted)];
    assert map[][1 as nat := Reject] == map[1 := Reject];
    TraceStep(IDLE_NODE, ms1, Settle(0, true, false));
    FirstSettles(Trace(IDLE_NODE, ms1), a, policy, [RunAt(a, "2", Queued)], map[1 := Reject]);
    var ms2 := ms1 + [Settle(0, true, false)];
    TraceStep(IDLE_NODE, ms2, Drain(0, {1}));
    DrainsSecond(Trace(IDLE_NODE, ms2), a, policy, map[1 := Reject]);
  }

  lemma MarksSecond(s: Sys, a: AutomationId, policy: Policy)
    requires Stands(s, a, policy, [RunAt(a, "1", Completed)] + [RunAt(a, "2", Running)],
                    multiset{}, multiset{1}, multiset{}, map[1 := Reject])
    ensures Stands(Next(s, Conclude(1)), a, policy, [RunAt(a, "1", Completed)] + [RunAt(a, "2", Skipped)],
                   multiset{}, multiset{1}, multiset{}, map[])
  {
    assert s.db.runs[1] == RunAt(a, "2", Running);
    assert WithRunStatus(s.db, 1, Skipped).runs == [RunAt(a, "1", Completed)] + [RunAt(a, "2", Skipped)];
    assert map[1 as nat := Reject] - {1} == map[];
  }

  /** A rejected row is a queued row until its caller marks it. If the run it was rejected for ends before
      that, the drain starts the row; the mark then skips it under its coroutine, and the next request
      counts nothing and is admitted beside it. */
  lemma RejectedInFlight(a: AutomationId, policy: Policy, counted: nat)
    requires Admit(policy, 0) == Submit && Admit(policy, counted) == Reject
    ensures !OneCoroutine(Trace(IDLE_NODE, DrainedInto(a, policy, counted) + [Conclude(1)] +
                                           [Request(a, policy, "3", 0)] + [Conclude(2)]), a)
  {
    var ms := DrainedInto(a, policy, counted);
    RejectedIsDrained(a, policy, counted);
    TraceStep(IDLE_NODE, ms, Conclude(1));
    MarksSecond(Trace(IDLE_NODE, ms), a, policy);
    var ms1 := ms + [Conclude(1)];
    Other('1', '3');
    Other('2', '3');
    TraceStep(IDLE_NODE, ms1, Request(a, policy, "3", 0));
    TraceStep(IDLE_NODE, ms1 + [Request(a, policy, "3", 0)], Conclude(2));
    ManningSecond(Trace(IDLE_NODE, ms1), a, policy, Skipped);
    SubmitsSecond(Trace(IDLE_NODE, ms1), a, policy, 2, "3");
  }

  lemma ManningSecond(s: Sys, a: AutomationId, policy: Policy, status: RunStatus)
    requires Stands(s, a, policy, [RunAt(a, "1", Completed)] + [RunAt(a, "2", status)],
                    multiset{}, multiset{1}, multiset{}, map[])
    ensures Manning(s, a, 1) && s.db.runs[0].occurrence == "1" && s.db.runs[1].occurrence == "2"
  {
    assert s.db.runs[1] == RunAt(a, "2", status);
  }

  /** The moves up to the end of the first run, with its coroutine about to drain. */
  function Closing(a: AutomationId, policy: Policy): seq<Move> {
    Started(a, policy) + [Settle(0, true, false)]
  }

  lemma FirstCloses(a: AutomationId, policy: Policy)
    requires Admit(policy, 0) == Submit
    ensures Stands(Trace(IDLE_NODE, Closing(a, policy)), a, policy, [RunAt(a, "1", Completed)],
                   multiset{}, multiset{}, multiset{0}, map[])
  {
    FirstStarted(a, policy);
    TraceStep(IDLE_NODE, Started(a, policy), Settle(0, true, false));
    assert [RunAt(a, "1", Running)] + [] == [RunAt(a, "1", Running)];
    FirstSettles(Trace(IDLE_NODE, Started(a, policy)), a, policy, [], map[]);
    assert [RunAt(a, "1", Completed)] + [] == [RunAt(a, "1", Completed)];
  }

  lemma SecondPromised(s: Sys, a: AutomationId, policy: Policy)
    requires Admit(policy, 0) == Submit
    requires Stands(s, a, policy, [RunAt(a, "1", Completed)], multiset{}, multiset{}, multiset{0}, map[])
    ensures Stands(Next(s, Request(a, policy, "2", 0)), a, policy, [RunAt(a, "1", Completed)] + [RunAt(a, "2", Queued)],
                   multiset{}, multiset{}, multiset{0}, map[1 := Submit])
    ensures ActiveRuns(s.db, a) == {}
  {
    assert s.db.runs[0] == RunAt(a, "1", Completed);
    Other('1', '2');
    Inserts(s, a, policy, "2", 0);
    assert map[][1 as nat := Submit] == map[1 := Submit];
  }

  /** A request that falls between the end of a turn and its drain counts nothing, as there is nothing: the
      drain starts its row, and its caller submits it all the same. */
  lemma SubmittedWhileClosing(a: AutomationId, policy: Policy)
    requires Admit(policy, 0) == Submit
    ensures var s := Trace(IDLE_NODE, Closing(a, policy) + [Request(a, policy, "2", 0)] + [Drain(0, {1})] +
                                      [Conclude(1)]);
            s.scheduled[1] == 1 && s.executing[1] == 1 && !OneCoroutine(s, a)
    ensures ActiveRuns(Trace(IDLE_NODE, Closing(a, policy)).db, a) == {}
  {
    var ms := Closing(a, policy);
    FirstCloses(a, policy);
    TraceStep(IDLE_NODE, ms, Request(a, policy, "2", 0));
    SecondPromised(Trace(IDLE_NODE, ms), a, policy);
    var ms2 := ms + [Request(a, policy, "2", 0)];
    TraceStep(IDLE_NODE, ms2, Drain(0, {1}));
    DrainsSecond(Trace(IDLE_NODE, ms2), a, policy, map[1 := Submit]);
    TraceStep(IDLE_NODE, ms2 + [Drain(0, {1})], Conclude(1));
    SubmitsAgain(Trace(IDLE_NODE, ms2 + [Drain(0, {1})]), a, policy);
  }

  lemma SubmitsAgain(s: Sys, a: AutomationId, policy: Policy)
    requires Stands(s, a, policy, [RunAt(a, "1", Completed)] + [RunAt(a, "2", Running)],
                    multiset{}, multiset{1}, multiset{}, map[1 := Submit])
    ensures var s' := Next(s, Conclude(1)); s'.scheduled[1] == 1 && s'.executing[1] == 1 && !OneCoroutine(s', a)
  {
    assert s.db.runs[1] == RunAt(a, "2", Running);
    assert Of(Next(s, Conclude(1)).db.runs, a, 1);
  }
}
