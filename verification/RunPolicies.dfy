/** Which policies keep one run at a time. */
module RunPolicies {
  import opened AutomationFacts
  import opened RunSets
  import opened RunSlices
  import opened RunViews
  import opened RunSafety
  import opened RunMoves
  import opened RunTheorems
  import opened RunAges
  import opened RunTraces

  /** Requests and edits of this Automation keep the policy. */
  predicate HoldsPolicy(m: Move, auto: AutomationId, policy: Policy) {
    match m
    case Admin(CreateDefinition(a, _, p, _, _, _)) => a == auto ==> p == policy
    case Admin(UpdateDefinition(a, _, edit, _)) => a == auto && edit.policy.Some? ==> edit.policy.value == policy
    case Insert(a, snapshot, _, _, _) => a == auto ==> snapshot.policy == policy
    case _ => true
  }

  /** Counts are those of the moment, and nobody is about to drain when a request is admitted on them; no
      rejected row is taken up before its mark, no run is skipped that somebody counts on, and nothing
      raises after completion. */
  ghost predicate Prompt(s: Sys, m: Move, auto: AutomationId) {
    match m
    case Insert(a, snapshot, _, _, counted) =>
      a == auto ==>
        && counted == |ActiveRuns(s.db, auto)|
        && (Admit(snapshot.policy, counted) == Submit ==> forall r :: Of(s.db.runs, auto, r) ==> r !in s.closing)
    case Conclude(run) => Enabled(s, m) && s.held[run] == Reject ==> !Carried(s, auto, run)
    case MissedSkip(a, _, occurrence, _) =>
      a == auto && HasOccurrence(s.db, auto, occurrence) ==> !Expected(s, auto, RunOf(s.db, auto, occurrence))
    case RaisesLate(run, _) => !Of(s.db.runs, auto, run)
    case _ => true
  }

  /** Every restart reads every unsettled run. */
  ghost predicate ReadsAll(moves: seq<Move>) {
    forall i :: 0 <= i < |moves| && moves[i].Restart? ==>
      |Incomplete(After(IDLE_NODE, moves, i).db)| <= INCOMPLETE_LIMIT
  }

  /** The clock never goes back. */
  ghost predicate ClockForward(moves: seq<Move>, auto: AutomationId) {
    forall i :: 0 <= i < |moves| ==> Forward(After(IDLE_NODE, moves, i), moves[i], auto)
  }

  ghost predicate Follows(moves: seq<Move>, auto: AutomationId, policy: Policy) {
    && (forall i :: 0 <= i < |moves| ==> HoldsPolicy(moves[i], auto, policy))
    && (forall i :: 0 <= i < |moves| ==> Prompt(After(IDLE_NODE, moves, i), moves[i], auto))
  }

  /** A trace under one policy of prompt moves, with few unsettled runs or a clock that never goes back. */
  ghost predicate Orderly(moves: seq<Move>, auto: AutomationId, policy: Policy) {
    Follows(moves, auto, policy) && (ReadsAll(moves) || ClockForward(moves, auto))
  }

  ghost predicate AlwaysOneCoroutine(auto: AutomationId, policy: Policy) {
    forall moves :: Orderly(moves, auto, policy) ==> OneCoroutine(Trace(IDLE_NODE, moves), auto)
  }

  ghost predicate AlwaysStartedOnce(auto: AutomationId, policy: Policy) {
    forall moves :: Orderly(moves, auto, policy) ==> StartedOnce(Trace(IDLE_NODE, moves), auto)
  }

  // ---- the safe policies ----------------------------------------------------------------------

  lemma NothingQueued(policy: Policy, active: set<RunId>)
    requires SerialPolicy(policy) && Admit(policy, |active|) == Submit
    ensures active == {}
  {
  }

  lemma PromptIsSafe(s: Sys, m: Move, auto: AutomationId, policy: Policy)
    requires Inv(s, auto) && HoldsPolicy(m, auto, policy) && SerialPolicy(policy) && Prompt(s, m, auto)
    ensures m.Restart? || !Breaks(s, m, auto)
    ensures Forward(s, m, auto) ==> Timely(s, m, auto)
  {
    if m.Insert? && m.auto == auto && Admit(policy, m.counted) == Submit {
      NothingQueued(policy, ActiveRuns(s.db, auto));
      CountedNow(ViewOf(s, auto), policy);
      assert ViewOf(s, auto).queued + ViewOf(s, auto).running == ActiveRuns(s.db, auto);
      assert ViewOf(s, auto).closing == map[];
    }
  }

  lemma ReadIsSafe(s: Sys, m: Move, auto: AutomationId)
    requires m.Restart? && |Incomplete(s.db)| <= INCOMPLETE_LIMIT
    ensures !Breaks(s, m, auto)
  {
    NoneOverlooked(s.db, auto);
  }

  lemma PromptKeeps(s: Sys, m: Move, auto: AutomationId)
    requires Inv(s, auto) && KeepsSerial(m, auto) && (m.Restart? || !Breaks(s, m, auto))
    requires (m.Restart? ==> |Incomplete(s.db)| <= INCOMPLETE_LIMIT) || (Timely(s, m, auto) && InOrder(s, auto))
    ensures Inv(Next(s, m), auto)
    ensures Timely(s, m, auto) && InOrder(s, auto) ==> InOrder(Next(s, m), auto)
  {
    if Timely(s, m, auto) && InOrder(s, auto) {
      StepInOrder(s, m, auto);
      if m.Restart? { RestartIsSafe(s, m, auto); }
    } else if m.Restart? {
      ReadIsSafe(s, m, auto);
    }
    Unbreaking(s, m, auto);
  }

  /** The invariant, and while the clock does not go back also the order of age. */
  ghost predicate Sound(s: Sys, auto: AutomationId, clocked: bool) {
    Inv(s, auto) && (clocked ==> InOrder(s, auto))
  }

  lemma SoundStart(auto: AutomationId, clocked: bool)
    ensures Sound(IDLE_NODE, auto, clocked)
  {
    NodeStartsIdle(auto);
  }

  lemma PromptStep(s: Sys, m: Move, auto: AutomationId, policy: Policy, clocked: bool)
    requires Sound(s, auto, clocked) && HoldsPolicy(m, auto, policy) && SerialPolicy(policy) && Prompt(s, m, auto)
    requires if clocked then Forward(s, m, auto) else m.Restart? ==> |Incomplete(s.db)| <= INCOMPLETE_LIMIT
    ensures Sound(Next(s, m), auto, clocked)
  {
    PromptIsSafe(s, m, auto, policy);
    PromptKeeps(s, m, auto);
  }

  /** Prompt moves keep both. */
  lemma {:induction false} OrderlyKeeps(moves: seq<Move>, i: nat, auto: AutomationId, policy: Policy, clocked: bool)
    requires Follows(moves, auto, policy) && SerialPolicy(policy) && i <= |moves|
    requires if clocked then ClockForward(moves, auto) else ReadsAll(moves)
    ensures Sound(After(IDLE_NODE, moves, i), auto, clocked)
  {
    if i == 0 {
      SoundStart(auto, clocked);
      AfterAll(IDLE_NODE, moves);
    } else {
      OrderlyKeeps(moves, i - 1, auto, policy, clocked);
      PromptStep(After(IDLE_NODE, moves, i - 1), moves[i - 1], auto, policy, clocked);
      AfterNext(IDLE_NODE, moves, i - 1);
    }
  }

  lemma SerialIsSafe(moves: seq<Move>, auto: AutomationId, policy: Policy)
    requires Orderly(moves, auto, policy) && SerialPolicy(policy)
    ensures OneCoroutine(Trace(IDLE_NODE, moves), auto) && StartedOnce(Trace(IDLE_NODE, moves), auto)
  {
    OrderlyKeeps(moves, |moves|, auto, policy, ClockForward(moves, auto));
    AfterAll(IDLE_NODE, moves);
    ViewReads(Trace(IDLE_NODE, moves), auto);
  }

  // ---- the others: a submitted run is started twice ---------------------------------------------

  const BOTH: set<RunId> := {0, 1}

  function TwoRuns(a: AutomationId, first: RunStatus, second: RunStatus): seq<Run> {
    [RunAt(a, "1", first)] + [RunAt(a, "2", second)]
  }

  /** Two requests are submitted; the first run starts and ends; the drain starts the second, which the
      event loop still has in hand; then that coroutine begins. */
  function Both(a: AutomationId, policy: Policy): seq<Move> {
    First(a, policy) + [Request(a, policy, "2", 1)] + [Conclude(1)]
  }

  function Ended(a: AutomationId, policy: Policy): seq<Move> {
    Both(a, policy) + [Start(0, BOTH)] + [Settle(0, true, false)]
  }

  function Twice(a: AutomationId, policy: Policy): seq<Move> {
    Ended(a, policy) + [Drain(0, BOTH)] + [Start(1, BOTH)]
  }

  /** `Stands`, and how often the second run was started. */
  ghost predicate InTwo(s: Sys, a: AutomationId, policy: Policy, first: RunStatus, second: RunStatus,
                        scheduled: multiset<RunId>, executing: multiset<RunId>, closing: multiset<RunId>,
                        starts: nat)
  {
    && Stands(s, a, policy, TwoRuns(a, first, second), scheduled, executing, closing, map[])
    && Starts(s.db.log, 1) == starts
  }

  lemma NeverStarted(a: AutomationId)
    ensures Starts([DefinitionCreated(a)] + [RunEvent(a, 0, Queued)] + [RunEvent(a, 1, Queued)], 1) == 0
  {
    assert Starts([], 1) == 0;
    StartsAppend([], DefinitionCreated(a), 1);
    assert [] + [DefinitionCreated(a)] == [DefinitionCreated(a)];
    StartsAppend([DefinitionCreated(a)], RunEvent(a, 0, Queued), 1);
    StartsAppend([DefinitionCreated(a)] + [RunEvent(a, 0, Queued)], RunEvent(a, 1, Queued), 1);
  }

  lemma FirstAlone(s: Sys, a: AutomationId, policy: Policy)
    requires Stands(s, a, policy, [RunAt(a, "1", Queued)], multiset{0}, multiset{}, multiset{}, map[])
    ensures |ActiveRuns(s.db, a)| == 1 && |s.db.runs| == 1
    ensures forall r :: 0 <= r < |s.db.runs| ==> s.db.runs[r].occurrence != "2"
  {
    Other('1', '2');
    assert s.db.runs[0] == RunAt(a, "1", Queued);
    assert ActiveRuns(s.db, a) == {0};
  }

  lemma SecondSubmitted(s: Sys, a: AutomationId, policy: Policy)
    requires policy.mode == ParallelWithLimit && ParallelLimit(policy) >= 2
    requires Stands(s, a, policy, [RunAt(a, "1", Queued)], multiset{0}, multiset{}, multiset{}, map[])
    ensures var s' := Next(Next(s, Request(a, policy, "2", 1)), Conclude(1));
            && Stands(s', a, policy, TwoRuns(a, Queued, Queued), multiset{0, 1}, multiset{}, multiset{}, map[])
            && s'.db.log == s.db.log + [RunEvent(a, 1, Queued)]
  {
    FirstAlone(s, a, policy);
    Inserts(s, a, policy, "2", 1);
    assert map[][1 as nat := Submit] == map[1 := Submit] && map[1 as nat := Submit] - {1} == map[];
  }

  lemma BothSubmitted(a: AutomationId, policy: Policy)
    requires policy.mode == ParallelWithLimit && ParallelLimit(policy) >= 2
    ensures InTwo(Trace(IDLE_NODE, Both(a, policy)), a, policy, Queued, Queued, multiset{0, 1}, multiset{}, multiset{},
            0)
  {
    var ms := First(a, policy);
    FirstSubmitted(a, policy);
    NeverStarted(a);
    TraceStep(IDLE_NODE, ms, Request(a, policy, "2", 1));
    SecondSubmitted(Trace(IDLE_NODE, ms), a, policy);
    TraceStep(IDLE_NODE, ms + [Request(a, policy, "2", 1)], Conclude(1));
  }

  lemma FirstTaken(s: Sys, a: AutomationId, policy: Policy)
    requires InTwo(s, a, policy, Queued, Queued, multiset{0, 1}, multiset{}, multiset{}, 0)
    ensures InTwo(Next(s, Start(0, BOTH)), a, policy, Running, Queued, multiset{1}, multiset{0}, multiset{}, 0)
  {
    assert s.db.runs[0] == RunAt(a, "1", Queued);
    assert Ready(s.db, a, 0, BOTH);
    assert WithRunStatus(s.db, 0, Running).runs == TwoRuns(a, Running, Queued);
    assert multiset{0, 1} - multiset{0} == multiset{1};
    StartsAppend(s.db.log, RunEvent(a, 0, Running), 1);
  }

  lemma FirstEnds(s: Sys, a: AutomationId, policy: Policy)
    requires InTwo(s, a, policy, Running, Queued, multiset{1}, multiset{0}, multiset{}, 0)
    ensures InTwo(Next(s, Settle(0, true, false)), a, policy, Completed, Queued, multiset{1}, multiset{}, multiset{0},
            0)
  {
    assert s.db.runs[0] == RunAt(a, "1", Running);
    assert WithRunStatus(s.db, 0, Completed).runs == TwoRuns(a, Completed, Queued);
    assert multiset{0} - multiset{0} == multiset{};
    StartsAppend(s.db.log, RunEvent(a, 0, Completed), 1);
  }

  lemma SecondDrained(s: Sys, a: AutomationId, policy: Policy)
    requires InTwo(s, a, policy, Completed, Queued, multiset{1}, multiset{}, multiset{0}, 0)
    ensures InTwo(Next(s, Drain(0, BOTH)), a, policy, Completed, Running, multiset{1}, multiset{1}, multiset{}, 1)
  {
    assert s.db.runs[1] == RunAt(a, "2", Queued);
    assert RunningRuns(s.db, a) == {};
    assert Others(s.db, 0) == {1};
    assert Oldest(s.db, {1}) == 1;
    assert Ready(s.db, a, 1, BOTH);
    assert WithRunStatus(s.db, 1, Running).runs == TwoRuns(a, Completed, Running);
    assert multiset{0} - multiset{0} == multiset{} && multiset{} + multiset{1} == multiset{1};
    StartsAppend(s.db.log, RunEvent(a, 1, Running), 1);
  }

  lemma SecondAgain(s: Sys, a: AutomationId, policy: Policy)
    requires InTwo(s, a, policy, Completed, Running, multiset{1}, multiset{1}, multiset{}, 1)
    ensures var s' := Next(s, Start(1, BOTH)); s'.executing[1] == 2 && Starts(s'.db.log, 1) == 2 && Of(s'.db.runs, a, 1)
  {
    assert s.db.runs[1] == RunAt(a, "2", Running);
    assert Ready(s.db, a, 1, BOTH);
    StartsAppend(s.db.log, RunEvent(a, 1, Running), 1);
  }

  lemma FirstEnded(a: AutomationId, policy: Policy)
    requires policy.mode == ParallelWithLimit && ParallelLimit(policy) >= 2
    ensures InTwo(Trace(IDLE_NODE, Ended(a, policy)), a, policy, Completed, Queued, multiset{1}, multiset{},
            multiset{0}, 0)
  {
    var ms := Both(a, policy);
    BothSubmitted(a, policy);
    TraceStep(IDLE_NODE, ms, Start(0, BOTH));
    FirstTaken(Trace(IDLE_NODE, ms), a, policy);
    TraceStep(IDLE_NODE, ms + [Start(0, BOTH)], Settle(0, true, false));
    FirstEnds(Trace(IDLE_NODE, ms + [Start(0, BOTH)]), a, policy);
  }

  /** Under a parallel limit of two or more, the drain and the coroutine of its own both start the run. */
  lemma ParallelStartsTwice(a: AutomationId, policy: Policy)
    requires policy.mode == ParallelWithLimit && ParallelLimit(policy) >= 2
    ensures var s := Trace(IDLE_NODE, Twice(a, policy)); !OneCoroutine(s, a) && !StartedOnce(s, a)
  {
    var ms := Ended(a, policy);
    FirstEnded(a, policy);
    TraceStep(IDLE_NODE, ms, Drain(0, BOTH));
    SecondDrained(Trace(IDLE_NODE, ms), a, policy);
    TraceStep(IDLE_NODE, ms + [Drain(0, BOTH)], Start(1, BOTH));
    SecondAgain(Trace(IDLE_NODE, ms + [Drain(0, BOTH)]), a, policy);
  }

  lemma FollowsStep(moves: seq<Move>, m: Move, auto: AutomationId, policy: Policy)
    requires Follows(moves, auto, policy) && HoldsPolicy(m, auto, policy) && Prompt(Trace(IDLE_NODE, moves), m, auto)
    ensures Follows(moves + [m], auto, policy)
  {
    forall i | 0 <= i <= |moves| ensures Prompt(After(IDLE_NODE, moves + [m], i), (moves + [m])[i], auto) {
      assert (moves + [m])[..i] == moves[..i];
      AfterAll(IDLE_NODE, moves);
    }
  }

  /** A request under the count of the moment, with nobody about to drain, and its submission. */
  lemma FollowsRequest(moves: seq<Move>, a: AutomationId, policy: Policy, occurrence: string, counted: nat)
    requires var s := Trace(IDLE_NODE, moves);
             && Follows(moves, a, policy) && |ActiveRuns(s.db, a)| == counted && s.closing == multiset{}
             && s.db.defs == map[a := Def(policy)] && Admit(policy, counted) == Submit
             && forall r :: 0 <= r < |s.db.runs| ==> s.db.runs[r].occurrence != occurrence
    ensures Follows(moves + [Request(a, policy, occurrence, counted)] + [Conclude(|Trace(IDLE_NODE, moves).db.runs|)],
            a, policy)
  {
    var s, m := Trace(IDLE_NODE, moves), Request(a, policy, occurrence, counted);
    FollowsStep(moves, m, a, policy);
    TraceStep(IDLE_NODE, moves, m);
    Inserts(s, a, policy, occurrence, counted);
    FollowsStep(moves + [m], Conclude(|s.db.runs|), a, policy);
  }

  lemma FirstFollows(a: AutomationId, policy: Policy)
    requires Admit(policy, 0) == Submit
    ensures Follows(First(a, policy), a, policy)
  {
    var m := First(a, policy)[0];
    assert [] + [m] == [m] && First(a, policy)[..1] == [m];
    FollowsStep([], m, a, policy);
    Created(a, policy);
    assert ActiveRuns(Trace(IDLE_NODE, [m]).db, a) == {};
    FollowsRequest([m], a, policy, "1", 0);
  }

  lemma BothFollows(a: AutomationId, policy: Policy)
    requires policy.mode == ParallelWithLimit && ParallelLimit(policy) >= 2
    ensures Follows(Both(a, policy), a, policy)
  {
    FirstFollows(a, policy);
    FirstSubmitted(a, policy);
    FirstAlone(Trace(IDLE_NODE, First(a, policy)), a, policy);
    FollowsRequest(First(a, policy), a, policy, "2", 1);
  }

  lemma TwiceFollows(a: AutomationId, policy: Policy)
    requires policy.mode == ParallelWithLimit && ParallelLimit(policy) >= 2
    ensures Follows(Twice(a, policy), a, policy)
  {
    BothFollows(a, policy);
    FollowsStep(Both(a, policy), Start(0, BOTH), a, policy);
    FollowsStep(Both(a, policy) + [Start(0, BOTH)], Settle(0, true, false), a, policy);
    FollowsStep(Ended(a, policy), Drain(0, BOTH), a, policy);
    FollowsStep(Ended(a, policy) + [Drain(0, BOTH)], Start(1, BOTH), a, policy);
  }

  predicate Restartless(moves: seq<Move>) {
    forall m :: m in moves ==> !m.Restart?
  }

  lemma NoRestart(a: AutomationId, policy: Policy)
    ensures Restartless(Twice(a, policy))
  {
    assert Restartless(First(a, policy));
    assert Restartless(Both(a, policy));
    assert Restartless(Ended(a, policy));
  }

  lemma TwiceOrderly(a: AutomationId, policy: Policy)
    requires policy.mode == ParallelWithLimit && ParallelLimit(policy) >= 2
    ensures Orderly(Twice(a, policy), a, policy)
  {
    TwiceFollows(a, policy);
    NoRestart(a, policy);
    var ms := Twice(a, policy);
    assert forall i :: 0 <= i < |ms| ==> ms[i] in ms;
  }

  /** One coroutine at a time, and no run started twice: over every trace under one policy whose moves are
      prompt, and whose restarts read every row or whose clock never goes back, each of these holds if and
      only if the policy is `skip`, `queue-one` or a parallel limit of at most one. */
  lemma SerialExactly(auto: AutomationId, policy: Policy)
    ensures AlwaysOneCoroutine(auto, policy) <==> SerialPolicy(policy)
    ensures AlwaysStartedOnce(auto, policy) <==> SerialPolicy(policy)
  {
    if SerialPolicy(policy) {
      forall moves | Orderly(moves, auto, policy)
        ensures OneCoroutine(Trace(IDLE_NODE, moves), auto) && StartedOnce(Trace(IDLE_NODE, moves), auto)
      {
        SerialIsSafe(moves, auto, policy);
      }
    } else {
      TwiceOrderly(auto, policy);
      ParallelStartsTwice(auto, policy);
    }
  }
}
