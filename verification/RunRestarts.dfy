/** A restart that resumes a run beside one it does not read, reached from an empty Node: the clock goes back
    by a millisecond, and other Automations have as many runs as a restart reads. */
module RunRestarts {
  import opened AutomationFacts
  import opened RunSets
  import opened RunSlices
  import opened RunViews
  import opened RunMoves
  import opened RunTheorems
  import opened RunBounds
  import opened RunSafety
  import opened RunTraces
  import opened RunAges

  // ---- which rows are read ------------------------------------------------------------------------------

  lemma Members(s: seq<RunId>, part: set<RunId>)
    requires forall x :: x in part ==> x in s
    ensures |part| <= |s|
    decreases |s|
  {
    if s != [] {
      forall x | x in part - {s[0]} ensures x in s[1..] {
        var k :| 0 <= k < |s| && s[k] == x;
        assert s[1..][k - 1] == x;
      }
      Members(s[1..], part - {s[0]});
      assert part <= part - {s[0]} + {s[0]};
      Fewer(part, s[0]);
    } else {
      assert part == {};
    }
  }

  lemma Fewer(part: set<RunId>, x: RunId)
    ensures |part| <= |part - {x}| + 1
  {
    if x in part { assert part == part - {x} + {x}; } else { assert part - {x} == part; }
  }

  /** A row that comes after as many as a restart reads is not read. */
  lemma NotRead(db: Db, x: RunId, before: set<RunId>)
    requires x < |db.runs| && x !in before && before <= Incomplete(db) && |before| >= INCOMPLETE_LIMIT
    requires forall y :: y in before ==> NotAfter(db, y, x)
    ensures x !in ReadRuns(db)
  {
    if x in ReadRuns(db) {
      forall y | y in before + {x} ensures y in ReadRuns(db) {
        if y != x { ReadIsClosed(db, y, x); }
      }
      Members(ReadRuns(db), before + {x});
    }
  }

  lemma OldestIsRead(db: Db, x: RunId)
    requires IsOldest(db, Incomplete(db), x)
    ensures x in ReadRuns(db)
  {
    OldestIs(db, Incomplete(db), x);
    assert ByAge(db, Incomplete(db))[0] == x;
    assert ReadRuns(db)[0] == x;
  }

  // ---- the trace ------------------------------------------------------------------------------------------

  /** Another Automation, which may run `n` times at once. */
  function Busy(n: nat): Definition {
    Definition("busy", Active, 1, Policy(ParallelWithLimit, n), true, map[], "")
  }

  function Name(i: nat): string {
    seq(i, _ => 'x')
  }

  lemma NamesDiffer(i: nat, j: nat)
    requires i != j
    ensures Name(i) != Name(j)
  {
    assert |Name(i)| == i && |Name(j)| == j;
  }

  function Rest(b: AutomationId, n: nat): seq<Run> {
    seq(n, i requires 0 <= i < n => Run(b, Name(i), Queued, -1, 1))
  }

  /** A first run executes; the clock goes back, and a second one waits behind it. */
  function Behind(a: AutomationId, policy: Policy): seq<Move> {
    Started(a, policy) + [Insert(a, Def(policy), "2", -1, 1)]
  }

  function CreatesBusy(b: AutomationId, n: nat): Move {
    Admin(StoreOp.CreateDefinition(b, "busy", Policy(ParallelWithLimit, n), true, map[], false))
  }

  /** Then another Automation is created, and its first `k` runs are inserted, each under the count of the moment. */
  function Crowd(a: AutomationId, policy: Policy, b: AutomationId, n: nat, k: nat): seq<Move> {
    if k == 0 then
      Behind(a, policy) + [CreatesBusy(b, n)]
    else
      Crowd(a, policy, b, n, k - 1) + [Insert(b, Busy(n), Name(k - 1), -1, k - 1)]
  }

  ghost predicate Crowded(s: Sys, a: AutomationId, policy: Policy, b: AutomationId, n: nat, k: nat) {
    && s.db.defs == map[a := Def(policy), b := Busy(n)]
    && s.db.runs == [RunAt(a, "1", Running)] + [Run(a, "2", Queued, -1, 1)] + Rest(b, k)
  }

  lemma SecondWaitsBehind(a: AutomationId, policy: Policy)
    requires policy.mode == QueueOne
    ensures var s := Trace(IDLE_NODE, Behind(a, policy));
            && s.db.defs == map[a := Def(policy)]
            && s.db.runs == [RunAt(a, "1", Running)] + [Run(a, "2", Queued, -1, 1)]
  {
    FirstStarted(a, policy);
    var s, m := Trace(IDLE_NODE, Started(a, policy)), Insert(a, Def(policy), "2", -1, 1);
    TraceStep(IDLE_NODE, Started(a, policy), m);
    Other('1', '2');
    assert s.db.runs == [RunAt(a, "1", Running)];
    assert !HasOccurrence(s.db, a, "2");
  }

  lemma BusyCreated(s: Sys, a: AutomationId, policy: Policy, b: AutomationId, n: nat)
    requires a != b && s.db.defs == map[a := Def(policy)]
    requires s.db.runs == [RunAt(a, "1", Running)] + [Run(a, "2", Queued, -1, 1)]
    ensures Crowded(Next(s, CreatesBusy(b, n)), a, policy, b, n, 0)
  {
    assert "key"[0] == 'k' && "busy"[0] == 'b';
    assert !KeyUsed(s.db, "busy");
    assert Rest(b, 0) == [];
  }

  lemma BusyInserts(s: Sys, a: AutomationId, policy: Policy, b: AutomationId, n: nat, k: nat)
    requires a != b && Crowded(s, a, policy, b, n, k)
    ensures Crowded(Next(s, Insert(b, Busy(n), Name(k), -1, k)), a, policy, b, n, k + 1)
  {
    forall r | 0 <= r < |s.db.runs| && s.db.runs[r].auto == b ensures s.db.runs[r].occurrence != Name(k) {
      assert r >= 2;
      assert s.db.runs[r] == Rest(b, k)[r - 2];
      NamesDiffer(r - 2, k);
    }
    assert !HasOccurrence(s.db, b, Name(k));
    assert Rest(b, k + 1) == Rest(b, k) + [Run(b, Name(k), Queued, -1, 1)];
  }

  lemma {:induction false} CrowdGathers(a: AutomationId, policy: Policy, b: AutomationId, n: nat, k: nat)
    requires a != b && policy.mode == QueueOne
    ensures Crowded(Trace(IDLE_NODE, Crowd(a, policy, b, n, k)), a, policy, b, n, k)
  {
    if k == 0 {
      SecondWaitsBehind(a, policy);
      TraceStep(IDLE_NODE, Behind(a, policy), CreatesBusy(b, n));
      BusyCreated(Trace(IDLE_NODE, Behind(a, policy)), a, policy, b, n);
    } else {
      CrowdGathers(a, policy, b, n, k - 1);
      TraceStep(IDLE_NODE, Crowd(a, policy, b, n, k - 1), Insert(b, Busy(n), Name(k - 1), -1, k - 1));
      BusyInserts(Trace(IDLE_NODE, Crowd(a, policy, b, n, k - 1)), a, policy, b, n, k - 1);
    }
  }

  function Numbers(lo: nat, hi: nat): (ids: set<RunId>)
    ensures forall r: RunId :: r in ids <==> lo <= r < hi
    decreases hi - lo
  {
    if lo < hi then {lo} + Numbers(lo + 1, hi) else {}
  }

  lemma {:induction false} HowMany(lo: nat, hi: nat)
    requires lo <= hi
    ensures |Numbers(lo, hi)| == hi - lo
    decreases hi - lo
  {
    if lo < hi { HowMany(lo + 1, hi); }
  }

  lemma CrowdRows(s: Sys, a: AutomationId, policy: Policy, b: AutomationId, n: nat, k: nat, r: RunId)
    requires a != b && Crowded(s, a, policy, b, n, k) && r < k + 2
    ensures |s.db.runs| == k + 2 && (r < 2 <==> s.db.runs[r].auto == a)
    ensures s.db.runs[r].status == (if r == 0 then Running else Queued)
    ensures s.db.runs[r].createdAt == if r == 0 then 0 else -1
  {
    if r >= 2 { assert s.db.runs[r] == Rest(b, k)[r - 2]; }
  }

  /** Run 0 is running and youngest, run 1 comes first, and only they are of the Automation `a`. */
  predicate Ordered(db: Db, a: AutomationId, k: nat) {
    && |db.runs| == k + 2
    && forall r: RunId :: r < k + 2 ==>
         && (db.runs[r].auto == a <==> r < 2)
         && db.runs[r].status == (if r == 0 then Running else Queued)
         && db.runs[r].createdAt == if r == 0 then 0 else -1
  }

  lemma CrowdOrdered(s: Sys, a: AutomationId, policy: Policy, b: AutomationId, n: nat, k: nat)
    requires a != b && Crowded(s, a, policy, b, n, k)
    ensures Ordered(s.db, a, k)
  {
    CrowdRows(s, a, policy, b, n, k, 0);
    forall r: RunId | r < k + 2
      ensures (s.db.runs[r].auto == a <==> r < 2) && s.db.runs[r].status == (if r == 0 then Running else Queued)
      ensures s.db.runs[r].createdAt == if r == 0 then 0 else -1
    {
      CrowdRows(s, a, policy, b, n, k, r);
    }
  }

  lemma FirstUnread(db: Db, a: AutomationId, k: nat)
    requires Ordered(db, a, k) && k + 1 >= INCOMPLETE_LIMIT
    ensures 0 in Overlooked(db, a)
  {
    var others := OthersComeFirst(db, a, k);
    UnreadIsOverlooked(db, a, 0, others);
  }

  lemma UnreadIsOverlooked(db: Db, a: AutomationId, x: RunId, before: set<RunId>)
    requires x in RunningRuns(db, a) && x !in before && before <= Incomplete(db) && |before| >= INCOMPLETE_LIMIT
    requires forall y :: y in before ==> NotAfter(db, y, x)
    ensures x in Overlooked(db, a)
  {
    NotRead(db, x, before);
  }

  lemma OthersComeFirst(db: Db, a: AutomationId, k: nat) returns (others: set<RunId>)
    requires Ordered(db, a, k)
    ensures 0 in RunningRuns(db, a) && 0 !in others && others <= Incomplete(db) && |others| == k + 1
    ensures forall y :: y in others ==> NotAfter(db, y, 0)
  {
    others := Numbers(1, k + 2);
    HowMany(1, k + 2);
  }

  lemma SecondRead(db: Db, a: AutomationId, k: nat)
    requires Ordered(db, a, k)
    ensures 1 in ReadRuns(db) && QueuedRuns(db, a) == {1}
  {
    assert IsOldest(db, Incomplete(db), 1);
    OldestIsRead(db, 1);
  }

  lemma CrowdIsListed(s: Sys, a: AutomationId, policy: Policy, b: AutomationId, n: nat, k: nat)
    requires a != b && Crowded(s, a, policy, b, n, k) && 1 in ReadRuns(s.db) && QueuedRuns(s.db, a) == {1}
    ensures Enabled(s, Restart({a, b})) && Resumed(s.db, a, {a, b}) && QueueRead(s.db, a)[0] == 1
  {
    assert 1 in QueueRead(s.db, a);
    assert QueueRead(s.db, a)[0] in QueueRead(s.db, a);
    assert (set d | d in s.db.defs && Alive(s.db, d)) == {a, b};
  }

  /** The restart and the start of what it resumes. */
  lemma ResumedBeside(s: Sys, a: AutomationId, policy: Policy, b: AutomationId, n: nat, k: nat)
    requires WellFormed(s) && policy.mode == QueueOne
    requires a != b && Crowded(s, a, policy, b, n, k) && k + 1 >= INCOMPLETE_LIMIT
    ensures Resumed(s.db, a, {a, b}) && Overlooked(s.db, a) != {}
    ensures |RunningRuns(Next(Next(s, Restart({a, b})), Start(1, {1})).db, a)| >= 2
  {
    CrowdOrdered(s, a, policy, b, n, k);
    FirstUnread(s.db, a, k);
    SecondRead(s.db, a, k);
    CrowdIsListed(s, a, policy, b, n, k);
    RestartedCrowd(s, a, {a, b});
    BothRun(Restarted(s, {a, b}), a);
  }

  lemma RestartedCrowd(s: Sys, a: AutomationId, listed: set<AutomationId>)
    requires WellFormed(s) && a in s.db.defs && SerialPolicy(s.db.defs[a].policy)
    requires Resumed(s.db, a, listed) && QueueRead(s.db, a)[0] == 1 && 0 in Overlooked(s.db, a) &&
             QueuedRuns(s.db, a) == {1}
    ensures var s' := Restarted(s, listed);
            && 1 in s'.scheduled && 1 in QueuedRuns(s'.db, a) && 0 in RunningRuns(s'.db, a) && s'.db.defs == s.db.defs
  {
    assert 1 in QueuedRuns(s.db, a);
    ResumesOldest(s.db, a, 1, listed);
    RestartedWell(s, listed, a);
  }

  lemma BothRun(s: Sys, a: AutomationId)
    requires 1 in s.scheduled && 1 in QueuedRuns(s.db, a) && 0 in RunningRuns(s.db, a)
    requires a in s.db.defs && s.db.defs[a].status == Active && s.db.defs[a].confirmed
    ensures |RunningRuns(Next(s, Start(1, {1})).db, a)| >= 2
  {
    var db := Next(s, Start(1, {1})).db;
    assert Ready(s.db, a, 1, {1});
    assert 0 in RunningRuns(db, a) && 1 in RunningRuns(db, a);
    AtLeast(RunningRuns(db, a), 0, 1);
  }

  lemma AtLeast(runs: set<RunId>, x: RunId, y: RunId)
    requires x in runs && y in runs && x != y
    ensures |runs| >= 2
  {
    assert runs == {x} + ({y} + (runs - {x} - {y}));
  }

  /** Under `queue-one`, two runs of one Automation run at once after a restart, when as many others as it
      reads come before the first. */
  lemma OverlookedInFlight(a: AutomationId, policy: Policy, b: AutomationId, n: nat)
    requires a != b && policy.mode == QueueOne && n + 1 >= INCOMPLETE_LIMIT
    ensures var ms := Crowd(a, policy, b, n, n);
            && Resumed(Trace(IDLE_NODE, ms).db, a, {a, b}) && Overlooked(Trace(IDLE_NODE, ms).db, a) != {}
            && |RunningRuns(Trace(IDLE_NODE, ms + [Restart({a, b})] + [Start(1, {1})]).db, a)| >= 2
  {
    var ms := Crowd(a, policy, b, n, n);
    CrowdGathers(a, policy, b, n, n);
    AlwaysWellFormed(ms, |ms|);
    AfterAll(IDLE_NODE, ms);
    ResumedBeside(Trace(IDLE_NODE, ms), a, policy, b, n, n);
    TraceStep(IDLE_NODE, ms, Restart({a, b}));
    TraceStep(IDLE_NODE, ms + [Restart({a, b})], Start(1, {1}));
  }
}
