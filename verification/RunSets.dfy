/** The runs of one Automation by status, and their order of age. */
module RunSets {
  import opened AutomationFacts

  function RunsIn(db: Db, auto: AutomationId, status: RunStatus): set<RunId> {
    set r: RunId | r < |db.runs| && db.runs[r].auto == auto && db.runs[r].status == status
  }

  function RunsAmong(db: Db, auto: AutomationId, statuses: set<RunStatus>): set<RunId> {
    set r: RunId | r < |db.runs| && db.runs[r].auto == auto && db.runs[r].status in statuses
  }

  /** Every unsettled run, of whatever Automation. */
  function Incomplete(db: Db): set<RunId> {
    set r: RunId | r < |db.runs| && !Terminal(db.runs[r].status)
  }

  function QueuedRuns(db: Db, auto: AutomationId): set<RunId> {
    RunsIn(db, auto, Queued)
  }

  function RunningRuns(db: Db, auto: AutomationId): set<RunId> {
    RunsIn(db, auto, Running)
  }

  /** What `active_run_count` counts. */
  function ActiveRuns(db: Db, auto: AutomationId): set<RunId> {
    QueuedRuns(db, auto) + RunningRuns(db, auto)
  }

  predicate Exist(db: Db, ids: set<RunId>) {
    forall r :: r in ids ==> r < |db.runs|
  }

  /** Creation order; runs created in the same millisecond come in insertion order. */
  predicate NotAfter(db: Db, x: RunId, y: RunId)
    requires x < |db.runs| && y < |db.runs|
  {
    db.runs[x].createdAt < db.runs[y].createdAt || (db.runs[x].createdAt == db.runs[y].createdAt && x <= y)
  }

  predicate IsOldest(db: Db, ids: set<RunId>, x: RunId)
    requires Exist(db, ids)
  {
    x in ids && forall y :: y in ids ==> NotAfter(db, x, y)
  }

  lemma NotAfterChain(db: Db, x: RunId, y: RunId, z: RunId)
    requires x < |db.runs| && y < |db.runs| && z < |db.runs|
    requires NotAfter(db, x, y) && NotAfter(db, y, z)
    ensures NotAfter(db, x, z)
  {
  }

  lemma OldestExists(db: Db, ids: set<RunId>)
    requires ids != {} && Exist(db, ids)
    ensures exists x :: IsOldest(db, ids, x)
    decreases ids
  {
    var y :| y in ids;
    if ids == {y} {
      assert IsOldest(db, ids, y);
    } else {
      OldestExists(db, ids - {y});
      var x :| IsOldest(db, ids - {y}, x);
      var z := if NotAfter(db, x, y) then x else y;
      forall w | w in ids ensures NotAfter(db, z, w) {
        assert w == y || w in ids - {y};
      }
      assert IsOldest(db, ids, z);
    }
  }

  ghost function Oldest(db: Db, ids: set<RunId>): (x: RunId)
    requires ids != {} && Exist(db, ids)
    ensures IsOldest(db, ids, x)
  {
    OldestExists(db, ids);
    var x :| IsOldest(db, ids, x);
    x
  }

  /** The runs of a set, oldest first: what ORDER BY created_at_ms gives. */
  ghost function ByAge(db: Db, ids: set<RunId>): (s: seq<RunId>)
    requires Exist(db, ids)
    ensures |s| == |ids| && forall r :: r in s <==> r in ids
    decreases ids
  {
    if ids == {} then [] else
    var x := Oldest(db, ids);
    [x] + ByAge(db, ids - {x})
  }

  lemma OldestIs(db: Db, ids: set<RunId>, x: RunId)
    requires Exist(db, ids) && IsOldest(db, ids, x)
    ensures Oldest(db, ids) == x
  {
    assert NotAfter(db, x, Oldest(db, ids)) && NotAfter(db, Oldest(db, ids), x);
  }

  predicate Distinct(s: seq<RunId>) {
    forall i, j :: 0 <= i < j < |s| ==> s[i] != s[j]
  }

  lemma {:induction false} ByAgeSorted(db: Db, ids: set<RunId>)
    requires Exist(db, ids)
    ensures Distinct(ByAge(db, ids)) && InAgeOrder(db, ByAge(db, ids))
    decreases ids
  {
    if ids != {} {
      var x := Oldest(db, ids);
      ByAgeSorted(db, ids - {x});
      SortedWithHead(db, x, ByAge(db, ids - {x}));
    }
  }

  predicate InAgeOrder(db: Db, s: seq<RunId>) {
    forall i, j :: 0 <= i < j < |s| ==> s[i] < |db.runs| && s[j] < |db.runs| && NotAfter(db, s[i], s[j])
  }

  lemma SortedWithHead(db: Db, x: RunId, t: seq<RunId>)
    requires Distinct(t) && InAgeOrder(db, t) && x !in t && x < |db.runs|
    requires forall r :: r in t ==> r < |db.runs| && NotAfter(db, x, r)
    ensures Distinct([x] + t) && InAgeOrder(db, [x] + t)
  {
    var s := [x] + t;
    assert forall k :: 0 < k < |s| ==> s[k] == t[k - 1] && t[k - 1] in t;
    forall i, j | 0 <= i < j < |s|
      ensures s[i] != s[j] && s[i] < |db.runs| && s[j] < |db.runs| && NotAfter(db, s[i], s[j])
    {
      if i == 0 { assert s[i] == x && s[j] in t; } else { assert s[i] == t[i - 1] && s[j] == t[j - 1]; }
    }
  }

  function FirstOf(s: seq<RunId>, limit: nat): seq<RunId> {
    if limit < |s| then s[..limit] else s
  }

  /** The members of a sequence that lie in a set, in the order of the sequence. */
  function Only(s: seq<RunId>, keep: set<RunId>): (r: seq<RunId>)
    ensures forall x :: x in r <==> x in s && x in keep
  {
    if s == [] then [] else (if s[0] in keep then [s[0]] else []) + Only(s[1..], keep)
  }

  lemma {:induction false} OnlyDistinct(s: seq<RunId>, keep: set<RunId>)
    requires Distinct(s)
    ensures Distinct(Only(s, keep))
  {
    if s != [] {
      OnlyDistinct(s[1..], keep);
      var rest := Only(s[1..], keep);
      if s[0] in keep {
        forall k | 0 <= k < |rest| ensures rest[k] != s[0] { assert rest[k] in s[1..]; }
        DistinctWithHead(s[0], rest);
      } else {
        assert [] + rest == rest;
      }
    }
  }

  lemma DistinctWithHead(x: RunId, t: seq<RunId>)
    requires Distinct(t) && forall k :: 0 <= k < |t| ==> t[k] != x
    ensures Distinct([x] + t)
  {
    forall i, j | 0 <= i < j < |[x] + t| ensures ([x] + t)[i] != ([x] + t)[j] {
      assert ([x] + t)[j] == t[j - 1];
      if i > 0 { assert ([x] + t)[i] == t[i - 1]; }
    }
  }

  lemma {:induction false} OnlyAppend(s: seq<RunId>, x: RunId, keep: set<RunId>)
    ensures Only(s + [x], keep) == Only(s, keep) + if x in keep then [x] else []
  {
    if s == [] {
      assert s + [x] == [x] && [x][1..] == [];
    } else {
      var head := if s[0] in keep then [s[0]] else [];
      var last := if x in keep then [x] else [];
      OnlyAppend(s[1..], x, keep);
      OnlyStep(s + [x], keep);
      assert (s + [x])[1..] == s[1..] + [x];
      Regrouped(head, Only(s[1..], keep), last);
    }
  }

  lemma Regrouped(a: seq<RunId>, b: seq<RunId>, c: seq<RunId>)
    ensures a + (b + c) == a + b + c
  {
  }

  lemma OnlyStep(s: seq<RunId>, keep: set<RunId>)
    requires s != []
    ensures Only(s, keep) == (if s[0] in keep then [s[0]] else []) + Only(s[1..], keep)
  {
  }

  lemma OldestFrame(db: Db, db': Db, ids: set<RunId>)
    requires ids != {} && Exist(db, ids) && Exist(db', ids)
    requires forall r :: r in ids ==> db.runs[r].createdAt == db'.runs[r].createdAt
    ensures Oldest(db, ids) == Oldest(db', ids)
  {
    var x, y := Oldest(db, ids), Oldest(db', ids);
    assert NotAfter(db, x, y) && NotAfter(db', y, x);
  }

  /** The order of a set of runs does not depend on what happened to their statuses. */
  lemma {:induction false} ByAgeFrame(db: Db, db': Db, ids: set<RunId>)
    requires Exist(db, ids) && Exist(db', ids)
    requires forall r :: r in ids ==> db.runs[r].createdAt == db'.runs[r].createdAt
    ensures ByAge(db, ids) == ByAge(db', ids)
    decreases ids
  {
    if ids != {} {
      OldestFrame(db, db', ids);
      ByAgeFrame(db, db', ids - {Oldest(db, ids)});
    }
  }

  /** A status change moves one run between the sets of its own Automation and touches no other. */
  lemma StatusMoves(db: Db, run: RunId, status: RunStatus, auto: AutomationId)
    requires run < |db.runs| && !Terminal(db.runs[run].status)
    ensures var db' := WithRunStatus(db, run, status);
            && QueuedRuns(db', auto) == QueuedRuns(db, auto) - {run} +
               (if status == Queued && db.runs[run].auto == auto then {run} else {})
            && RunningRuns(db', auto) == RunningRuns(db, auto) - {run} +
               (if status == Running && db.runs[run].auto == auto then {run} else {})
  {
  }

  lemma InsertMoves(db: Db, auto: AutomationId, occurrence: string, revision: nat, now: int, other: AutomationId)
    ensures var db' := WithRun(db, auto, occurrence, revision, now);
            && QueuedRuns(db', other) == QueuedRuns(db, other) + (if other == auto then {|db.runs|} else {})
            && RunningRuns(db', other) == RunningRuns(db, other)
  {
  }
}
