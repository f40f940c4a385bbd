/** Start-up of the scheduler: every definition is synchronised, then jobs without a definition go. */
module ScheduleStartup {
  import opened Wrappers
  import opened AutomationFacts
  import opened Schedules

  /** `reconcile_runtime` synchronises the listed definitions one by one. */
  function SyncEach(w: World, order: seq<AutomationId>, now: int, newId: seq<JobId>, clock: Clock): (w': World)
    requires |newId| == |order| && forall a :: a in order ==> a in w.defs
    ensures w'.defs.Keys == w.defs.Keys
    decreases order
  {
    if order == [] then w
    else
      var w' := Sync(w, order[0], now, newId[0], clock);
      SyncEach(w', order[1..], now, newId[1..], clock)
  }

  /** Then it drops the derived jobs whose definition is not among those listed. */
  function DropUnlisted(w: World, listed: set<AutomationId>): World {
    w.(jobs := map j | j in w.jobs && (w.jobs[j].source.None? || w.jobs[j].source.value in listed) :: w.jobs[j])
  }

  function Listed(w: World): set<AutomationId> {
    set a | a in w.defs && w.defs[a].status != Deleted
  }

  predicate UnusedEach(w: World, newId: seq<JobId>) {
    (forall i :: 0 <= i < |newId| ==> Unused(w, newId[i])) && forall i, j :: 0 <= i < j < |newId| ==>
      newId[i] != newId[j]
  }

  predicate NoRepeats(order: seq<AutomationId>) {
    forall i, j :: 0 <= i < j < |order| ==> order[i] != order[j]
  }

  function Reconciled(w: World, order: seq<AutomationId>, now: int, newId: seq<JobId>, clock: Clock): World
    requires |newId| == |order| && forall a :: a in order <==> a in Listed(w)
  {
    DropUnlisted(SyncEach(w, order, now, newId, clock), Listed(w))
  }

  lemma SyncStaysUnused(w: World, auto: AutomationId, now: int, newId: JobId, clock: Clock, id: JobId)
    requires auto in w.defs && Coherent(w) && Unused(w, newId) && Unused(w, id) && id != newId
    ensures Unused(Sync(w, auto, now, newId, clock), id)
  {
  }

  /** What the loop leaves for one definition. */
  ghost predicate SyncedAt(w: World, w': World, a: AutomationId, done: bool) {
    && a in w.defs && a in w'.defs
    && w'.defs[a].(jobId := "") == w.defs[a].(jobId := "") && (Wants(w', a) <==> Wants(w, a))
    && Orphans(w', a) == Orphans(w, a)
    && (Wants(w, a) ==> w'.triggers[a].kind == w.triggers[a].kind)
    && (done && Orphans(w, a) == {} ==> Agrees(w', a))
  }

  /** The ids that remain stay unused. */
  lemma SyncKeepsUnused(w: World, auto: AutomationId, now: int, newId: seq<JobId>, clock: Clock)
    requires auto in w.defs && Coherent(w) && newId != [] && UnusedEach(w, newId)
    ensures UnusedEach(Sync(w, auto, now, newId[0], clock), newId[1..])
  {
    forall i | 0 <= i < |newId[1..]| ensures Unused(Sync(w, auto, now, newId[0], clock), newId[1..][i]) {
      SyncStaysUnused(w, auto, now, newId[0], clock, newId[i + 1]);
    }
    assert forall i, j :: (0 <= i < j < |newId[1..]|) ==>
      newId[1..][i] == newId[i + 1] && newId[1..][j] == newId[j + 1];
  }

  /** One turn of the loop. */
  lemma SyncTurn(w: World, auto: AutomationId, now: int, newId: JobId, clock: Clock, a: AutomationId, done: bool)
    requires auto in w.defs && Coherent(w) && Unused(w, newId) && a in w.defs
    requires done ==> a != auto && (Orphans(w, a) == {} ==> Agrees(w, a))
    ensures SyncedAt(w, Sync(w, auto, now, newId, clock), a, done || a == auto)
  {
    SyncCoherent(w, auto, now, newId, clock);
    SyncJobs(w, auto, now, newId, clock);
    if a == auto {
      SyncAgrees(w, a, now, newId, clock);
    } else if done && Orphans(w, a) == {} {
      SyncKeepsAgreement(w, auto, now, newId, clock, a);
    }
  }

  lemma {:induction false} SyncEachAgrees(w: World, order: seq<AutomationId>, now: int, newId: seq<JobId>, clock: Clock,
                                         a: AutomationId, done: bool)
    requires |newId| == |order| && (forall b :: b in order ==> b in w.defs) && NoRepeats(order)
    requires Coherent(w) && UnusedEach(w, newId) && a in w.defs
    requires done ==> a !in order && (Orphans(w, a) == {} ==> Agrees(w, a))
    ensures var w' := SyncEach(w, order, now, newId, clock);
            Coherent(w') && w'.defs.Keys == w.defs.Keys && SyncedAt(w, w', a, done || a in order)
    decreases order
  {
    if order != [] {
      var w1 := Sync(w, order[0], now, newId[0], clock);
      SyncCoherent(w, order[0], now, newId[0], clock);
      SyncTurn(w, order[0], now, newId[0], clock, a, done);
      SyncKeepsUnused(w, order[0], now, newId, clock);
      assert order == [order[0]] + order[1..];
      SyncEachAgrees(w1, order[1..], now, newId[1..], clock, a, done || a == order[0]);
    }
  }

  /** Derived jobs and the definitions that want one correspond one to one. */
  ghost predicate Bijection(w: World) {
    && (forall a :: Wants(w, a) ==> w.defs[a].jobId in w.jobs && w.jobs[w.defs[a].jobId].source == Some(a))
    && (forall j :: j in w.jobs && w.jobs[j].source.Some? ==>
          Wants(w, w.jobs[j].source.value) && w.defs[w.jobs[j].source.value].jobId == j)
  }

  lemma {:induction false} SyncEachSources(w: World, order: seq<AutomationId>, now: int, newId: seq<JobId>,
                                           clock: Clock, b: AutomationId)
    requires |newId| == |order| && (forall a :: a in order ==> a in w.defs)
    requires Coherent(w) && UnusedEach(w, newId) && b !in w.defs
    ensures JobsOf(SyncEach(w, order, now, newId, clock), b) == JobsOf(w, b)
    decreases order
  {
    if order != [] {
      var w1 := Sync(w, order[0], now, newId[0], clock);
      SyncCoherent(w, order[0], now, newId[0], clock);
      SyncJobs(w, order[0], now, newId[0], clock);
      SyncKeepsUnused(w, order[0], now, newId, clock);
      SyncEachSources(w1, order[1..], now, newId[1..], clock, b);
    }
  }

  /** After start-up the correspondence is exact if and only if no living definition had an orphan
      job. Start-up removes the jobs of deleted and unknown definitions; it never removes an orphan. */
  lemma ReconcileBijection(w: World, order: seq<AutomationId>, now: int, newId: seq<JobId>, clock: Clock)
    requires |newId| == |order| && NoRepeats(order) && (forall a :: a in order <==> a in Listed(w))
    requires Coherent(w) && UnusedEach(w, newId)
    ensures Bijection(Reconciled(w, order, now, newId, clock)) <==> forall a :: a in Listed(w) ==> Orphans(w, a) == {}
  {
    var mid := SyncEach(w, order, now, newId, clock);
    var w' := Reconciled(w, order, now, newId, clock);
    forall a | a in w.defs
      ensures a in mid.defs && SyncedAt(w, mid, a, a in order) && Coherent(mid) && mid.defs.Keys == w.defs.Keys
    {
      SyncEachAgrees(w, order, now, newId, clock, a, false);
    }
    if forall a :: a in Listed(w) ==> Orphans(w, a) == {} {
      NoOrphansBijection(w, mid);
    } else {
      var a :| a in Listed(w) && Orphans(w, a) != {};
      assert SyncedAt(w, mid, a, a in order);
      var j :| j in Orphans(mid, a);
      assert j in w'.jobs && w'.jobs[j].source == Some(a) && w'.defs[a].jobId != j;
    }
  }

  lemma NoOrphansBijection(w: World, mid: World)
    requires mid.defs.Keys == w.defs.Keys
    requires forall a :: a in w.defs ==> SyncedAt(w, mid, a, a in Listed(w))
    requires forall a :: a in Listed(w) ==> Orphans(w, a) == {}
    ensures Bijection(DropUnlisted(mid, Listed(w)))
  {
    var w' := DropUnlisted(mid, Listed(w));
    forall a | Wants(w', a) ensures w'.defs[a].jobId in w'.jobs && w'.jobs[w'.defs[a].jobId].source == Some(a) {
      assert SyncedAt(w, mid, a, a in Listed(w)) && Agrees(mid, a);
      assert mid.defs[a].jobId in JobsOf(mid, a);
    }
    forall j | j in w'.jobs && w'.jobs[j].source.Some?
      ensures Wants(w', w'.jobs[j].source.value) && w'.defs[w'.jobs[j].source.value].jobId == j
    {
      var a := w'.jobs[j].source.value;
      assert SyncedAt(w, mid, a, a in Listed(w)) && Agrees(mid, a);
      assert j in JobsOf(mid, a);
    }
  }
}
