/** The invariant of one Automation whose policies admit one run at a time, in terms of its view, and
    what each elementary change does to it. */
module RunSafety {
  import opened AutomationFacts
  import opened RunSlices
  import opened RunViews

  /** Rows whose caller will submit them, and rows whose caller will mark them as skipped. */
  function Promises(v: View): set<RunId> {
    set r | r in v.held && v.held[r] == Submit
  }

  function Rejected(v: View): set<RunId> {
    set r | r in v.held && v.held[r] == Reject
  }

  /** Unsettled runs that are here to stay. */
  function Rows(v: View): set<RunId> {
    v.queued + v.running - Rejected(v)
  }

  /** No coroutine of this Automation, and nobody about to submit one. */
  predicate Unmanned(v: View) {
    v.scheduled == map[] && v.executing == map[] && v.closing == map[] && Promises(v) == {}
  }

  /** A run may still be marked running: its set-up raised. */
  predicate Dormant(v: View) {
    Unmanned(v) && |v.running| <= 1
  }

  predicate Idle(v: View) {
    Unmanned(v) && v.running == {}
  }

  /** The one coroutine of this Automation carries `t`: waiting to begin, executing, or settled and about to drain. */
  predicate Owns(v: View, t: RunId) {
    Promises(v) == {} &&
      (|| (v.scheduled == map[t := 1] && v.executing == map[] && v.closing == map[] && v.running == {} && t in v.queued)
       || (v.scheduled == map[] && v.executing == map[t := 1] && v.closing == map[] && v.running == {t} &&
           t !in v.queued)
       || (v.scheduled == map[] && v.executing == map[] && v.closing == map[t := 1] && v.running == {} &&
         t !in v.queued))
  }

  /** There is no coroutine yet, and the caller of `n` is about to submit one. */
  predicate Promised(v: View, n: RunId) {
    v.scheduled == map[] && v.executing == map[] && v.closing == map[] && v.running == {} &&
      Promises(v) == {n} && n in v.queued
  }

  ghost predicate Manned(v: View) {
    exists t :: Owns(v, t) || Promised(v, t)
  }

  /** At most one coroutine, which has a run of its own, and nothing started twice. */
  ghost predicate Serial(v: View) {
    && (Dormant(v) || Manned(v))
    && (forall r :: r in v.begun ==> v.begun[r] == 1 && r !in v.queued)
  }

  /** Policies that let one run at a time execute: `skip`, `queue-one`, and a parallel limit of at most one. */
  predicate SerialPolicy(policy: Policy) {
    policy.mode != ParallelWithLimit || ParallelLimit(policy) <= 1
  }

  lemma MannedIsNotUnmanned(v: View)
    ensures Manned(v) ==> !Unmanned(v)
  {
    if t :| Owns(v, t) || Promised(v, t) {
      assert t in v.scheduled || t in v.executing || t in v.closing || t in Promises(v);
    }
  }

  lemma Monotone<T>(a: set<T>, b: set<T>)
    requires a <= b
    ensures |a| <= |b|
  {
    assert b == a + (b - a);
  }

  lemma OneAtATime(v: View)
    requires Serial(v)
    ensures |v.running| <= 1
  {
    if !Dormant(v) { var t :| Owns(v, t) || Promised(v, t); }
  }

  // ---- what a coroutine does ----------------------------------------------------------------------

  /** A queued run is taken up: it runs, or it is blocked and its coroutine goes on to drain. */
  function TakenUp(v: View, run: RunId, ready: bool): View {
    if ready then var v1 := MovedIn(v, run, Running); v1.(executing := Bump(v1.executing, run))
    else var v1 := MovedIn(v, run, RunBlocked); v1.(closing := Bump(v1.closing, run))
  }

  lemma TakenUpView(v: View, run: RunId, ready: bool)
    requires Idle(v) && Serial(v) && run in v.queued
    ensures var v' := TakenUp(v, run, ready);
            Owns(v', run) && Serial(v') && v'.queued == v.queued - {run} && v'.held == v.held
  {
    var v' := TakenUp(v, run, ready);
    assert v'.queued == v.queued - {run};
    assert Promises(v') == Promises(v);
    if ready {
      assert run !in v.begun && v'.begun == v.begun[run := 1];
      assert v'.executing == map[run := 1] && v'.running == {run};
    } else {
      assert v'.closing == map[run := 1] && v'.running == {};
    }
    assert Owns(v', run);
  }

  /** The one scheduled coroutine begins. */
  lemma BegunView(v: View, run: RunId)
    requires Serial(v) && run in v.scheduled
    ensures var v' := v.(scheduled := Drop(v.scheduled, run));
            Idle(v') && Serial(v') && run in v'.queued && Manned(v)
  {
    var t :| Owns(v, t) || Promised(v, t);
    assert Drop(map[t := 1], t) == map[];
    assert Promises(v.(scheduled := map[])) == Promises(v);
  }

  /** The one executing coroutine settles its run. */
  lemma SettledView(v: View, run: RunId, status: RunStatus)
    requires Serial(v) && run in v.executing && Terminal(status)
    ensures run in v.running && Manned(v)
    ensures var v1 := MovedIn(v, run, status);
            var v' := v1.(executing := Drop(v1.executing, run), closing := Bump(v1.closing, run));
            Owns(v', run) && Serial(v')
  {
    var t :| Owns(v, t) || Promised(v, t);
    assert Drop(map[t := 1], t) == map[];
    var v1 := MovedIn(v, run, status);
    var v' := v1.(executing := Drop(v1.executing, run), closing := Bump(v1.closing, run));
    assert Promises(v') == Promises(v) && v'.closing == map[run := 1] && v'.running == {};
    assert Owns(v', run);
  }

  /** The one closing coroutine leaves. */
  lemma ClosedIdle(v: View, run: RunId)
    requires Serial(v) && run in v.closing
    ensures var v' := v.(closing := Drop(v.closing, run));
            Idle(v') && Serial(v') && run !in v'.queued && Manned(v)
  {
    var t :| Owns(v, t) || Promised(v, t);
    assert Drop(map[t := 1], t) == map[];
    assert Promises(v.(closing := map[])) == Promises(v);
  }

  /** A set-up raises: the run stays marked running. */
  lemma AbandonedView(v: View, run: RunId)
    requires Serial(v) && run in v.executing
    ensures var v' := v.(executing := Drop(v.executing, run));
            Dormant(v') && v'.running == {run} && Serial(v') && Manned(v)
  {
    var t :| Owns(v, t) || Promised(v, t);
    assert Drop(map[t := 1], t) == map[];
    assert Promises(v.(executing := map[])) == Promises(v);
  }

  // ---- what callers do ----------------------------------------------------------------------------

  predicate Unknown(v: View, n: RunId) {
    && n !in v.queued && n !in v.running && n !in v.begun && n !in v.held
    && n !in v.scheduled && n !in v.executing && n !in v.closing
  }

  function WithNew(v: View, n: RunId, verdict: Verdict): View {
    v.(queued := v.queued + {n}, held := if verdict == Enqueue then v.held else v.held[n := verdict])
  }

  /** The same coroutines and promises; other rows may wait, or stop waiting. */
  lemma SameCarriers(v: View, v': View)
    requires v'.scheduled == v.scheduled && v'.executing == v.executing && v'.closing == v.closing
    requires v'.running == v.running && Promises(v') == Promises(v)
    requires forall t :: t in v.scheduled || t in v.executing || t in v.closing || t in Promises(v) ==>
               (t in v'.queued <==> t in v.queued)
    ensures (Dormant(v') <==> Dormant(v)) && (Manned(v') <==> Manned(v))
  {
    forall t ensures Owns(v', t) <==> Owns(v, t) {
      assert t in map[t := 1 as nat];
    }
    forall t ensures Promised(v', t) <==> Promised(v, t) {
      assert t in {t};
    }
  }

  /** A row that nobody will submit changes nobody's place. */
  lemma WaitingView(v: View, n: RunId, verdict: Verdict)
    requires Unknown(v, n) && verdict != Submit
    ensures var v' := WithNew(v, n, verdict);
            && (Dormant(v') <==> Dormant(v)) && (Manned(v') <==> Manned(v))
            && Rows(v') == Rows(v) + if verdict == Enqueue then {n} else {}
  {
    var v' := WithNew(v, n, verdict);
    assert Promises(v') == Promises(v);
    assert Rejected(v') == Rejected(v) + if verdict == Reject then {n} else {};
    SameCarriers(v, v');
  }

  /** A promise fits exactly where there is nobody. */
  lemma PromiseView(v: View, n: RunId)
    requires Unknown(v, n)
    ensures var v' := WithNew(v, n, Submit);
            && (Manned(v') <==> Idle(v)) && !Dormant(v') && Rows(v') == Rows(v) + {n}
  {
    var v' := WithNew(v, n, Submit);
    assert Promises(v') == Promises(v) + {n};
    assert Rejected(v') == Rejected(v);
    assert n in Promises(v');
    if Idle(v) { assert Promised(v', n); }
    if t :| Owns(v', t) || Promised(v', t) {
      assert t == n;
      assert Promises(v) == {} by { assert forall x :: x in Promises(v) ==> x in {n}; }
    }
  }

  /** A promise is kept. */
  lemma KeptView(v: View, n: RunId)
    requires Serial(v) && n in v.held && v.held[n] == Submit
    ensures var v' := v.(held := v.held - {n}, scheduled := Bump(v.scheduled, n));
            Owns(v', n) && Serial(v') && Rows(v') == Rows(v) && Manned(v)
  {
    assert n in Promises(v);
    var t :| Owns(v, t) || Promised(v, t);
    var v' := v.(held := v.held - {n}, scheduled := Bump(v.scheduled, n));
    assert t == n && v'.scheduled == map[n := 1];
    assert Promises(v') == Promises(v) - {n};
    assert Rejected(v') == Rejected(v);
    assert Owns(v', n);
  }

  // ---- settling a run from outside ----------------------------------------------------------------

  /** Somebody counts on this run: a coroutine carries it, or a caller is about to submit it. */
  predicate CountedOn(v: View, r: RunId) {
    r in v.scheduled || r in v.executing || r in Promises(v)
  }

  lemma SettledUnder(v: View, r: RunId, status: RunStatus)
    requires Serial(v) && Terminal(status) && CountedOn(v, r)
    ensures r in v.queued || r in v.running
    ensures !Serial(MovedIn(v, r, status))
  {
    var v' := MovedIn(v, r, status);
    assert Promises(v') == Promises(v);
    assert r in v'.scheduled || r in v'.executing || r in Promises(v');
    assert forall t: RunId :: Owns(v', t) || Promised(v', t) ==> t == r;
  }

  lemma SettledFree(v: View, r: RunId, status: RunStatus)
    requires Serial(v) && Terminal(status) && !CountedOn(v, r)
    ensures var v' := MovedIn(v, r, status);
            Serial(v') && (Manned(v) ==> Manned(v')) && Rows(v') == Rows(v) - {r}
  {
    var v' := MovedIn(v, r, status);
    assert v'.queued == v.queued - {r} && v'.running == v.running - {r};
    assert Promises(v') == Promises(v) && Rejected(v') == Rejected(v);
    if Manned(v) {
      var t :| Owns(v, t) || Promised(v, t);
      assert t in v.scheduled || t in v.executing || t in v.closing || t in Promises(v);
      assert v'.running == v.running;
      SameCarriers(v, v');
    } else {
      Monotone(v'.running, v.running);
    }
  }

  /** A mark is given up once it is made. */
  lemma ReleasedRows(v: View, r: RunId)
    requires r in v.held && v.held[r] == Reject
    ensures var v' := v.(held := v.held - {r});
            && Promises(v') == Promises(v) && (Serial(v) <==> Serial(v')) && (Manned(v) <==> Manned(v'))
            && (Dormant(v) <==> Dormant(v'))
            && (r !in v.queued && r !in v.running ==> Rows(v') == Rows(v))
  {
    var v' := v.(held := v.held - {r});
    assert Promises(v') == Promises(v);
    assert Rejected(v') == Rejected(v) - {r};
    forall t ensures Owns(v', t) <==> Owns(v, t) {}
    forall t ensures Promised(v', t) <==> Promised(v, t) {}
  }

  /** After a restart: what is left running, and the one coroutine that is resumed, if any. */
  lemma RestartedView(v: View, left: set<RunId>, resumed: map<RunId, nat>)
    requires Serial(v) && left <= v.running
    requires resumed == map[] || exists t :: t in v.queued && resumed == map[t := 1]
    ensures var v' := View(v.queued, left, resumed, map[], map[], map[], v.begun);
            && (Serial(v') <==> resumed == map[] || left == {})
            && (Manned(v') <==> resumed != map[] && left == {})
            && Rows(v') == v.queued + left
  {
    var v' := View(v.queued, left, resumed, map[], map[], map[], v.begun);
    OneAtATime(v);
    Monotone(left, v.running);
    assert Promises(v') == {} && Rejected(v') == {};
    if t :| Owns(v', t) || Promised(v', t) { assert t in v'.scheduled; }
    if t :| t in v.queued && resumed == map[t := 1] {
      if left == {} { assert Owns(v', t); }
    }
  }
}
