/** Draining without interference: `_execute_run` and `_drain_queued_run` call each other until the
    queue of the Automation is empty. */
module RunDrain {
  import opened AutomationFacts
  import opened RunSets
  import opened RunSlices

  /** What happens to one run when it is executed: whether its environment is ready, how each of its
      permitted attempts ends, and whether the output holds the stop phrase. */
  datatype Turn = Turn(ready: bool, attempts: seq<bool>, stop: bool)

  predicate Succeeds(turn: Turn) {
    true in turn.attempts
  }

  /** The retry loop: attempts are made in order until one succeeds or none is left. */
  method RunAttempts(turn: Turn) returns (completed: bool, made: nat)
    ensures completed <==> Succeeds(turn)
    ensures completed ==> 0 < made <= |turn.attempts| && turn.attempts[made - 1]
    ensures forall i :: 0 <= i < (if completed then made - 1 else |turn.attempts|) ==> !turn.attempts[i]
    ensures !completed ==> made == |turn.attempts|
  {
    made := 0;
    while made < |turn.attempts|
      invariant made <= |turn.attempts|
      invariant forall i :: 0 <= i < made ==> !turn.attempts[i]
    {
      made := made + 1;
      if turn.attempts[made - 1] {
        return true, made;
      }
    }
    return false, made;
  }

  type Script = RunId -> Turn

  predicate Starts(db: Db, run: RunId, turn: Turn)
    requires run < |db.runs| && db.runs[run].auto in db.defs
  {
    var d := db.defs[db.runs[run].auto];
    turn.ready && d.confirmed && d.status == Active
  }

  /** One run, from admission to settlement, without the drain that follows. */
  function Attempted(db: Db, run: RunId, turn: Turn): Db
    requires run < |db.runs| && db.runs[run].auto in db.defs
  {
    if !Starts(db, run, turn) then WithRunStatus(db, run, RunBlocked)
    else
      var settled := WithRunStatus(WithRunStatus(db, run, Running), run, if Succeeds(turn) then Completed else Failed);
      Stopped(settled, db.runs[run].auto, Succeeds(turn) && turn.stop)
  }

  /** `_execute_run` to its end, with nothing else going on. */
  ghost function ExecuteToEnd(db: Db, run: RunId, script: Script): Db
    requires run < |db.runs| && db.runs[run].status == Queued && Alive(db, db.runs[run].auto)
    decreases |QueuedRuns(db, db.runs[run].auto)|, 0
  {
    var auto := db.runs[run].auto;
    AttemptedQueue(db, run, script(run));
    assert run in QueuedRuns(db, auto);
    DrainToEnd(Attempted(db, run, script(run)), auto, run, script)
  }

  ghost function DrainToEnd(db: Db, auto: AutomationId, exclude: RunId, script: Script): Db
    requires Alive(db, auto)
    decreases |QueuedRuns(db, auto)|, 1
  {
    var queued := QueuedRuns(db, auto) - {exclude};
    if RunningRuns(db, auto) != {} || queued == {} then db
    else
      var next := Oldest(db, queued);
      assert next in QueuedRuns(db, auto);
      ExecuteToEnd(db, next, script)
  }

  lemma AttemptedQueue(db: Db, run: RunId, turn: Turn)
    requires run < |db.runs| && db.runs[run].status == Queued && Alive(db, db.runs[run].auto)
    ensures var auto, db' := db.runs[run].auto, Attempted(db, run, turn);
            && QueuedRuns(db', auto) == QueuedRuns(db, auto) - {run}
            && RunningRuns(db', auto) == RunningRuns(db, auto)
            && Alive(db', auto) && |db'.runs| == |db.runs|
            && Terminal(db'.runs[run].status)
            && (forall r: RunId :: r < |db.runs| && r != run ==> db'.runs[r] == db.runs[r])
            && db'.runs[run].(status := Queued) == db.runs[run]
  {
    var auto := db.runs[run].auto;
    StatusMoves(db, run, RunBlocked, auto);
    StatusMoves(db, run, Running, auto);
    var mid := WithRunStatus(db, run, Running);
    StatusMoves(mid, run, Completed, auto);
    StatusMoves(mid, run, Failed, auto);
    assert run !in RunningRuns(db, auto);
    assert RunningRuns(mid, auto) - {run} + {} == RunningRuns(db, auto);
    var db' := Attempted(db, run, turn);
    assert QueuedRuns(db', auto) == QueuedRuns(db, auto) - {run};
    assert RunningRuns(db', auto) == RunningRuns(db, auto);
  }

  /** Several runs one after the other. */
  ghost function AttemptedInOrder(db: Db, order: seq<RunId>, script: Script): Db
    requires forall i :: 0 <= i < |order| ==> order[i] < |db.runs| && db.runs[order[i]].auto in db.defs
    decreases order
  {
    if order == [] then db
    else AttemptedInOrder(Attempted(db, order[0], script(order[0])), order[1..], script)
  }

  ghost predicate InOrder(db: Db, order: seq<RunId>) {
    forall i :: 0 <= i < |order| ==> order[i] < |db.runs| && db.runs[order[i]].auto in db.defs
  }

  /** The given run, then every other queued run of its Automation, oldest first. */
  ghost function DrainOrder(db: Db, run: RunId): seq<RunId>
    requires run < |db.runs|
  {
    [run] + ByAge(db, QueuedRuns(db, db.runs[run].auto) - {run})
  }

  lemma DrainOrderFacts(db: Db, run: RunId)
    requires run < |db.runs| && db.runs[run].status == Queued && db.runs[run].auto in db.defs
    ensures var order := DrainOrder(db, run);
            && InOrder(db, order) && Distinct(order)
            && (forall i :: 0 <= i < |order| ==> order[i] in QueuedRuns(db, db.runs[run].auto))
            && (forall r :: r in QueuedRuns(db, db.runs[run].auto) ==> r in order)
  {
    var rest := QueuedRuns(db, db.runs[run].auto) - {run};
    ByAgeSorted(db, rest);
    HeadAndRest(run, ByAge(db, rest), QueuedRuns(db, db.runs[run].auto));
  }

  lemma HeadAndRest(head: RunId, tail: seq<RunId>, all: set<RunId>)
    requires head in all && Distinct(tail) && forall r :: r in tail <==> r in all - {head}
    ensures Distinct([head] + tail) && (forall r :: r in [head] + tail <==> r in all)
    ensures forall i :: 0 <= i < |[head] + tail| ==> ([head] + tail)[i] in all
  {
    var order := [head] + tail;
    forall i | 0 <= i < |order| ensures order[i] in all && (i > 0 ==> order[i] == tail[i - 1] && order[i] != head) {
      if i > 0 { assert tail[i - 1] in tail; }
    }
  }

  lemma DrainOrderNext(db: Db, run: RunId, turn: Turn)
    requires run < |db.runs| && db.runs[run].status == Queued && Alive(db, db.runs[run].auto)
    ensures var auto, db1 := db.runs[run].auto, Attempted(db, run, turn);
            if QueuedRuns(db, auto) - {run} == {} then DrainOrder(db, run) == [run]
            else
              var next := Oldest(db1, QueuedRuns(db1, auto));
              DrainOrder(db, run) == [run] + DrainOrder(db1, next)
  {
    var auto, db1 := db.runs[run].auto, Attempted(db, run, turn);
    var rest := QueuedRuns(db, auto) - {run};
    AttemptedQueue(db, run, turn);
    if rest != {} {
      ByAgeFrame(db, db1, rest);
    }
  }

  /** The mutual recursion is a loop over the queue in order of age: the given run, then every other
      queued run of the Automation, each attempted exactly once, oldest first, whether the runs
      before it completed, failed, were blocked or paused the definition. */
  lemma {:induction false} DrainIsByAge(db: Db, run: RunId, script: Script)
    requires run < |db.runs| && db.runs[run].status == Queued && Alive(db, db.runs[run].auto)
    requires RunningRuns(db, db.runs[run].auto) == {}
    ensures InOrder(db, DrainOrder(db, run))
    ensures ExecuteToEnd(db, run, script) == AttemptedInOrder(db, DrainOrder(db, run), script)
    decreases |QueuedRuns(db, db.runs[run].auto)|
  {
    var auto := db.runs[run].auto;
    var db1 := Attempted(db, run, script(run));
    AttemptedQueue(db, run, script(run));
    DrainOrderFacts(db, run);
    DrainOrderNext(db, run, script(run));
    assert run in QueuedRuns(db, auto);
    if QueuedRuns(db, auto) - {run} != {} {
      var next := Oldest(db1, QueuedRuns(db1, auto));
      assert next in QueuedRuns(db1, auto);
      assert QueuedRuns(db1, auto) - {run} == QueuedRuns(db1, auto);
      DrainIsByAge(db1, next, script);
      assert DrainOrder(db, run)[1..] == DrainOrder(db1, next);
    } else {
      assert QueuedRuns(db1, auto) - {run} == {};
    }
  }

  lemma {:induction false} InOrderSettles(db: Db, order: seq<RunId>, auto: AutomationId, script: Script)
    requires InOrder(db, order) && Distinct(order) && Alive(db, auto)
    requires forall i :: 0 <= i < |order| ==> order[i] in QueuedRuns(db, auto)
    ensures var db' := AttemptedInOrder(db, order, script);
            && |db'.runs| == |db.runs|
            && (forall r: RunId :: r < |db.runs| && r in order ==> Terminal(db'.runs[r].status))
            && (forall r: RunId :: r < |db.runs| && r !in order ==> db'.runs[r] == db.runs[r])
    decreases order
  {
    if order != [] {
      var db1 := Attempted(db, order[0], script(order[0]));
      AttemptedQueue(db, order[0], script(order[0]));
      RestOfOrder(order);
      InOrderSettles(db1, order[1..], auto, script);
    }
  }

  lemma RestOfOrder(order: seq<RunId>)
    requires order != [] && Distinct(order)
    ensures Distinct(order[1..]) && order[0] !in order[1..] && forall r :: r in order <==>
            r == order[0] || r in order[1..]
    ensures forall i :: 0 <= i < |order[1..]| ==> order[1..][i] == order[i + 1] && order[i + 1] != order[0]
  {
    assert order == [order[0]] + order[1..];
  }

  /** Without arrivals the queue ends up empty: every run that was queued is settled, and no other
      run of any Automation is touched. */
  lemma DrainEmpties(db: Db, run: RunId, script: Script)
    requires run < |db.runs| && db.runs[run].status == Queued && Alive(db, db.runs[run].auto)
    requires RunningRuns(db, db.runs[run].auto) == {}
    ensures var auto, db' := db.runs[run].auto, ExecuteToEnd(db, run, script);
            && |db'.runs| == |db.runs| && ActiveRuns(db', auto) == {}
            && (forall r: RunId :: r < |db.runs| ==>
                  if r in QueuedRuns(db, auto) then Terminal(db'.runs[r].status) else db'.runs[r] == db.runs[r])
  {
    var auto := db.runs[run].auto;
    DrainIsByAge(db, run, script);
    DrainOrderFacts(db, run);
    InOrderSettles(db, DrainOrder(db, run), auto, script);
    assert forall r :: r in DrainOrder(db, run) ==> r in QueuedRuns(db, auto);
    assert ActiveRuns(ExecuteToEnd(db, run, script), auto) == {};
  }

  // ---- how each run ends ------------------------------------------------------------------------------

  /** One of the permitted attempts succeeds. */
  predicate SomeAttempt(turn: Turn) {
    exists i :: 0 <= i < |turn.attempts| && turn.attempts[i]
  }

  /** A run is attempted exactly if its environment is available and its definition confirmed and active; then it is
      completed or failed, and an output with the stop phrase pauses the definition. Otherwise it is blocked. */
  lemma AttemptEnds(db: Db, run: RunId, turn: Turn)
    requires run < |db.runs| && db.runs[run].status == Queued && Alive(db, db.runs[run].auto)
    ensures var auto, db' := db.runs[run].auto, Attempted(db, run, turn);
            var d := db.defs[auto];
            var attempted := turn.ready && d.confirmed && d.status == Active;
            && |db'.runs| == |db.runs|
            && (db'.runs[run].status ==
                  if !attempted then RunBlocked else if SomeAttempt(turn) then Completed else Failed)
            && db'.defs == db.defs[auto := if attempted && SomeAttempt(turn) && turn.stop
                                           then d.(status := Paused, revision := d.revision + 1) else d]
  {
    assert Succeeds(turn) <==> SomeAttempt(turn);
    assert db.defs[db.runs[run].auto := db.defs[db.runs[run].auto]] == db.defs;
  }

  /** An earlier run of the order pauses the definition. */
  ghost predicate StoppedBefore(order: seq<RunId>, script: Script, i: nat)
    requires i <= |order|
  {
    exists j :: 0 <= j < i && script(order[j]).ready && SomeAttempt(script(order[j])) && script(order[j]).stop
  }

  lemma StoppedTail(order: seq<RunId>, script: Script, i: nat)
    requires 0 < i <= |order|
    ensures StoppedBefore(order, script, i) <==>
            || (script(order[0]).ready && SomeAttempt(script(order[0])) && script(order[0]).stop)
            || StoppedBefore(order[1..], script, i - 1)
  {
    var rest := order[1..];
    if StoppedBefore(order, script, i) {
      var j :| 0 <= j < i && script(order[j]).ready && SomeAttempt(script(order[j])) && script(order[j]).stop;
      if j > 0 { assert order[j] == rest[j - 1]; }
    }
    if StoppedBefore(rest, script, i - 1) {
      var j :| 0 <= j < i - 1 && script(rest[j]).ready && SomeAttempt(script(rest[j])) && script(rest[j]).stop;
      assert rest[j] == order[j + 1];
    }
  }

  /** How the run at a place of the order ends. */
  ghost function EndOf(db: Db, auto: AutomationId, order: seq<RunId>, script: Script, i: nat): RunStatus
    requires i < |order| && auto in db.defs
  {
    var turn := script(order[i]);
    if turn.ready && db.defs[auto].confirmed && db.defs[auto].status == Active && !StoppedBefore(order, script, i)
    then if SomeAttempt(turn) then Completed else Failed
    else RunBlocked
  }

  lemma {:induction false} OrderEnds(db: Db, order: seq<RunId>, auto: AutomationId, script: Script, i: nat)
    requires InOrder(db, order) && Distinct(order) && Alive(db, auto) && i < |order|
    requires forall k :: 0 <= k < |order| ==> order[k] in QueuedRuns(db, auto)
    ensures var db' := AttemptedInOrder(db, order, script);
            |db'.runs| == |db.runs| && db'.runs[order[i]].status == EndOf(db, auto, order, script, i)
    decreases order
  {
    var db1 := Attempted(db, order[0], script(order[0]));
    AttemptedQueue(db, order[0], script(order[0]));
    RestOfOrder(order);
    if i > 0 {
      OrderEnds(db1, order[1..], auto, script, i - 1);
      EndTail(db, order, auto, script, i);
    } else {
      AttemptEnds(db, order[0], script(order[0]));
      InOrderSettles(db1, order[1..], auto, script);
    }
  }

  lemma EndTail(db: Db, order: seq<RunId>, auto: AutomationId, script: Script, i: nat)
    requires Alive(db, auto) && 0 < i < |order| && order[0] in QueuedRuns(db, auto)
    ensures var db1 := Attempted(db, order[0], script(order[0]));
            auto in db1.defs && EndOf(db1, auto, order[1..], script, i - 1) == EndOf(db, auto, order, script, i)
  {
    AttemptEnds(db, order[0], script(order[0]));
    StoppedTail(order, script, i);
  }

  /** Without arrivals: the drain takes the given run and then the others, oldest first, and each of them is completed
      or failed if its environment is available, its definition was confirmed and active, and no run before it has
      paused it; it is blocked otherwise. */
  lemma DrainEnds(db: Db, run: RunId, script: Script, i: nat)
    requires run < |db.runs| && db.runs[run].status == Queued && Alive(db, db.runs[run].auto)
    requires RunningRuns(db, db.runs[run].auto) == {} && i < |DrainOrder(db, run)|
    ensures var order, db' := DrainOrder(db, run), ExecuteToEnd(db, run, script);
            && |db'.runs| == |db.runs| && order[i] < |db.runs|
            && db'.runs[order[i]].status == EndOf(db, db.runs[run].auto, order, script, i)
  {
    DrainIsByAge(db, run, script);
    DrainOrderFacts(db, run);
    OrderEnds(db, DrainOrder(db, run), db.runs[run].auto, script, i);
  }
}
