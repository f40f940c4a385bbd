/** Idempotent occurrences under the finest interleaving: any number of callers inside
    `_prepare_run`, each store call of each a step of its own, with any other store calls between. */
module Occurrences {
  import opened Wrappers
  import opened AutomationFacts
  import opened RunSets
  import opened RunSlices

  /** Where a caller stands in `_prepare_run`. */
  datatype Stage =
    | Called
    | NotFoundYet
    | Counted(active: nat)
    | RowInserted(run: RunId, verdict: Verdict)
    | Returned(run: RunId, submit: bool)
    | Raised

  datatype Caller = Caller(auto: AutomationId, snapshot: Definition, occurrence: string, stage: Stage)

  datatype World = World(db: Db, callers: seq<Caller>)

  datatype Step =
    | Enter(auto: AutomationId, snapshot: Definition, occurrence: string)
    | LookUp(caller: nat)
    | Count(caller: nat)
    | Insert(caller: nat, now: int)
    | Conclude(caller: nat)
    | Elsewhere(op: StoreOp)

  function At(w: World, i: nat, stage: Stage): World
    requires i < |w.callers|
  {
    w.(callers := w.callers[i := w.callers[i].(stage := stage)])
  }

  ghost function Next(w: World, step: Step): World {
    match step
    case Enter(auto, snapshot, occurrence) => w.(callers := w.callers + [Caller(auto, snapshot, occurrence, Called)])
    case LookUp(i) =>
      if !(i < |w.callers| && w.callers[i].stage == Called) then w else
      var c := w.callers[i];
      if c.snapshot.status != Active then At(w, i, Raised)
      else if HasOccurrence(w.db, c.auto, c.occurrence)
          then At(w, i, Returned(RunOf(w.db, c.auto, c.occurrence), false))
      else At(w, i, NotFoundYet)
    case Count(i) =>
      if !(i < |w.callers| && w.callers[i].stage == NotFoundYet) then w else
      At(w, i, Counted(|ActiveRuns(w.db, w.callers[i].auto)|))
    case Insert(i, now) =>
      if !(i < |w.callers| && w.callers[i].stage.Counted?) then w else
      var c := w.callers[i];
      if c.auto !in w.db.defs then At(w, i, Raised)
      else if HasOccurrence(w.db, c.auto, c.occurrence)
          then At(w, i, Returned(RunOf(w.db, c.auto, c.occurrence), false))
      else
        At(w.(db := WithRun(w.db, c.auto, c.occurrence, c.snapshot.revision, now)), i,
           RowInserted(|w.db.runs|, Admit(c.snapshot.policy, c.stage.active)))
    case Conclude(i) =>
      if !(i < |w.callers| && w.callers[i].stage.RowInserted?) then w else
      var RowInserted(run, verdict) := w.callers[i].stage;
      At(if verdict == Reject && run < |w.db.runs| then w.(db := WithRunStatus(w.db, run, Skipped)) else w, i,
         Returned(run, verdict == Submit))
    case Elsewhere(op) => w.(db := Apply(w.db, op))
  }

  ghost function Interleaving(w: World, steps: seq<Step>): World {
    if steps == [] then w else Next(Interleaving(w, steps[..|steps| - 1]), steps[|steps| - 1])
  }

  /** The run a caller has in hand. */
  function Holds(c: Caller): Option<RunId> {
    match c.stage
    case RowInserted(run, _) => Some(run)
    case Returned(run, _) => Some(run)
    case _ => None
  }

  /** The run a caller inserted and, it may be, will be told to submit. */
  function Makes(c: Caller): Option<RunId> {
    match c.stage
    case RowInserted(run, _) => Some(run)
    case Returned(run, submit) => if submit then Some(run) else None
    case _ => None
  }

  ghost predicate Consistent(w: World) {
    && UniqueOccurrences(w.db)
    && (forall i :: 0 <= i < |w.callers| && Holds(w.callers[i]).Some? ==>
          IsOccurrence(w.db, w.callers[i].auto, w.callers[i].occurrence, Holds(w.callers[i]).value))
    && (forall i, j :: 0 <= i < j < |w.callers| && Makes(w.callers[i]).Some? ==>
      Makes(w.callers[i]) != Makes(w.callers[j]))
  }

  lemma NextConsistent(w: World, step: Step)
    requires Consistent(w)
    ensures Consistent(Next(w, step))
  {
    match step
    case Enter(_, _, _) =>
    case LookUp(i) => if i < |w.callers| { StageOnly(w, Next(w, step), i); }
    case Count(i) => if i < |w.callers| { StageOnly(w, Next(w, step), i); }
    case Insert(i, now) =>
      if Next(w, step).db != w.db {
        InsertConsistent(w, i, now);
      } else if i < |w.callers| {
        StageOnly(w, Next(w, step), i);
      }
    case Elsewhere(op) => ElsewhereConsistent(w, op);
    case Conclude(i) => ConcludeConsistent(w, i);
  }

  /** One caller moves on without a run of its own making, and the rows stay. */
  lemma StageOnly(w: World, w': World, i: nat)
    requires Consistent(w) && w'.db == w.db && i < |w.callers| == |w'.callers|
    requires w' == w || (w' == At(w, i, w'.callers[i].stage) && Makes(w'.callers[i]) == None)
    requires w' != w && Holds(w'.callers[i]).Some? ==>
               IsOccurrence(w.db, w.callers[i].auto, w.callers[i].occurrence, Holds(w'.callers[i]).value)
    ensures Consistent(w')
  {
  }

  lemma ConcludeConsistent(w: World, i: nat)
    requires Consistent(w)
    ensures Consistent(Next(w, Step.Conclude(i)))
  {
    if i < |w.callers| && w.callers[i].stage.RowInserted? {
      var db, db' := w.db, Next(w, Step.Conclude(i)).db;
      assert |db'.runs| == |db.runs|;
      assert forall r :: 0 <= r < |db.runs| ==>
        db'.runs[r].auto == db.runs[r].auto && db'.runs[r].occurrence == db.runs[r].occurrence;
    }
  }

  lemma InsertConsistent(w: World, i: nat, now: int)
    requires Consistent(w) && i < |w.callers| && w.callers[i].stage.Counted?
    requires w.callers[i].auto in w.db.defs && !HasOccurrence(w.db, w.callers[i].auto, w.callers[i].occurrence)
    ensures Consistent(Next(w, Step.Insert(i, now)))
  {
    var c, w' := w.callers[i], Next(w, Step.Insert(i, now));
    forall r | 0 <= r < |w.db.runs| ensures !(w.db.runs[r].auto == c.auto && w.db.runs[r].occurrence == c.occurrence) {
      assert !IsOccurrence(w.db, c.auto, c.occurrence, r);
    }
    forall j | 0 <= j < |w.callers| && Makes(w.callers[j]).Some? ensures Makes(w.callers[j]).value < |w.db.runs| {
      assert Holds(w.callers[j]) == Makes(w.callers[j]);
    }
  }

  lemma ElsewhereConsistent(w: World, op: StoreOp)
    requires Consistent(w)
    ensures Consistent(Next(w, Elsewhere(op)))
  {
    var db, db' := w.db, Apply(w.db, op);
    assert |db.runs| <= |db'.runs|;
    assert forall r :: 0 <= r < |db.runs| ==>
      db'.runs[r].auto == db.runs[r].auto && db'.runs[r].occurrence == db.runs[r].occurrence;
    if op.CreateRun? && db'.runs != db.runs {
      forall r | 0 <= r < |db.runs| ensures !(db.runs[r].auto == op.auto && db.runs[r].occurrence == op.occurrence) {
        assert !IsOccurrence(db, op.auto, op.occurrence, r);
      }
    }
  }

  predicate SameOccurrence(c: Caller, d: Caller) {
    c.auto == d.auto && c.occurrence == d.occurrence
  }

  /** What two returned callers of one occurrence have to do with each other. */
  predicate Agree(w: World, i: nat, j: nat)
    requires i < |w.callers| && j < |w.callers|
  {
    var c, d := w.callers[i].stage, w.callers[j].stage;
    (c.Returned? && d.Returned? && SameOccurrence(w.callers[i], w.callers[j])) ==>
      c.run == d.run && ((c.submit && d.submit) ==> i == j)
  }

  lemma Agreement(w: World, i: nat, j: nat)
    requires Consistent(w) && i < |w.callers| && j < |w.callers|
    ensures Agree(w, i, j)
  {
    var c, d := w.callers[i], w.callers[j];
    if c.stage.Returned? && d.stage.Returned? && SameOccurrence(c, d) {
      assert Holds(c).Some? && Holds(d).Some?;
      if i < j {
        assert Makes(c).Some? ==> Makes(c) != Makes(d);
      } else if j < i {
        assert Makes(d).Some? ==> Makes(d) != Makes(c);
      }
    }
  }

  lemma {:induction false} InterleavingConsistent(steps: seq<Step>)
    ensures Consistent(Interleaving(World(EMPTY, []), steps))
  {
    if steps != [] {
      InterleavingConsistent(steps[..|steps| - 1]);
      NextConsistent(Interleaving(World(EMPTY, []), steps[..|steps| - 1]), steps[|steps| - 1]);
    }
  }

  /** Over every interleaving there is one run per occurrence, every caller that returns gets that
      run, and at most one of them is told to submit it. */
  lemma OccurrenceOnce(steps: seq<Step>)
    ensures var w := Interleaving(World(EMPTY, []), steps);
            && UniqueOccurrences(w.db)
            && (forall i, j | 0 <= i < |w.callers| && 0 <= j < |w.callers| :: Agree(w, i, j))
            && (forall i | 0 <= i < |w.callers| && w.callers[i].stage.Returned? ::
                  IsOccurrence(w.db, w.callers[i].auto, w.callers[i].occurrence, w.callers[i].stage.run))
  {
    var w := Interleaving(World(EMPTY, []), steps);
    InterleavingConsistent(steps);
    forall i, j | 0 <= i < |w.callers| && 0 <= j < |w.callers| ensures Agree(w, i, j) {
      Agreement(w, i, j);
    }
    forall i | 0 <= i < |w.callers| && w.callers[i].stage.Returned?
      ensures IsOccurrence(w.db, w.callers[i].auto, w.callers[i].occurrence, w.callers[i].stage.run)
    {
      assert Holds(w.callers[i]).Some?;
    }
  }

  // ---- a caller alone -----------------------------------------------------------------------------------

  /** What a caller ends with if nobody comes between its store calls. */
  ghost function Alone(w: World, i: nat, now: int): World {
    Next(Next(Next(Next(w, LookUp(i)), Count(i)), Step.Insert(i, now)), Step.Conclude(i))
  }

  /** A request that finds its Automation not active, or missing, raises and stores nothing; a known occurrence is
      answered with its run, which is not this caller's to submit. */
  lemma AloneAnswers(w: World, i: nat, now: int)
    requires i < |w.callers| && w.callers[i].stage == Called
    ensures var c, w' := w.callers[i], Alone(w, i, now);
            if c.snapshot.status != Active then w' == At(w, i, Raised)
            else if exists r :: IsOccurrence(w.db, c.auto, c.occurrence, r) then
              && w'.db == w.db && w'.callers[i].stage.Returned? && !w'.callers[i].stage.submit
              && IsOccurrence(w.db, c.auto, c.occurrence, w'.callers[i].stage.run)
            else if c.auto !in w.db.defs then w' == At(w, i, Raised)
            else w'.callers[i].stage.Returned? && w'.callers[i].stage.run == |w.db.runs|
  {
  }

  /** A new occurrence gets a new run, by the number of queued and running runs that the caller has counted: the caller
      is told to submit it, it waits, or it is skipped. */
  lemma AloneInserts(w: World, i: nat, now: int)
    requires i < |w.callers| && w.callers[i].stage == Called && w.callers[i].snapshot.status == Active
    requires var c := w.callers[i]; c.auto in w.db.defs && !HasOccurrence(w.db, c.auto, c.occurrence)
    ensures var c, w', n := w.callers[i], Alone(w, i, now), |w.db.runs|;
            var verdict := Admit(c.snapshot.policy, |ActiveRuns(w.db, c.auto)|);
            && w'.callers[i].stage == Returned(n, verdict == Submit)
            && |w'.db.runs| == n + 1 && w'.db.defs == w.db.defs
            && (forall r: RunId :: r < n ==> w'.db.runs[r] == w.db.runs[r])
            && w'.db.runs[n].auto == c.auto && w'.db.runs[n].occurrence == c.occurrence
            && w'.db.runs[n].revision == c.snapshot.revision && w'.db.runs[n].createdAt == now
            && w'.db.runs[n].status == if verdict == Reject then Skipped else Queued
  {
  }
}
