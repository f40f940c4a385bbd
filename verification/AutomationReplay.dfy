/** The event log is a faithful, append-only account of every status and revision. */
module AutomationReplay {
  import opened Wrappers
  import opened AutomationFacts

  /** Status told by the last event of a run. */
  function ReplayRun(log: seq<Event>, run: RunId): Option<RunStatus> {
    if log == [] then None else
    match log[|log| - 1]
    case RunEvent(_, r, status) => if r == run then Some(status) else ReplayRun(log[..|log| - 1], run)
    case _ => ReplayRun(log[..|log| - 1], run)
  }

  /** Status told by the last creation or transition event of a definition. */
  function ReplayDefinition(log: seq<Event>, auto: AutomationId): Option<DefinitionStatus> {
    if log == [] then None else
    match log[|log| - 1]
    case DefinitionCreated(a) => if a == auto then Some(Active) else ReplayDefinition(log[..|log| - 1], auto)
    case DefinitionStatus(a, status) =>
      if a == auto then Some(status) else ReplayDefinition(log[..|log| - 1], auto)
    case _ => ReplayDefinition(log[..|log| - 1], auto)
  }

  /** The definition events that move its revision: creation, transitions, updates that write a column. */
  predicate Bumps(e: Event, auto: AutomationId) {
    match e
    case DefinitionCreated(a) => a == auto
    case DefinitionStatus(a, _) => a == auto
    case DefinitionUpdated(a, fields) => a == auto && fields != {}
    case RunEvent(_, _, _) => false
  }

  function RevisionOf(log: seq<Event>, auto: AutomationId): nat {
    if log == [] then 0
    else RevisionOf(log[..|log| - 1], auto) + if Bumps(log[|log| - 1], auto) then 1 else 0
  }

  predicate Settles(e: Event, run: RunId) {
    e.RunEvent? && e.run == run && Terminal(e.runStatus)
  }

  function Settlements(log: seq<Event>, run: RunId): nat {
    if log == [] then 0
    else Settlements(log[..|log| - 1], run) + if Settles(log[|log| - 1], run) then 1 else 0
  }

  /** The log tells every status and revision, and nothing about rows that do not exist. */
  ghost predicate Faithful(db: Db) {
    && (forall r: RunId :: ReplayRun(db.log, r) == if r < |db.runs| then Some(db.runs[r].status) else None)
    && (forall r: RunId :: Settlements(db.log, r) == if r < |db.runs| && Terminal(db.runs[r].status) then 1 else 0)
    && (forall a :: ReplayDefinition(db.log, a) == if a in db.defs then Some(db.defs[a].status) else None)
    && (forall a :: RevisionOf(db.log, a) == if a in db.defs then db.defs[a].revision else 0)
  }

  /** What one more event changes in each fold. */
  lemma Appended(log: seq<Event>, e: Event, run: RunId, auto: AutomationId)
    ensures ReplayRun(log + [e], run) == if e.RunEvent? && e.run == run then Some(e.runStatus) else ReplayRun(log, run)
    ensures Settlements(log + [e], run) == Settlements(log, run) + if Settles(e, run) then 1 else 0
    ensures ReplayDefinition(log + [e], auto) ==
            (if e.DefinitionCreated? && e.auto == auto then Some(Active)
             else if e.DefinitionStatus? && e.auto == auto then Some(e.status)
             else ReplayDefinition(log, auto))
    ensures RevisionOf(log + [e], auto) == RevisionOf(log, auto) + if Bumps(e, auto) then 1 else 0
  {
    assert (log + [e])[..|log|] == log;
  }

  lemma ApplyFaithful(db: Db, op: StoreOp)
    requires Faithful(db)
    ensures Faithful(Apply(db, op))
  {
    var db' := Apply(db, op);
    if db'.log != db.log {
      var e := db'.log[|db.log|];
      assert db'.log == db.log + [e];
      forall r: RunId ensures
        && ReplayRun(db'.log, r) == (if r < |db'.runs| then Some(db'.runs[r].status) else None)
        && Settlements(db'.log, r) == (if r < |db'.runs| && Terminal(db'.runs[r].status) then 1 else 0)
      {
        Appended(db.log, e, r, e.auto);
      }
      forall a ensures
        && ReplayDefinition(db'.log, a) == (if a in db'.defs then Some(db'.defs[a].status) else None)
        && RevisionOf(db'.log, a) == (if a in db'.defs then db'.defs[a].revision else 0)
      {
        Appended(db.log, e, 0, a);
      }
    }
  }

  /** Whatever store calls were made, in whatever order and with whatever arguments, folding the
      event log gives back every run status and every definition status and revision; and a run
      has one terminal event if it is settled and none otherwise. */
  lemma {:induction false} ReplayReconstructs(ops: seq<StoreOp>)
    ensures Faithful(ApplyAll(EMPTY, ops))
  {
    if ops != [] {
      ReplayReconstructs(ops[..|ops| - 1]);
      ApplyFaithful(ApplyAll(EMPTY, ops[..|ops| - 1]), ops[|ops| - 1]);
    }
  }

  /** What no store call undoes. */
  ghost predicate Extends(db: Db, db': Db) {
    && db.log <= db'.log
    && |db.runs| <= |db'.runs|
    && db.defs.Keys <= db'.defs.Keys
    && (forall r: RunId :: r < |db.runs| ==> db'.runs[r].(status := db.runs[r].status) == db.runs[r])
    && (forall r: RunId :: r < |db.runs| && Terminal(db.runs[r].status) ==> db'.runs[r] == db.runs[r])
    && (forall a :: a in db.defs ==> db.defs[a].revision <= db'.defs[a].revision)
    && (forall a :: a in db.defs && db.defs[a].status == Deleted ==>
          db'.defs[a].(jobId := db.defs[a].jobId) == db.defs[a])
  }

  lemma ApplyExtends(db: Db, op: StoreOp)
    ensures Extends(db, Apply(db, op))
  {
  }

  /** Settled runs and deleted definitions are final, run rows keep their automation, occurrence and
      frozen revision, revisions never go back and the log only grows, over any later store calls. */
  lemma {:induction false} HistoryIsFinal(db: Db, ops: seq<StoreOp>)
    ensures Extends(db, ApplyAll(db, ops))
  {
    if ops != [] {
      var mid := ApplyAll(db, ops[..|ops| - 1]);
      HistoryIsFinal(db, ops[..|ops| - 1]);
      ApplyExtends(mid, ops[|ops| - 1]);
    }
  }
}
