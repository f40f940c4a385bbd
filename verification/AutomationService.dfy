/** `AutomationService`: admission, execution slices, drain and start-up reconciliation, as methods
    over the store and the event loop of one Node. */
module AutomationRuns {
  import opened Wrappers
  import opened AutomationFacts
  import opened AutomationTables
  import opened RunSets
  import opened RunSlices

  datatype PrepareError = NotActive | AgentUnreadable | NoSuchAutomation

  /** Why a run is not prepared; an occurrence that has a run is never refused. */
  ghost function PrepareRefusal(db: Db, auto: AutomationId, snapshot: Definition, occurrence: string, readable: bool)
    : Option<PrepareError>
  {
    if snapshot.status != Active then Some(NotActive)
    else if HasOccurrence(db, auto, occurrence) then None
    else if !readable then Some(AgentUnreadable)
    else if auto !in db.defs then Some(NoSuchAutomation)
    else None
  }

  predicate StopRaises(db: Db, auto: AutomationId, interrupted: bool, syncRaises: bool) {
    interrupted || !Alive(db, auto) || (db.defs[auto].status == Active && syncRaises)
  }

  /** What preparing a run makes of the Node; nothing, if the Agent cannot be read. */
  ghost function PreparedIf(s: Sys, auto: AutomationId, snapshot: Definition, occurrence: string, now: int,
                            readable: bool): Sys {
    if readable then Prepared(s, auto, snapshot, occurrence, now) else s
  }

  /** Of a request for an Automation that is not active, whose Agent cannot be read or that is missing, the first reason
      is given, and an occurrence that has a run is answered before the Agent is read. */
  lemma PrepareAnswers(db: Db, auto: AutomationId, snapshot: Definition, occurrence: string, readable: bool)
    ensures var known := exists r :: 0 <= r < |db.runs| && db.runs[r].auto == auto
                                     && db.runs[r].occurrence == occurrence;
            var refusal := PrepareRefusal(db, auto, snapshot, occurrence, readable);
            && (refusal == Some(NotActive) <==> snapshot.status != Active)
            && (snapshot.status == Active && known ==> refusal == None)
            && (refusal == Some(AgentUnreadable) <==> snapshot.status == Active && !known && !readable)
            && (refusal == Some(NoSuchAutomation) <==>
                  snapshot.status == Active && !known && readable && auto !in db.defs)
  {
    if HasOccurrence(db, auto, occurrence) {
      var r: RunId :| IsOccurrence(db, auto, occurrence, r);
      assert db.runs[r].auto == auto;
    }
    if r :| 0 <= r < |db.runs| && db.runs[r].auto == auto && db.runs[r].occurrence == occurrence {
      assert IsOccurrence(db, auto, occurrence, r);
    }
  }

  /** The stop condition raises when it is interrupted, for a missing or deleted definition, and when the pause of an
      active one cannot be carried over to its schedule. */
  lemma StopConditionRaises(db: Db, auto: AutomationId, interrupted: bool, syncRaises: bool)
    ensures StopRaises(db, auto, interrupted, syncRaises) <==>
            || interrupted || auto !in db.defs
            || (match db.defs[auto].status
                case Deleted => true
                case Active => syncRaises
                case Paused => false
                case Blocked => false)
  {
  }

  class AutomationService {
    const store: AutomationStore

    // Where the coroutines of the event loop stand, and the rows that callers have still to conclude.
    var scheduled: multiset<RunId>
    var executing: multiset<RunId>
    var closing: multiset<RunId>
    var held: map<RunId, Verdict>

    ghost function State(): Sys
      reads this, store
    {
      Sys(store.Facts(), scheduled, executing, closing, held)
    }

    constructor (store: AutomationStore)
      ensures this.store == store && State() == Sys(store.Facts(), multiset{}, multiset{}, multiset{}, map[])
    {
      this.store := store;
      scheduled, executing, closing, held := multiset{}, multiset{}, multiset{}, map[];
    }

    /** `_prepare_run`: the run of the occurrence, and whether the caller has to submit it. `readable`
        says that the Agent of the definition can be read. */
    method PrepareRun(auto: AutomationId, snapshot: Definition, occurrence: string, now: int, readable: bool)
      returns (r: Result<(RunId, bool), PrepareError>)
      modifies store, this`held
      ensures State() == PreparedIf(old(State()), auto, snapshot, occurrence, now, readable)
      ensures r.Err? <==> PrepareRefusal(old(store.Facts()), auto, snapshot, occurrence, readable).Some?
      ensures r.Err? ==> PrepareRefusal(old(store.Facts()), auto, snapshot, occurrence, readable) == Some(r.error)
      ensures r.Ok? ==> IsOccurrence(store.Facts(), auto, occurrence, r.value.0)
      ensures r.Ok? ==> (r.value.1 <==> MustSubmit(old(State()), auto, snapshot, occurrence))
      ensures r.Ok? && r.value.1 ==> r.value.0 == |old(store.runs)|
    {
      if snapshot.status != Active {
        return Err(NotActive);
      }
      var existing := store.RunForOccurrence(auto, occurrence);
      if existing.Some? {
        return Ok((existing.value, false));
      }
      var activeCount := store.ActiveRunCount(auto);
      if !readable {
        return Err(AgentUnreadable);
      }
      r := AdmitRun(auto, snapshot, occurrence, now, Admit(snapshot.policy, activeCount));
    }

    /** The rest of the preparation: insert the row and, if it is rejected, mark it. */
    method AdmitRun(auto: AutomationId, snapshot: Definition, occurrence: string, now: int, verdict: Verdict)
      returns (r: Result<(RunId, bool), PrepareError>)
      requires snapshot.status == Active && !HasOccurrence(store.Facts(), auto, occurrence)
      modifies store, this`held
      ensures var was := old(State());
              var s1 := Inserted(was, auto, snapshot, occurrence, now, verdict);
              && State() == (if auto in was.db.defs && verdict == Reject then Concluded(s1, |was.db.runs|) else s1)
              && r.Err? == (auto !in was.db.defs) && (r.Err? ==> r.error == NoSuchAutomation)
              && (r.Ok? ==> r.value == (|was.db.runs|, verdict == Submit))
              && (r.Ok? ==> IsOccurrence(store.Facts(), auto, occurrence, r.value.0))
    {
      var inserted := InsertRun(auto, snapshot, occurrence, now, verdict);
      if inserted.Err? {
        return inserted;
      }
      if verdict == Reject {
        MarkSkipped(inserted.value.0);
      }
      return Ok((inserted.value.0, verdict == Submit));
    }

    /** The insertion, under a verdict reached before, at whatever time: `create_run` looks for the
        occurrence again. The flag says that the row is new. */
    method InsertRun(auto: AutomationId, snapshot: Definition, occurrence: string, now: int, verdict: Verdict)
      returns (r: Result<(RunId, bool), PrepareError>)
      requires snapshot.status == Active
      modifies store, this`held
      ensures var was := old(State());
              && State() == Inserted(was, auto, snapshot, occurrence, now, verdict)
              && r.Err? == (auto !in was.db.defs) && (r.Err? ==> r.error == NoSuchAutomation)
              && (r.Ok? ==> IsOccurrence(store.Facts(), auto, occurrence, r.value.0))
              && (r.Ok? ==> (r.value.1 <==> !HasOccurrence(was.db, auto, occurrence)))
              && (r.Ok? && r.value.1 ==> r.value.0 == |was.db.runs|)
    {
      var inserted := store.CreateRun(auto, occurrence, snapshot.revision, now);
      if inserted.Err? {
        return Err(NoSuchAutomation);
      }
      if inserted.value.1 && verdict != Enqueue {
        held := held[inserted.value.0 := verdict];
      }
      return Ok(inserted.value);
    }

    /** The last step of a caller whose run is rejected. */
    method MarkSkipped(run: RunId)
      requires run in held && held[run] != Submit && run < |store.runs|
      modifies store, this`held
      ensures State() == Concluded(old(State()), run)
    {
      var _ := store.UpdateRun(run, Skipped);
      held := held - {run};
    }

    /** The last step of a caller whose run is admitted: hand it to the event loop. */
    method SubmitRun(run: RunId)
      requires run in held && held[run] == Submit && run < |store.runs|
      modifies this`scheduled, this`held
      ensures State() == Concluded(old(State()), run)
    {
      scheduled := scheduled + multiset{run};
      held := held - {run};
    }

    /** `run_now`: prepare and, if this request made the run, hand it to the event loop. */
    method RunNow(auto: AutomationId, snapshot: Definition, occurrence: string, now: int, readable: bool)
      returns (r: Result<RunId, PrepareError>)
      modifies store, this`scheduled, this`held
      ensures State() == if readable then Requested(old(State()), auto, snapshot, occurrence, now) else old(State())
      ensures r.Ok? ==> IsOccurrence(store.Facts(), auto, occurrence, r.value)
    {
      var prepared := PrepareRun(auto, snapshot, occurrence, now, readable);
      if prepared.Err? {
        return Err(prepared.error);
      }
      if prepared.value.1 {
        SubmitRun(prepared.value.0);
      }
      return Ok(prepared.value.0);
    }

    /** The missed-run `skip` branch of `run_scheduled`. A run of its own making is not submitted. */
    method SkipMissed(auto: AutomationId, snapshot: Definition, occurrence: string, now: int, readable: bool)
      requires UniqueOccurrences(store.Facts()) && forall run :: run in held ==> run < |store.runs|
      modifies store, this`held
      ensures State() == if readable || HasOccurrence(old(store.Facts()), auto, occurrence)
                         then MissedSkipped(old(State()), auto, snapshot, occurrence, now) else old(State())
    {
      var prepared := PrepareRun(auto, snapshot, occurrence, now, readable);
      if prepared.Ok? {
        SkippedAfter(old(State()), auto, snapshot, occurrence, now, prepared.value.0);
        var _ := store.UpdateRun(prepared.value.0, Skipped);
        if prepared.value.1 {
          held := held - {prepared.value.0};
        }
      }
    }

    /** `_execute_run` up to its first await. */
    method ExecuteRun(run: RunId, ready: set<RunId>)
      requires run < |store.runs|
      modifies store, this`executing, this`closing
      ensures State() == ExecuteSlice(old(State()), run, ready)
      decreases |QueuedRuns(store.Facts(), store.runs[run].auto) - {run}|, 1
    {
      var auto := store.runs[run].auto;
      if auto !in store.definitions || store.definitions[auto].status == Deleted {
        return;
      }
      if !(run in ready && store.definitions[auto].confirmed && store.definitions[auto].status == Active) {
        BlockedDrains(State(), run, ready);
        var _ := store.UpdateRun(run, RunBlocked);
        closing := closing + multiset{run};
        DrainQueuedRun(run, ready);
        return;
      }
      var _ := store.UpdateRun(run, Running);
      executing := executing + multiset{run};
    }

    /** `_drain_queued_run`, from the coroutine of a run: it looks at the two oldest queued runs of its
        Automation and starts the first that is another. */
    method DrainQueuedRun(run: RunId, ready: set<RunId>)
      requires run < |store.runs|
      modifies store, this`executing, this`closing
      ensures State() == DrainSlice(old(State()), run, ready)
      decreases |QueuedRuns(store.Facts(), store.runs[run].auto)|, 0
    {
      var auto := store.runs[run].auto;
      closing := closing - multiset{run};
      var running := store.RunningRunCount(auto);
      if running > 0 {
        return;
      }
      var queued := store.QueuedRunsOf(auto, 2);
      DrainPicks(store.Facts(), run);
      if |queued| > 0 && queued[0] != run {
        ExecuteRun(queued[0], ready);
      } else if |queued| > 1 && queued[1] != run {
        ExecuteRun(queued[1], ready);
      }
    }

    /** The stop condition of a monitor whose phrase was found. `interrupted` says that reading the
        definition raises or that its revision moves on meanwhile, `syncRaises` that the pause cannot
        be carried over to the schedule. */
    method StopCondition(auto: AutomationId, interrupted: bool, syncRaises: bool) returns (raised: bool)
      modifies store
      ensures store.runs == old(store.runs)
      ensures store.Facts() == Stopped(old(store.Facts()), auto, !interrupted)
      ensures raised <==> StopRaises(old(store.Facts()), auto, interrupted, syncRaises)
    {
      if interrupted || auto !in store.definitions || store.definitions[auto].status == Deleted {
        return true;
      }
      var current := store.definitions[auto];
      if current.status != Active {
        return false;
      }
      var paused := store.SetStatus(auto, Paused, current.revision);
      return syncRaises;
    }

    /** The end of an attempt of an executing run, up to its drain. Whatever raises after the run is
        completed is caught, and if an attempt is left the coroutine goes on to it. */
    method SettleRun(run: RunId, ok: bool, stop: bool, interrupted: bool, syncRaises: bool, left: bool)
      returns (drains: bool)
      requires run < |store.runs| && run in executing
      modifies store, this`executing, this`closing
      ensures var was := old(State());
              && drains == !(left && ok && stop && StopRaises(was.db, was.db.runs[run].auto, interrupted, syncRaises))
              && State() == (if drains then Settled(was, run, ok, stop && !interrupted)
                             else RaisedLate(was, run, !interrupted))
    {
      var auto := store.runs[run].auto;
      var _ := store.UpdateRun(run, if ok then Completed else Failed);
      if ok && stop {
        var raised := StopCondition(auto, interrupted, syncRaises);
        if raised && left {
          return false;
        }
      }
      executing := executing - multiset{run};
      closing := closing + multiset{run};
      return true;
    }

    /** The end of an attempt with its drain. */
    method FinishRun(run: RunId, ok: bool, stop: bool, interrupted: bool, syncRaises: bool, left: bool,
                     ready: set<RunId>)
      requires run < |store.runs| && run in executing
      modifies store, this`executing, this`closing
      ensures var was := old(State());
              State() == if left && ok && stop && StopRaises(was.db, was.db.runs[run].auto, interrupted, syncRaises)
                         then RaisedLate(was, run, !interrupted)
                         else FinishSlice(was, run, ok, stop && !interrupted, ready)
    {
      var drains := SettleRun(run, ok, stop, interrupted, syncRaises, left);
      if drains {
        DrainQueuedRun(run, ready);
      }
    }

    /** `reconcile_runtime` after a crash: the interrupted runs that are read are settled as blocked, and
        the queued ones of listed, active definitions are resumed, up to the limit of their policy. */
    method ReconcileRuntime(listed: set<AutomationId>)
      modifies store`runs, store`events, this
      ensures State() == Restarted(old(State()), listed)
    {
      ghost var before := store.Facts();
      scheduled, executing, closing, held := multiset{}, multiset{}, multiset{}, map[];
      var queues := SettleInterrupted();
      ResumeQueues(queues, listed, before);
    }

    /** The first half: settle what was running, and sort out what was queued. */
    method SettleInterrupted() returns (queues: map<AutomationId, seq<RunId>>)
      modifies store`runs, store`events
      ensures store.Facts() == BlockInterrupted(old(store.Facts()))
      ensures var before := old(store.Facts()); forall a :: QueueOf(queues, a) == QueueRead(before, a)
    {
      ghost var before := store.Facts();
      var incomplete := store.ListIncompleteRuns(INCOMPLETE_LIMIT);
      IncompleteOrder(before);
      queues := map[];
      for i := 0 to |incomplete|
        invariant store.definitions == before.defs && |store.runs| == |before.runs|
        invariant forall k :: i <= k < |incomplete| ==> store.runs[incomplete[k]] == before.runs[incomplete[k]]
        invariant Sorted(before, incomplete[..i], store.Facts(), queues)
      {
        TakeOne(incomplete, i);
        queues := SettleOne(incomplete[i], queues, before, incomplete[..i]);
      }
      TakeAll(incomplete);
    }

    /** One incomplete run: settle it if it was running, else queue it under its Automation. */
    method SettleOne(run: RunId, queues: map<AutomationId, seq<RunId>>, ghost before: Db, ghost looked: seq<RunId>)
      returns (queues': map<AutomationId, seq<RunId>>)
      requires run < |store.runs| == |before.runs| && store.runs[run] == before.runs[run] &&
               !Terminal(before.runs[run].status)
      requires Sorted(before, looked, store.Facts(), queues)
      modifies store`runs, store`events
      ensures |store.runs| == |old(store.runs)| && forall r :: 0 <= r < |store.runs| && r != run ==>
              store.runs[r] == old(store.runs[r])
      ensures Sorted(before, looked + [run], store.Facts(), queues')
    {
      queues' := queues;
      if store.runs[run].status == Running {
        SortRunning(before, looked, run, store.Facts(), queues);
        var _ := store.UpdateRun(run, RunBlocked);
      } else {
        SortQueued(before, looked, run, store.Facts(), queues);
        queues' := Joined(queues, store.runs[run].auto, run);
      }
    }

    /** The second half: one coroutine for every resumable run. */
    method ResumeQueues(queues: map<AutomationId, seq<RunId>>, listed: set<AutomationId>, ghost before: Db)
      requires scheduled == multiset{} && store.definitions == before.defs
      requires forall a :: QueueOf(queues, a) == QueueRead(before, a)
      modifies this`scheduled
      ensures scheduled == multiset(set r: RunId | r < |before.runs| && Resumes(before, r, listed))
    {
      var rest := queues.Keys;
      while rest != {}
        invariant rest <= queues.Keys
        invariant scheduled == multiset(ResumedAmong(before, queues.Keys - rest, listed))
        decreases rest
      {
        var auto :| auto in rest;
        assert QueueOf(queues, auto) == queues[auto];
        ResumeQueue(auto, queues[auto], listed, before);
        assert queues.Keys - (rest - {auto}) == queues.Keys - rest + {auto};
        ResumedSplit(before, queues.Keys - rest, auto, listed);
        rest := rest - {auto};
      }
      forall r: RunId | r < |before.runs| && Resumes(before, r, listed) ensures before.runs[r].auto in queues {
        assert QueueOf(queues, before.runs[r].auto) != [];
      }
      assert ResumedAmong(before, queues.Keys, listed) == set r: RunId | r < |before.runs| &&
        Resumes(before, r, listed);
    }

    method ResumeQueue(auto: AutomationId, queued: seq<RunId>, listed: set<AutomationId>, ghost before: Db)
      requires store.definitions == before.defs && queued == QueueRead(before, auto)
      modifies this`scheduled
      ensures scheduled == old(scheduled) + multiset(ResumedAmong(before, {auto}, listed))
    {
      ResumedOf(before, auto, listed);
      if auto in listed && auto in store.definitions && store.definitions[auto].status == Active {
        var limit := ResumeLimit(store.definitions[auto].policy);
        var resumable := FirstOf(queued, limit);
        SubmitAll(resumable);
      }
    }

    method SubmitAll(runs: seq<RunId>)
      modifies this`scheduled
      ensures scheduled == old(scheduled) + multiset(runs)
    {
      for i := 0 to |runs|
        invariant scheduled == old(scheduled) + multiset(runs[..i])
      {
        assert runs[..i + 1] == runs[..i] + [runs[i]];
        scheduled := scheduled + multiset{runs[i]};
      }
      assert runs[..|runs|] == runs;
    }
  }

  /** After a preparation the occurrence has one run. */
  lemma OnlyRun(s: Sys, auto: AutomationId, snapshot: Definition, occurrence: string, now: int, run: RunId)
    requires UniqueOccurrences(s.db) && snapshot.status == Active
    requires IsOccurrence(Prepared(s, auto, snapshot, occurrence, now).db, auto, occurrence, run)
    ensures RunOf(Prepared(s, auto, snapshot, occurrence, now).db, auto, occurrence) == run
  {
    var db' := Prepared(s, auto, snapshot, occurrence, now).db;
    var other := RunOf(db', auto, occurrence);
    if Admissible(s.db, auto, snapshot, occurrence) {
      assert !IsOccurrence(s.db, auto, occurrence, run) && !IsOccurrence(s.db, auto, occurrence, other);
    } else {
      assert IsOccurrence(s.db, auto, occurrence, run);
    }
  }

  /** Preparing a run and marking it as skipped, whatever the verdict was. */
  lemma SkippedAfter(s: Sys, auto: AutomationId, snapshot: Definition, occurrence: string, now: int, run: RunId)
    requires UniqueOccurrences(s.db) && snapshot.status == Active && forall r :: r in s.held ==> r < |s.db.runs|
    requires var db' := Prepared(s, auto, snapshot, occurrence, now).db;
             run < |db'.runs| && IsOccurrence(db', auto, occurrence, run)
    ensures var s1 := Prepared(s, auto, snapshot, occurrence, now);
            MissedSkipped(s, auto, snapshot, occurrence, now) ==
              s1.(db := WithRunStatus(s1.db, run, Skipped),
                  held := if MustSubmit(s, auto, snapshot, occurrence) then s1.held - {run} else s1.held)
  {
    if HasOccurrence(s.db, auto, occurrence) {
      OnlyRun(s, auto, snapshot, occurrence, now, run);
    } else if auto in s.db.defs {
      FreshOccurrence(s, auto, snapshot, occurrence, now, run);
      FreshSkipped(s, auto, snapshot, occurrence, now);
    } else {
      assert !IsOccurrence(s.db, auto, occurrence, run);
    }
  }

  lemma FreshSkipped(s: Sys, auto: AutomationId, snapshot: Definition, occurrence: string, now: int)
    requires Admissible(s.db, auto, snapshot, occurrence) && |s.db.runs| !in s.held
    ensures var s1, run := Prepared(s, auto, snapshot, occurrence, now), |s.db.runs|;
            && run < |s1.db.runs|
            && MissedSkipped(s, auto, snapshot, occurrence, now) ==
               s1.(db := WithRunStatus(s1.db, run, Skipped),
                   held := if MustSubmit(s, auto, snapshot, occurrence) then s1.held - {run} else s1.held)
  {
    var verdict := VerdictNow(s, auto, snapshot.policy);
    assert s.held[|s.db.runs| := verdict] - {|s.db.runs|} == s.held;
  }

  lemma FreshOccurrence(s: Sys, auto: AutomationId, snapshot: Definition, occurrence: string, now: int, run: RunId)
    requires Admissible(s.db, auto, snapshot, occurrence)
    requires IsOccurrence(Prepared(s, auto, snapshot, occurrence, now).db, auto, occurrence, run)
    ensures run == |s.db.runs|
  {
    assert IsOccurrence(s.db, auto, occurrence, run) <==> run < |s.db.runs|;
  }

  ghost function ResumedAmong(db: Db, autos: set<AutomationId>, listed: set<AutomationId>): set<RunId> {
    set r: RunId | r < |db.runs| && Resumes(db, r, listed) && db.runs[r].auto in autos
  }

  lemma ResumedSplit(db: Db, autos: set<AutomationId>, auto: AutomationId, listed: set<AutomationId>)
    requires auto !in autos
    ensures multiset(ResumedAmong(db, autos + {auto}, listed)) ==
            multiset(ResumedAmong(db, autos, listed)) + multiset(ResumedAmong(db, {auto}, listed))
  {
    assert ResumedAmong(db, autos + {auto}, listed) == ResumedAmong(db, autos, listed) +
      ResumedAmong(db, {auto}, listed);
  }

  /** The resumed runs of one Automation, as a set and as a prefix of its queue. */
  lemma ResumedOf(db: Db, auto: AutomationId, listed: set<AutomationId>)
    ensures multiset(ResumedAmong(db, {auto}, listed)) ==
            if auto in listed && auto in db.defs && db.defs[auto].status == Active
            then multiset(FirstOf(QueueRead(db, auto), ResumeLimit(db.defs[auto].policy)))
            else multiset{}
  {
    if auto in listed && auto in db.defs && db.defs[auto].status == Active {
      var limit := ResumeLimit(db.defs[auto].policy);
      ByAgeSorted(db, Incomplete(db));
      PrefixDistinct(ByAge(db, Incomplete(db)), INCOMPLETE_LIMIT);
      OnlyDistinct(ReadRuns(db), QueuedRuns(db, auto));
      PrefixDistinct(QueueRead(db, auto), limit);
      ResumedPrefix(db, auto, listed);
      DistinctAsSet(FirstOf(QueueRead(db, auto), limit));
    } else {
      assert ResumedAmong(db, {auto}, listed) == {};
    }
  }

  lemma ResumedPrefix(db: Db, auto: AutomationId, listed: set<AutomationId>)
    requires auto in listed && auto in db.defs && db.defs[auto].status == Active
    ensures ResumedAmong(db, {auto}, listed) == set r | r in FirstOf(QueueRead(db, auto),
            ResumeLimit(db.defs[auto].policy))
  {
    forall r | r in FirstOf(QueueRead(db, auto), ResumeLimit(db.defs[auto].policy)) ensures r in QueuedRuns(db, auto) {
      assert r in QueueRead(db, auto);
    }
  }

  lemma PrefixDistinct(s: seq<RunId>, limit: nat)
    requires Distinct(s)
    ensures Distinct(FirstOf(s, limit))
  {
  }

  lemma {:induction false} DistinctAsSet(s: seq<RunId>)
    requires Distinct(s)
    ensures multiset(s) == multiset(set r | r in s)
  {
    if s != [] {
      DistinctAsSet(s[1..]);
      assert s == [s[0]] + s[1..];
      assert (set r | r in s) == {s[0]} + set r | r in s[1..];
      assert s[0] !in s[1..];
    }
  }

  /** `setdefault(automation_id, []).append(run)`. */
  function Joined(queues: map<AutomationId, seq<RunId>>, auto: AutomationId,
                  run: RunId): map<AutomationId, seq<RunId>> {
    queues[auto := QueueOf(queues, auto) + [run]]
  }

  /** Where start-up stands after looking at some incomplete runs. */
  ghost predicate Sorted(before: Db, looked: seq<RunId>, now: Db, queues: map<AutomationId, seq<RunId>>) {
    && InRange(before, Only(looked, Interrupted(before)))
    && now == BlockEach(before, Only(looked, Interrupted(before)))
    && forall a :: QueueOf(queues, a) == Only(looked, QueuedRuns(before, a))
  }

  lemma IncompleteOrder(db: Db)
    ensures var s := ReadRuns(db);
            && (forall i :: 0 <= i < |s| ==> s[i] < |db.runs| && !Terminal(db.runs[s[i]].status))
            && Distinct(s)
  {
    var s := ByAge(db, Incomplete(db));
    assert forall i :: 0 <= i < |s| ==> s[i] in Incomplete(db);
    ByAgeSorted(db, Incomplete(db));
    PrefixDistinct(s, INCOMPLETE_LIMIT);
  }

  lemma QueuedAppend(db: Db, looked: seq<RunId>, run: RunId, auto: AutomationId)
    requires run < |db.runs|
    ensures Only(looked + [run], QueuedRuns(db, auto)) == Only(looked, QueuedRuns(db, auto)) +
            if db.runs[run].auto == auto && db.runs[run].status == Queued then [run] else []
  {
    OnlyAppend(looked, run, QueuedRuns(db, auto));
  }

  lemma SortRunning(before: Db, looked: seq<RunId>, run: RunId, now: Db, queues: map<AutomationId, seq<RunId>>)
    requires run < |before.runs| && before.runs[run].status == Running && Sorted(before, looked, now, queues)
    ensures |now.runs| == |before.runs|
    ensures Sorted(before, looked + [run], WithRunStatus(now, run, RunBlocked), queues)
  {
    BlockEachAppend(before, Only(looked, Interrupted(before)), run);
    SortInterrupted(before, looked, run);
    forall a ensures QueueOf(queues, a) == Only(looked + [run], QueuedRuns(before, a)) {
      QueuedAppend(before, looked, run, a);
    }
  }

  lemma SortQueued(before: Db, looked: seq<RunId>, run: RunId, now: Db, queues: map<AutomationId, seq<RunId>>)
    requires run < |before.runs| && before.runs[run].status == Queued && Sorted(before, looked, now, queues)
    ensures Sorted(before, looked + [run], now, Joined(queues, before.runs[run].auto, run))
  {
    SortInterrupted(before, looked, run);
    var queues' := Joined(queues, before.runs[run].auto, run);
    forall a ensures QueueOf(queues', a) == Only(looked + [run], QueuedRuns(before, a)) {
      assert QueueOf(queues, a) == Only(looked, QueuedRuns(before, a));
      QueuedAppend(before, looked, run, a);
    }
  }

  lemma SortInterrupted(db: Db, looked: seq<RunId>, run: RunId)
    requires run < |db.runs|
    ensures Only(looked + [run], Interrupted(db)) ==
            if db.runs[run].status == Running then Only(looked, Interrupted(db)) + [run]
                else Only(looked, Interrupted(db))
  {
    OnlyAppend(looked, run, Interrupted(db));
    assert Only(looked, Interrupted(db)) + [] == Only(looked, Interrupted(db));
  }

  function QueueOf(queues: map<AutomationId, seq<RunId>>, auto: AutomationId): seq<RunId> {
    if auto in queues then queues[auto] else []
  }

  lemma TakeOne(s: seq<RunId>, i: nat)
    requires i < |s|
    ensures s[..i + 1] == s[..i] + [s[i]]
  {
  }

  lemma TakeAll(s: seq<RunId>)
    ensures s[..|s|] == s
  {
  }

  predicate InRange(db: Db, order: seq<RunId>) {
    forall i :: 0 <= i < |order| ==> order[i] < |db.runs|
  }

  lemma {:induction false} BlockEachAppend(db: Db, order: seq<RunId>, run: RunId)
    requires InRange(db, order) && run < |db.runs|
    ensures InRange(db, order + [run])
    ensures |BlockEach(db, order).runs| == |db.runs|
    ensures BlockEach(db, order + [run]) == WithRunStatus(BlockEach(db, order), run, RunBlocked)
    decreases order
  {
    if order == [] {
      assert order + [run] == [run];
    } else {
      assert (order + [run])[1..] == order[1..] + [run];
      BlockEachAppend(WithRunStatus(db, order[0], RunBlocked), order[1..], run);
    }
  }

  lemma BlockedDrains(s: Sys, run: RunId, ready: set<RunId>)
    requires run < |s.db.runs| && Alive(s.db, s.db.runs[run].auto) && !Ready(s.db, s.db.runs[run].auto, run, ready)
    ensures var auto, db := s.db.runs[run].auto, WithRunStatus(s.db, run, RunBlocked);
            && QueuedRuns(db, auto) == QueuedRuns(s.db, auto) - {run} && |db.runs| == |s.db.runs| &&
              db.runs[run].auto == auto
            && ExecuteSlice(s, run, ready) == DrainSlice(s.(db := db, closing := s.closing + multiset{run}), run, ready)
  {
  }

  /** What a drain picks from the two oldest queued runs. */
  lemma DrainPicks(db: Db, run: RunId)
    requires run < |db.runs|
    ensures var queue := QueuedRuns(db, db.runs[run].auto);
            var s := FirstOf(ByAge(db, queue), 2);
            && (forall i :: 0 <= i < |s| ==> s[i] in queue)
            && (Others(db, run) == {} <==> |s| == 0 || (|s| == 1 && s[0] == run))
            && (Others(db, run) != {} ==> Oldest(db, Others(db, run)) == if s[0] != run then s[0] else s[1])
            && (|s| > 1 ==> s[0] != s[1])
  {
    TwoOldest(db, QueuedRuns(db, db.runs[run].auto), run);
  }

  /** Among the two oldest, the first that is not excluded is the oldest of the others. */
  lemma TwoOldest(db: Db, ids: set<RunId>, exclude: RunId)
    requires Exist(db, ids)
    ensures var s := ByAge(db, ids);
            && (ids - {exclude} == {} <==> |s| == 0 || (|s| == 1 && s[0] == exclude))
            && (ids - {exclude} != {} ==>
                  Oldest(db, ids - {exclude}) == if s[0] != exclude then s[0] else s[1])
            && (|s| > 1 ==> s[0] != s[1])
  {
    if ids != {} {
      var s, x := ByAge(db, ids), Oldest(db, ids);
      ByAgeSorted(db, ids);
      if x == exclude {
        assert |s| == 1 + |ids - {x}|;
      } else {
        OldestIs(db, ids - {exclude}, x);
      }
    }
  }
}
