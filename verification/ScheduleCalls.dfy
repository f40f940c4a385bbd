/** Every call that changes a definition, a trigger or a derived job, and what any sequence of
    them keeps. A service call is one step; its store call is refused exactly when the store says so. */
module ScheduleCalls {
  import opened Wrappers
  import opened Text
  import opened AutomationFacts
  import opened Schedules
  import opened ScheduleStartup

  /** A schedule as it is asked for; without a `schedule` its kind is not supported. */
  datatype ScheduleRequest = ScheduleRequest(empty: bool, schedule: Option<Schedule>)

  datatype EventRequest = EventRequest(empty: bool, key: string, objectSchema: bool)

  datatype TriggerChange = KeepTrigger | ReplaceTrigger(schedule: Option<ScheduleRequest>, event: Option<EventRequest>)

  /** `_insert_trigger` on a configuration that is not empty. */
  function ScheduleTrigger(request: ScheduleRequest): Result<Option<TriggerKind>, StoreError> {
    if request.schedule.None? then Err(InvalidState) else Ok(Some(OnSchedule(request.schedule.value)))
  }

  function EventTrigger(request: EventRequest): Result<Option<TriggerKind>, StoreError> {
    if Trim(request.key) == "" || !request.objectSchema then Err(InvalidState)
        else Ok(Some(OnLocalEvent(Trim(request.key))))
  }

  /** A creation takes the schedule if there is one, else the local event. */
  function FirstTrigger(schedule: Option<ScheduleRequest>, event: Option<EventRequest>)
    : Result<Option<TriggerKind>, StoreError>
  {
    if schedule.Some? && !schedule.value.empty then ScheduleTrigger(schedule.value)
    else if event.Some? && !event.value.empty then EventTrigger(event.value)
    else Ok(None)
  }

  /** `replace_trigger` names one kind at most. Nothing and an empty schedule remove the trigger; an empty local
      event is refused. */
  function NewTrigger(schedule: Option<ScheduleRequest>, event: Option<EventRequest>)
    : Result<Option<TriggerKind>, StoreError>
  {
    if schedule.Some? && event.Some? then Err(InvalidState)
    else if event.Some? && event.value.empty then Err(InvalidState)
    else FirstTrigger(schedule, event)
  }

  datatype Call =
    | Create(auto: AutomationId, key: string, policy: Policy, confirmed: bool, text: map<string, string>,
             nameTaken: bool, schedule: Option<ScheduleRequest>, event: Option<EventRequest>)
    | Update(auto: AutomationId, agent: string, edit: Edit, expected: nat, nameTaken: bool, change: TriggerChange)
    | Transition(auto: AutomationId, status: DefinitionStatus, expected: nat)
    | Fire(job: JobId, startedAt: int, reported: bool)
    | DropJob(job: JobId)
    | AddOtherJob(other: Job)
    | Restart(order: seq<AutomationId>)

  ghost function StoreCall(call: Call): StoreOp
    requires call.Create? || call.Update? || call.Transition?
  {
    match call
    case Create(auto, key, policy, confirmed, text, nameTaken, _, _) =>
      StoreOp.CreateDefinition(auto, key, policy, confirmed, text, nameTaken)
    case Update(auto, agent, edit, expected, nameTaken, _) =>
      // The service always writes the agent back, so an update always writes some column.
      StoreOp.UpdateDefinition(auto, expected, edit.(jobId := None, text := edit.text["agent_id" := agent]), nameTaken)
    case Transition(auto, status, expected) => StoreOp.SetStatus(auto, status, expected)
  }

  function Rows(w: World): Db { Db(w.defs, [], []) }

  /** A creation and its trigger are one transaction. */
  ghost predicate Refused(w: World, call: Call) {
    (call.Create? || call.Update? || call.Transition?) &&
      (Refusal(Rows(w), StoreCall(call)).Some?
       || (call.Create? && !Retried(w, call) && FirstTrigger(call.schedule, call.event).Err?))
  }

  /** A retried creation is answered with the definition that already has its key. */
  ghost predicate Retried(w: World, call: Call) {
    call.Create? && KeyUsed(Rows(w), call.key)
  }

  ghost function Subject(w: World, call: Call): AutomationId
    requires call.Create? || call.Update? || call.Transition?
  {
    if Retried(w, call) then var b :| b in w.defs && w.defs[b].key == call.key; b else call.auto
  }

  function WithTrigger(w: World, auto: AutomationId, kind: Option<TriggerKind>): World {
    w.(triggers := if kind.Some? then w.triggers[auto := Trigger(kind.value, None, None)] else w.triggers - {auto})
  }

  /** The trigger a call asks for, if it says anything about it. */
  ghost function AskedTrigger(w: World, call: Call): Option<Result<Option<TriggerKind>, StoreError>> {
    if call.Create? && !Retried(w, call) then Some(FirstTrigger(call.schedule, call.event))
    else if call.Update? && call.change.ReplaceTrigger? then Some(NewTrigger(call.change.schedule, call.change.event))
    else None
  }

  /** The world after the store calls of a service call, before it synchronises. */
  ghost function Stored(w: World, call: Call): World
    requires call.Create? || call.Update? || call.Transition?
  {
    var w1 := w.(defs := Apply(Rows(w), StoreCall(call)).defs);
    var trigger := AskedTrigger(w, call);
    if trigger.Some? && trigger.value.Ok? then WithTrigger(w1, call.auto, trigger.value.value) else w1
  }

  /** The scheduler has executed a job: an `at` job is gone, another has its next due time. */
  function Fired(w: World, id: JobId, startedAt: int, reported: bool, now: int, clock: Clock): World {
    if id !in w.jobs then w else
    var job := w.jobs[id];
    var w1 :=
      if reported && job.source.Some? && job.source.value in w.triggers
      then w.(triggers := w.triggers[job.source.value := Reported(w.triggers[job.source.value], job)]) else w;
    if job.schedule.At? then w1.(jobs := w.jobs - {id})
    else w1.(jobs := w.jobs[id := job.(lastRun := Some(startedAt),
                                       nextRun := if job.enabled then clock(job.schedule, now) else job.nextRun)])
  }

  /** Ids of new definitions and jobs are fresh, other jobs are not derived from an Automation, and
      a restart lists every definition that is not deleted once, newest first. */
  ghost predicate Allowed(w: World, call: Call, newId: seq<JobId>) {
    && UnusedEach(w, newId)
    && (match call
        case Create(auto, _, _, _, _, _, _, _) => |newId| == 1 && (Retried(w, call) || auto !in w.defs)
        case Update(_, _, _, _, _, _) => |newId| == 1
        case Transition(_, _, _) => |newId| == 1
        case AddOtherJob(other) => |newId| == 1 && other.source.None?
        case Restart(order) =>
          |newId| == |order| <= 10_000 && NoRepeats(order) && forall a :: a in order <==> a in Listed(w)
        case _ => true)
  }

  /** An update whose new trigger is refused, for its kind, its event key or for naming two, raises after
      the new revision is stored. */
  predicate TriggerRefused(call: Call) {
    call.Update? && call.change.ReplaceTrigger? && NewTrigger(call.change.schedule, call.change.event).Err?
  }

  ghost function After(w: World, call: Call, now: int, newId: seq<JobId>, clock: Clock): World
    requires Allowed(w, call, newId)
  {
    match call
    case Fire(job, startedAt, reported) => Fired(w, job, startedAt, reported, now, clock)
    case DropJob(job) => w.(jobs := w.jobs - {job})
    case AddOtherJob(other) => w.(jobs := w.jobs[newId[0] := other])
    case Restart(order) => Reconciled(w, order, now, newId, clock)
    case _ =>
      if Refused(w, call) then w
      else if TriggerRefused(call) then Stored(w, call)
      else Sync(Stored(w, call), Subject(w, call), now, newId[0], clock)
  }

  /** An edit the service makes always raises the revision. */
  lemma ServiceEditRaises(w: World, call: Call)
    requires call.Update? && !Refused(w, call)
    ensures call.auto in w.defs && Stored(w, call).defs[call.auto].revision == w.defs[call.auto].revision + 1
    ensures Stored(w, call).defs[call.auto].jobId == w.defs[call.auto].jobId
  {
    assert "agent_id" in AllowedText(StoreCall(call).edit);
    assert EditedFields(StoreCall(call).edit) != {};
  }

  // ---- what every call keeps --------------------------------------------------------------------

  /** No derived job without a definition that refers to it. */
  ghost predicate Quiet(w: World) {
    && Coherent(w)
    && (forall a :: a in w.defs ==> Orphans(w, a) == {})
    && (forall j :: j in w.jobs && w.jobs[j].source.Some? ==> w.jobs[j].source.value in w.defs)
  }

  ghost predicate AllAgree(w: World) {
    forall a :: a in w.defs ==> Agrees(w, a)
  }

  lemma SyncQuiet(w: World, auto: AutomationId, now: int, newId: JobId, clock: Clock)
    requires auto in w.defs && Quiet(w) && Unused(w, newId)
    ensures Quiet(Sync(w, auto, now, newId, clock)) && Agrees(Sync(w, auto, now, newId, clock), auto)
  {
    var w' := Sync(w, auto, now, newId, clock);
    SyncCoherent(w, auto, now, newId, clock);
    SyncJobs(w, auto, now, newId, clock);
    SyncAgrees(w, auto, now, newId, clock);
    forall a | a in w'.defs ensures Orphans(w', a) == {} {
      if a != auto { assert JobsOf(w', a) == JobsOf(w, a) && w'.defs[a] == w.defs[a] && Orphans(w, a) == {}; }
    }
  }

  /** A store call leaves its definition with no newer job than before and the others alone. */
  lemma StoredSubject(w: World, call: Call, newId: seq<JobId>)
    requires call.Create? || call.Update? || call.Transition?
    requires Quiet(w) && Allowed(w, call, newId) && !Refused(w, call)
    ensures var w1, s := Stored(w, call), Subject(w, call);
            && s in w1.defs && w1.jobs == w.jobs && w1.defs.Keys == w.defs.Keys + {s}
            && (s in w.defs ==> w1.defs[s].jobId == w.defs[s].jobId) && (s !in w.defs ==> w1.defs[s].jobId == "")
            && CoherentAt(w1, s)
  {
    var s := Subject(w, call);
    if s in w.defs { assert CoherentAt(w, s); }
    if call.Update? { ServiceEditRaises(w, call); }
  }

  lemma StoredLeavesOthers(w: World, call: Call, b: AutomationId)
    requires call.Create? || call.Update? || call.Transition?
    requires b in w.defs && b != Subject(w, call)
    ensures Untouched(w, Stored(w, call), b)
  {
  }

  lemma StoredQuiet(w: World, call: Call, newId: seq<JobId>)
    requires call.Create? || call.Update? || call.Transition?
    requires Quiet(w) && Allowed(w, call, newId) && !Refused(w, call)
    ensures var w1 := Stored(w, call);
            Quiet(w1) && Unused(w1, newId[0]) && Subject(w, call) in w1.defs && w1.jobs == w.jobs
    ensures forall b :: b in w.defs && b != Subject(w, call) ==> Untouched(w, Stored(w, call), b)
  {
    var w1, s := Stored(w, call), Subject(w, call);
    StoredSubject(w, call, newId);
    forall b | b in w.defs && b != s ensures Untouched(w, w1, b) { StoredLeavesOthers(w, call, b); }
    StoredKeeps(w, w1, s, newId[0]);
  }

  lemma StoredKeeps(w: World, w1: World, s: AutomationId, id: JobId)
    requires Quiet(w) && Unused(w, id) && w1.jobs == w.jobs && w1.defs.Keys == w.defs.Keys + {s} && CoherentAt(w1, s)
    requires s in w.defs ==> w1.defs[s].jobId == w.defs[s].jobId
    requires s !in w.defs ==> w1.defs[s].jobId == ""
    requires forall b :: b in w.defs && b != s ==> Untouched(w, w1, b)
    ensures Quiet(w1) && Unused(w1, id)
  {
    forall b | b in w1.defs ensures CoherentAt(w1, b) && Orphans(w1, b) == {} {
      assert JobsOf(w1, b) == JobsOf(w, b);
      if b in w.defs { assert CoherentAt(w, b) && Orphans(w, b) == {} && w1.defs[b].jobId == w.defs[b].jobId; }
      else { assert JobsOf(w1, b) == {}; }
    }
  }

  lemma RestartQuiet(w: World, order: seq<AutomationId>, now: int, newId: seq<JobId>, clock: Clock)
    requires Quiet(w) && Allowed(w, Call.Restart(order), newId)
    ensures Quiet(Reconciled(w, order, now, newId, clock))
    ensures AllAgree(Reconciled(w, order, now, newId, clock))
    ensures Bijection(Reconciled(w, order, now, newId, clock))
  {
    var mid, w' := SyncEach(w, order, now, newId, clock), Reconciled(w, order, now, newId, clock);
    ReconcileBijection(w, order, now, newId, clock);
    forall a | a in w.defs
      ensures Coherent(mid) && mid.defs.Keys == w.defs.Keys && SyncedAt(w, mid, a, a in order)
    {
      SyncEachAgrees(w, order, now, newId, clock, a, false);
    }
    forall a | a in w'.defs ensures CoherentAt(w', a) && Orphans(w', a) == {} && Agrees(w', a) {
      assert SyncedAt(w, mid, a, a in order) && Orphans(w, a) == {} && CoherentAt(mid, a);
      if a in Listed(w) { ListedKept(mid, Listed(w), a); } else { UnlistedDropped(mid, Listed(w), a); }
    }
  }

  lemma ListedKept(mid: World, listed: set<AutomationId>, a: AutomationId)
    requires a in mid.defs && a in listed && CoherentAt(mid, a) && Orphans(mid, a) == {} && Agrees(mid, a)
    ensures var w' := DropUnlisted(mid, listed); CoherentAt(w', a) && Orphans(w', a) == {} && Agrees(w', a)
  {
    assert JobsOf(DropUnlisted(mid, listed), a) == JobsOf(mid, a);
    if Wants(mid, a) { assert mid.defs[a].jobId in JobsOf(mid, a); }
  }

  lemma UnlistedDropped(mid: World, listed: set<AutomationId>, a: AutomationId)
    requires a in mid.defs && a !in listed && CoherentAt(mid, a) && !Wants(mid, a)
    ensures var w' := DropUnlisted(mid, listed); CoherentAt(w', a) && Orphans(w', a) == {} && Agrees(w', a)
  {
    assert JobsOf(DropUnlisted(mid, listed), a) == {};
  }

  lemma FiredCoherent(w: World, id: JobId, startedAt: int, reported: bool, now: int, clock: Clock, a: AutomationId)
    requires Quiet(w) && a in w.defs
    ensures CoherentAt(Fired(w, id, startedAt, reported, now, clock), a)
  {
    assert CoherentAt(w, a);
  }

  lemma FiredQuiet(w: World, id: JobId, startedAt: int, reported: bool, now: int, clock: Clock)
    requires Quiet(w)
    ensures Quiet(Fired(w, id, startedAt, reported, now, clock))
  {
    var w' := Fired(w, id, startedAt, reported, now, clock);
    forall a | a in w'.defs ensures CoherentAt(w', a) && Orphans(w', a) == {} {
      FiredCoherent(w, id, startedAt, reported, now, clock, a);
      assert Orphans(w, a) == {} && JobsOf(w', a) <= JobsOf(w, a);
    }
  }

  lemma JobTableQuiet(w: World, jobs: map<JobId, Job>)
    requires Quiet(w) && "" !in jobs
    requires forall j :: j in jobs && jobs[j].source.Some? ==> j in w.jobs && jobs[j] == w.jobs[j]
    requires forall a :: a in w.defs && w.defs[a].jobId in jobs ==> w.defs[a].jobId in w.jobs
    requires forall j :: j in jobs && j in w.jobs ==> jobs[j] == w.jobs[j]
    ensures Quiet(w.(jobs := jobs))
  {
    var w' := w.(jobs := jobs);
    forall a | a in w'.defs ensures CoherentAt(w', a) && Orphans(w', a) == {} {
      assert CoherentAt(w, a) && Orphans(w, a) == {} && JobsOf(w', a) <= JobsOf(w, a);
    }
  }

  lemma CallKeepsQuiet(w: World, call: Call, now: int, newId: seq<JobId>, clock: Clock)
    requires Quiet(w) && Allowed(w, call, newId)
    ensures Quiet(After(w, call, now, newId, clock))
  {
    match call
    case Fire(job, startedAt, reported) => FiredQuiet(w, job, startedAt, reported, now, clock);
    case DropJob(job) => JobTableQuiet(w, w.jobs - {job});
    case AddOtherJob(other) => JobTableQuiet(w, w.jobs[newId[0] := other]);
    case Restart(order) => RestartQuiet(w, order, now, newId, clock);
    case _ =>
      if !Refused(w, call) {
        StoredQuiet(w, call, newId);
        SyncQuiet(Stored(w, call), Subject(w, call), now, newId[0], clock);
      }
  }

  // ---- agreement --------------------------------------------------------------------------------

  /** A service call that comes to its end leaves its definition and its derived job in agreement. */
  lemma CallAgrees(w: World, call: Call, now: int, newId: seq<JobId>, clock: Clock)
    requires call.Create? || call.Update? || call.Transition?
    requires Quiet(w) && Allowed(w, call, newId) && !Refused(w, call) && !TriggerRefused(call)
    ensures Agrees(After(w, call, now, newId, clock), Subject(w, call))
  {
    StoredQuiet(w, call, newId);
    SyncQuiet(Stored(w, call), Subject(w, call), now, newId[0], clock);
  }

  /** The only calls that part a definition from its job: an `at` job that has fired, a job removed
      by hand, and an update whose new trigger is refused. */
  ghost predicate Parts(w: World, call: Call, a: AutomationId) {
    match call
    case Fire(job, _, _) => job in w.jobs && w.jobs[job].source == Some(a) && w.jobs[job].schedule.At?
    case DropJob(job) => job in w.jobs && w.jobs[job].source == Some(a)
    case Update(auto, _, _, _, _, _) => auto == a && Wants(w, a) && TriggerRefused(call) && !Refused(w, call)
    case _ => false
  }

  lemma OthersAgree(w: World, w': World, a: AutomationId)
    requires a in w.defs && Untouched(w, w', a) && JobsOf(w', a) == JobsOf(w, a) && Coherent(w)
    ensures Agrees(w', a) <==> Agrees(w, a)
  {
    assert CoherentAt(w, a);
    if Wants(w, a) && (Agrees(w, a) || Agrees(w', a)) {
      assert w.defs[a].jobId in JobsOf(w, a);
    }
  }

  lemma RefusedTriggerParts(w: World, call: Call, newId: seq<JobId>, a: AutomationId)
    requires TriggerRefused(call) && !Refused(w, call)
    requires Quiet(w) && Allowed(w, call, newId) && a in w.defs && Agrees(w, a)
    ensures Agrees(Stored(w, call), a) <==> !(call.auto == a && Wants(w, a))
  {
    var w1 := Stored(w, call);
    StoredQuiet(w, call, newId);
    assert JobsOf(w1, a) == JobsOf(w, a);
    if call.auto != a {
      OthersAgree(w, w1, a);
    } else {
      ServiceEditRaises(w, call);
      if Wants(w, a) { assert w.defs[a].jobId in JobsOf(w, a); }
    }
  }

  lemma JobTableAgrees(w: World, w': World, a: AutomationId)
    requires Quiet(w) && a in w.defs && Agrees(w, a)
    requires w'.defs == w.defs && (forall b :: b in w.triggers <==> b in w'.triggers)
    requires forall b :: b in w.triggers ==> w'.triggers[b].kind == w.triggers[b].kind
    requires JobsOf(w', a) == JobsOf(w, a)
    requires forall j :: j in JobsOf(w, a) ==>
             j in w'.jobs && w'.jobs[j].(nextRun := w.jobs[j].nextRun, lastRun := w.jobs[j].lastRun) == w.jobs[j]
    ensures Agrees(w', a)
  {
    if Wants(w, a) { assert w.defs[a].jobId in JobsOf(w, a); }
  }

  lemma FiredAgrees(w: World, id: JobId, startedAt: int, reported: bool, now: int, clock: Clock, a: AutomationId)
    requires Quiet(w) && a in w.defs && Agrees(w, a)
    requires !(id in w.jobs && w.jobs[id].source == Some(a) && w.jobs[id].schedule.At?)
    ensures Agrees(Fired(w, id, startedAt, reported, now, clock), a)
  {
    var w' := Fired(w, id, startedAt, reported, now, clock);
    assert JobsOf(w', a) == JobsOf(w, a);
    JobTableAgrees(w, w', a);
  }

  lemma JobGone(w: World, call: Call, now: int, newId: seq<JobId>, clock: Clock, a: AutomationId)
    requires call.Fire? || call.DropJob?
    requires Quiet(w) && Allowed(w, call, newId) && a in w.defs && Agrees(w, a)
    ensures Agrees(After(w, call, now, newId, clock), a) <==> !Parts(w, call, a)
  {
    var w' := After(w, call, now, newId, clock);
    if Parts(w, call, a) {
      assert call.job in JobsOf(w, a) && call.job !in w'.jobs;
    } else if call.Fire? {
      FiredAgrees(w, call.job, call.startedAt, call.reported, now, clock, a);
    } else {
      assert JobsOf(w', a) == JobsOf(w, a);
      JobTableAgrees(w, w', a);
    }
  }

  lemma ServiceCallAgrees(w: World, call: Call, now: int, newId: seq<JobId>, clock: Clock, a: AutomationId)
    requires call.Create? || call.Update? || call.Transition?
    requires Quiet(w) && Allowed(w, call, newId) && a in w.defs && Agrees(w, a) && !Refused(w, call)
    ensures a in After(w, call, now, newId, clock).defs
    ensures Agrees(After(w, call, now, newId, clock), a) <==> !Parts(w, call, a)
  {
    StoredQuiet(w, call, newId);
    if TriggerRefused(call) {
      RefusedTriggerParts(w, call, newId, a);
    } else {
      var w1, s := Stored(w, call), Subject(w, call);
      SyncCoherent(w1, s, now, newId[0], clock);
      if a == s {
        CallAgrees(w, call, now, newId, clock);
      } else {
        assert JobsOf(w1, a) == JobsOf(w, a);
        OthersAgree(w, w1, a);
        SyncKeepsAgreement(w1, s, now, newId[0], clock, a);
      }
    }
  }

  /** Whatever else happens, a definition that agrees with its job goes on agreeing. */
  lemma AgreementLasts(w: World, call: Call, now: int, newId: seq<JobId>, clock: Clock, a: AutomationId)
    requires Quiet(w) && Allowed(w, call, newId) && a in w.defs && Agrees(w, a)
    ensures a in After(w, call, now, newId, clock).defs
    ensures Agrees(After(w, call, now, newId, clock), a) <==> !Parts(w, call, a)
  {
    var w' := After(w, call, now, newId, clock);
    match call
    case Fire(_, _, _) => JobGone(w, call, now, newId, clock, a);
    case DropJob(_) => JobGone(w, call, now, newId, clock, a);
    case AddOtherJob(other) =>
      assert JobsOf(w', a) == JobsOf(w, a);
      JobTableAgrees(w, w', a);
    case Restart(order) => RestartQuiet(w, order, now, newId, clock);
    case _ => if !Refused(w, call) { ServiceCallAgrees(w, call, now, newId, clock, a); }
  }

  // ---- whole runs -------------------------------------------------------------------------------

  datatype Step = Step(call: Call, now: int, newId: seq<JobId>)

  /** `ws` are the worlds a sequence of calls goes through, from a scheduler without derived jobs. */
  ghost predicate History(ws: seq<World>, steps: seq<Step>, clock: Clock) {
    && |ws| == |steps| + 1 && ws[0].defs == map[] && "" !in ws[0].jobs
    && (forall j :: j in ws[0].jobs ==> ws[0].jobs[j].source.None?)
    && forall i :: 0 <= i < |steps| ==>
         Allowed(ws[i], steps[i].call, steps[i].newId)
         && ws[i + 1] == After(ws[i], steps[i].call, steps[i].now, steps[i].newId, clock)
  }

  /** No history ever leaves a derived job that its definition does not refer to. */
  lemma {:induction false} HistoryQuiet(ws: seq<World>, steps: seq<Step>, clock: Clock, i: nat)
    requires History(ws, steps, clock) && i < |ws|
    ensures Quiet(ws[i])
  {
    if i > 0 {
      HistoryQuiet(ws, steps, clock, i - 1);
      CallKeepsQuiet(ws[i - 1], steps[i - 1].call, steps[i - 1].now, steps[i - 1].newId, clock);
    }
  }

  /** So every restart restores the one-to-one correspondence, whatever came before it. */
  lemma RestartRestores(ws: seq<World>, steps: seq<Step>, clock: Clock, i: nat)
    requires History(ws, steps, clock) && i < |steps| && steps[i].call.Restart?
    ensures Bijection(ws[i + 1]) && AllAgree(ws[i + 1])
  {
    HistoryQuiet(ws, steps, clock, i);
    var w, s := ws[i], steps[i];
    RestartQuiet(w, s.call.order, s.now, s.newId, clock);
  }

  /** Between restarts, agreement is lost only at a call that parts definition and job. */
  lemma {:induction false} AgreesUnlessParted(ws: seq<World>, steps: seq<Step>, clock: Clock, a: AutomationId, i: nat,
                                              k: nat)
    requires History(ws, steps, clock) && i <= k < |ws| && a in ws[i].defs && Agrees(ws[i], a)
    requires forall j :: i <= j < k ==> !Parts(ws[j], steps[j].call, a)
    ensures a in ws[k].defs && Agrees(ws[k], a)
    decreases k
  {
    if i < k {
      AgreesUnlessParted(ws, steps, clock, a, i, k - 1);
      HistoryQuiet(ws, steps, clock, k - 1);
      var s := steps[k - 1];
      AgreementLasts(ws[k - 1], s.call, s.now, s.newId, clock, a);
    }
  }

  // ---- where it breaks --------------------------------------------------------------------------

  /** The process ends between adding a job and storing its id. */
  function CrashedSync(w: World, auto: AutomationId, now: int, newId: JobId, clock: Clock): World
    requires Wants(w, auto)
  {
    w.(jobs := w.jobs[newId := NewJob(w.defs[auto], auto, w.triggers[auto].kind.schedule, now, clock)])
  }

  /** From then on the definition has two jobs after every start-up. */
  lemma CrashLeavesSecondJob(w: World, auto: AutomationId, now: int, newId: JobId, clock: Clock,
                             order: seq<AutomationId>, later: int, ids: seq<JobId>)
    requires Quiet(w) && Unused(w, newId) && Wants(w, auto) && w.defs[auto].jobId !in w.jobs
    requires |ids| == |order| && NoRepeats(order) && (forall a :: a in order <==> a in Listed(w))
    requires UnusedEach(CrashedSync(w, auto, now, newId, clock), ids)
    ensures var w' := Reconciled(CrashedSync(w, auto, now, newId, clock), order, later, ids, clock);
            && !Bijection(w') && newId in w'.jobs && w'.jobs[newId].source == Some(auto)
            && Wants(w', auto) && w'.defs[auto].jobId != newId
  {
    var c := CrashedSync(w, auto, now, newId, clock);
    assert newId in Orphans(c, auto);
    forall a | a in c.defs ensures CoherentAt(c, a) { assert CoherentAt(w, a); }
    ReconcileBijection(c, order, later, ids, clock);
    SyncEachAgrees(c, order, later, ids, clock, auto, false);
    var mid := SyncEach(c, order, later, ids, clock);
    assert SyncedAt(c, mid, auto, auto in order);
    assert newId in Orphans(mid, auto);
  }

  /** Synchronisation looks at revisions only: a trigger replaced without a new revision is not
      carried over, unless the new schedule is the old one. */
  lemma SilentReplaceIsStale(w: World, auto: AutomationId, schedule: Schedule, now: int, newId: JobId, clock: Clock)
    requires auto in w.defs && Coherent(w) && Wants(w, auto) && Agrees(w, auto)
    ensures var w1 := WithTrigger(w, auto, Some(OnSchedule(schedule)));
            Agrees(Sync(w1, auto, now, newId, clock), auto) <==> schedule == w.triggers[auto].kind.schedule
  {
    var w1 := WithTrigger(w, auto, Some(OnSchedule(schedule)));
    var w2, id := Sync(w1, auto, now, newId, clock), w.defs[auto].jobId;
    assert id in JobsOf(w, auto) && id != "";
    assert w2.jobs[id] == w.jobs[id];
    assert w2.jobs == w.jobs && w2.defs[auto] == w.defs[auto];
    assert JobsOf(w2, auto) == JobsOf(w, auto);
  }
}
