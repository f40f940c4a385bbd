/** What the scheduling calls leave behind, field by field: the job of a definition, its trigger, and what a trigger may
    be asked for. */
module ScheduleOutcomes {
  import opened Wrappers
  import opened Text
  import opened AutomationFacts
  import opened Schedules
  import opened ScheduleStartup
  import opened ScheduleCalls

  /** A definition that is not deleted and has a schedule for its trigger. */
  predicate IsScheduled(w: World, auto: AutomationId, schedule: Schedule) {
    && auto in w.defs && w.defs[auto].status != Deleted
    && auto in w.triggers && w.triggers[auto].kind == OnSchedule(schedule)
  }

  /** The column of a definition that a job carries as its name, message or Agent. */
  predicate Carries(job: Job, d: Definition, column: string) {
    (column in job.payload <==> column in d.text) && (column in d.text ==> job.payload[column] == d.text[column])
  }

  /** A job that says what the definition says: its revision, schedule and enablement, its three columns, no others. */
  predicate Says(job: Job, auto: AutomationId, d: Definition, schedule: Schedule) {
    && job.source == Some(auto) && job.revision == d.revision && job.schedule == schedule
    && (job.enabled <==> d.status == Active)
    && Carries(job, d, "name") && Carries(job, d, "instructions") && Carries(job, d, "agent_id")
    && forall c :: c in job.payload ==> c == "name" || c == "instructions" || c == "agent_id"
  }

  lemma PayloadSays(d: Definition, job: Job)
    requires job.payload == PayloadOf(d)
    ensures Carries(job, d, "name") && Carries(job, d, "instructions") && Carries(job, d, "agent_id")
    ensures forall c :: c in job.payload ==> c == "name" || c == "instructions" || c == "agent_id"
  {
  }

  /** A scheduled definition ends with one job, which says what it says: its own, if that still exists, with the
      history it had, or a new one without. The trigger shows the due time and the last run of the job. */
  lemma SyncScheduled(w: World, auto: AutomationId, schedule: Schedule, now: int, newId: JobId, clock: Clock)
    requires IsScheduled(w, auto, schedule) && Coherent(w) && Unused(w, newId) && Orphans(w, auto) == {}
    ensures var w', d := Sync(w, auto, now, newId, clock), w.defs[auto];
            && auto in w'.defs && auto in w'.triggers
            && var id := w'.defs[auto].jobId;
            && id == (if d.jobId in w.jobs then d.jobId else newId) && w'.defs == w.defs[auto := d.(jobId := id)]
            && id in w'.jobs && Says(w'.jobs[id], auto, d, schedule)
            && w'.jobs[id].lastRun == (if d.jobId in w.jobs then w.jobs[d.jobId].lastRun else None)
            && (forall j :: j != id ==> (j in w'.jobs <==> j in w.jobs) && (j in w.jobs ==> w'.jobs[j] == w.jobs[j]))
            && (forall j :: j in w'.jobs && w'.jobs[j].source == Some(auto) ==> j == id)
            && w'.triggers == w.triggers[auto := w'.triggers[auto]]
            && w'.triggers[auto].kind == OnSchedule(schedule)
            && w'.triggers[auto].nextRun == w'.jobs[id].nextRun
            && w'.triggers[auto].lastRun ==
               if w'.jobs[id].lastRun.Some? then w'.jobs[id].lastRun else w.triggers[auto].lastRun
  {
    var w' := Sync(w, auto, now, newId, clock);
    var id := w'.defs[auto].jobId;
    SyncAgrees(w, auto, now, newId, clock);
    SyncJobs(w, auto, now, newId, clock);
    PayloadSays(w.defs[auto], w'.jobs[id]);
    assert CoherentAt(w, auto);
    assert id in JobsOf(w', auto);
    forall j | j in w'.jobs && w'.jobs[j].source == Some(auto) ensures j == id { assert j in JobsOf(w', auto); }
  }

  lemma UnscheduledMeans(w: World, auto: AutomationId)
    requires auto in w.defs
    ensures Wants(w, auto) <==> exists schedule :: IsScheduled(w, auto, schedule)
  {
    if Wants(w, auto) { assert IsScheduled(w, auto, w.triggers[auto].kind.schedule); }
  }

  /** Any other definition ends without a job: the one it refers to is removed, and the reference with it. */
  lemma SyncUnscheduled(w: World, auto: AutomationId, now: int, newId: JobId, clock: Clock)
    requires auto in w.defs && forall schedule :: !IsScheduled(w, auto, schedule)
    ensures var w', d := Sync(w, auto, now, newId, clock), w.defs[auto];
            && w'.defs == w.defs[auto := d.(jobId := "")] && w'.triggers == w.triggers
            && w'.jobs == (if d.jobId == "" then w.jobs else w.jobs - {d.jobId})
  {
    UnscheduledMeans(w, auto);
    assert w.defs[auto].jobId == "" ==> w.defs[auto].(jobId := "") == w.defs[auto];
    assert w.defs[auto := w.defs[auto]] == w.defs;
  }

  /** A fired job: an `at` job is gone; any other has run, is due again if it is enabled, and changes in nothing else.
      The trigger is told of the job as it was, if it is reported at all. */
  lemma FiredDoes(w: World, id: JobId, startedAt: int, reported: bool, now: int, clock: Clock)
    requires id in w.jobs
    ensures var w', job := Fired(w, id, startedAt, reported, now, clock), w.jobs[id];
            && w'.defs == w.defs
            && (forall j :: j != id ==> (j in w'.jobs <==> j in w.jobs) && (j in w.jobs ==> w'.jobs[j] == w.jobs[j]))
            && (id in w'.jobs <==> !job.schedule.At?)
            && (id in w'.jobs ==>
                  w'.jobs[id] == job.(lastRun := Some(startedAt),
                                      nextRun := if job.enabled then clock(job.schedule, now) else job.nextRun))
            && (forall a :: (a in w'.triggers <==> a in w.triggers)
                  && (a in w.triggers ==>
                        w'.triggers[a] == if reported && job.source == Some(a)
                                          then w.triggers[a].(nextRun := job.nextRun,
                                                              lastRun := if job.lastRun.Some? then job.lastRun
                                                                         else w.triggers[a].lastRun)
                                          else w.triggers[a]))
  {
  }

  /** Start-up keeps every job of another kind, and a derived one exactly if its definition is not deleted. */
  lemma DroppedJobs(w: World, j: JobId)
    ensures var w' := DropUnlisted(w, Listed(w));
            && w'.defs == w.defs && w'.triggers == w.triggers
            && (j in w'.jobs <==>
                  j in w.jobs && match w.jobs[j].source
                                 case None => true
                                 case Some(a) => a in w.defs && w.defs[a].status != Deleted)
            && (j in w'.jobs ==> w'.jobs[j] == w.jobs[j])
  {
  }

  // ---- triggers -----------------------------------------------------------------------------------------

  /** What a schedule is asked for: nothing, a kind that is not supported, or one that is. */
  datatype Asked = Nothing | Unsupported | Supported(kind: TriggerKind)

  function AskedSchedule(request: Option<ScheduleRequest>): Asked {
    match request
    case None => Nothing
    case Some(ScheduleRequest(empty, schedule)) =>
      if empty then Nothing else match schedule case None => Unsupported case Some(s) => Supported(OnSchedule(s))
  }

  function AskedEvent(request: Option<EventRequest>): Asked {
    match request
    case None => Nothing
    case Some(EventRequest(empty, key, objectSchema)) =>
      if empty then Nothing else if Trim(key) != "" && objectSchema then Supported(OnLocalEvent(Trim(key)))
      else Unsupported
  }

  function Answer(asked: Asked): Result<Option<TriggerKind>, StoreError> {
    match asked
    case Nothing => Ok(None)
    case Unsupported => Err(InvalidState)
    case Supported(kind) => Ok(Some(kind))
  }

  /** A creation looks at the local event only if no schedule is asked for. */
  lemma CreatedTrigger(schedule: Option<ScheduleRequest>, event: Option<EventRequest>)
    ensures FirstTrigger(schedule, event) ==
            Answer(if AskedSchedule(schedule) != Nothing then AskedSchedule(schedule) else AskedEvent(event))
  {
  }

  /** A replacement names a schedule or a local event, not both; an empty schedule removes the trigger, as nothing does,
      and an empty local event is refused. */
  lemma ReplacedTrigger(schedule: Option<ScheduleRequest>, event: Option<EventRequest>)
    ensures schedule.Some? && event.Some? ==> NewTrigger(schedule, event) == Err(InvalidState)
    ensures schedule.Some? && event.None? ==> NewTrigger(schedule, event) == Answer(AskedSchedule(schedule))
    ensures schedule.None? && event.None? ==> NewTrigger(schedule, event) == Ok(None)
    ensures schedule.None? && event.Some? ==>
              NewTrigger(schedule, event) ==
              (if AskedEvent(event) == Nothing then Err(InvalidState) else Answer(AskedEvent(event)))
  {
  }

  /** A trigger that is stored is new: it has neither a due time nor a last run, and takes the place of the old one. */
  lemma StoredTrigger(w: World, auto: AutomationId, kind: Option<TriggerKind>)
    ensures var w' := WithTrigger(w, auto, kind);
            && w'.defs == w.defs && w'.jobs == w.jobs
            && (forall a :: a != auto ==>
                  (a in w'.triggers <==> a in w.triggers) && (a in w.triggers ==> w'.triggers[a] == w.triggers[a]))
            && (auto in w'.triggers <==> kind.Some?)
            && (kind.Some? ==> w'.triggers[auto] == Trigger(kind.value, None, None))
  {
  }
}
