/** The derived Cron record of each Automation. The scheduler is an abstract job table: jobs can be
    added, rewritten, enabled and removed, and each has a due time. */
module Schedules {
  import opened Wrappers
  import opened AutomationFacts

  type JobId = string

  datatype Schedule = Every(seconds: int) | CronExpression(expr: string, timezone: string) | At(ms: int)

  datatype TriggerKind = OnSchedule(schedule: Schedule) | OnLocalEvent(eventKey: string)

  datatype Trigger = Trigger(kind: TriggerKind, nextRun: Option<int>, lastRun: Option<int>)

  /** `source` is the Automation a job is derived from; other jobs of the scheduler have none. */
  datatype Job = Job(
    enabled: bool, source: Option<AutomationId>, revision: nat, schedule: Schedule,
    payload: map<string, string>, nextRun: Option<int>, lastRun: Option<int>)

  /** When a schedule is due next, seen from some time. */
  type Clock = (Schedule, int) -> Option<int>

  datatype World = World(
    defs: map<AutomationId, Definition>, triggers: map<AutomationId, Trigger>, jobs: map<JobId, Job>)

  /** A definition that should have a job: it is not deleted and its trigger is a schedule. */
  predicate Wants(w: World, auto: AutomationId) {
    && auto in w.defs && w.defs[auto].status != Deleted
    && auto in w.triggers && w.triggers[auto].kind.OnSchedule?
  }

  /** The part of a definition a job carries. */
  function PayloadOf(d: Definition): map<string, string> {
    map k | k in {"name", "instructions", "agent_id"} && k in d.text :: d.text[k]
  }

  // ---- what the scheduler does with one job -----------------------------------------------------

  function NewJob(d: Definition, auto: AutomationId, schedule: Schedule, now: int, clock: Clock): Job {
    Job(true, Some(auto), d.revision, schedule, PayloadOf(d), clock(schedule, now), None)
  }

  function RewrittenJob(job: Job, d: Definition, auto: AutomationId, schedule: Schedule, now: int, clock: Clock): Job {
    job.(source := Some(auto), revision := d.revision, schedule := schedule, payload := PayloadOf(d),
         nextRun := if job.enabled then clock(schedule, now) else None)
  }

  function EnabledJob(job: Job, enabled: bool, now: int, clock: Clock): Job {
    if job.enabled == enabled then job
    else job.(enabled := enabled, nextRun := if enabled then clock(job.schedule, now) else None)
  }

  function Reported(t: Trigger, job: Job): Trigger {
    t.(nextRun := job.nextRun, lastRun := if job.lastRun.Some? then job.lastRun else t.lastRun)
  }

  /** `_sync_schedule`. `newId` is the id of the job it adds, if it adds one. */
  function Sync(w: World, auto: AutomationId, now: int, newId: JobId, clock: Clock): World
    requires auto in w.defs
  {
    var d := w.defs[auto];
    if !Wants(w, auto) then
      if d.jobId == "" then w
      else w.(defs := w.defs[auto := d.(jobId := "")], jobs := w.jobs - {d.jobId})
    else
      var schedule := w.triggers[auto].kind.schedule;
      var known := d.jobId != "" && d.jobId in w.jobs;
      var id := if known then d.jobId else newId;
      var job :=
        if !known then NewJob(d, auto, schedule, now, clock)
        else if w.jobs[id].revision != d.revision then RewrittenJob(w.jobs[id], d, auto, schedule, now, clock)
        else w.jobs[id];
      var settled := EnabledJob(job, d.status == Active, now, clock);
      World(w.defs[auto := d.(jobId := id)], w.triggers[auto := Reported(w.triggers[auto], settled)],
        w.jobs[id := settled])
  }

  // ---- what holds between calls -----------------------------------------------------------------

  function JobsOf(w: World, auto: AutomationId): set<JobId> {
    set j | j in w.jobs && w.jobs[j].source == Some(auto)
  }

  /** Jobs derived from a definition that the definition does not refer to. */
  function Orphans(w: World, auto: AutomationId): set<JobId>
    requires auto in w.defs
  {
    JobsOf(w, auto) - {w.defs[auto].jobId}
  }

  predicate UpToDate(d: Definition, t: Trigger, job: Job) {
    t.kind.OnSchedule? && job.schedule == t.kind.schedule && job.payload == PayloadOf(d)
  }

  /** A job a definition refers to is its own, is no newer, and if it has the revision of the
      definition it has its schedule and payload too. */
  predicate CoherentAt(w: World, auto: AutomationId)
    requires auto in w.defs
  {
    var d := w.defs[auto];
    d.jobId in w.jobs ==>
      && w.jobs[d.jobId].source == Some(auto) && w.jobs[d.jobId].revision <= d.revision
      && (w.jobs[d.jobId].revision == d.revision && Wants(w, auto) ==> UpToDate(d, w.triggers[auto], w.jobs[d.jobId]))
  }

  predicate Coherent(w: World) {
    && "" !in w.jobs
    && forall a :: a in w.defs ==> CoherentAt(w, a)
  }

  predicate Unused(w: World, id: JobId) {
    id != "" && id !in w.jobs && forall a :: a in w.defs ==> w.defs[a].jobId != id
  }

  /** The derived record of one definition says what the definition says. */
  predicate Agrees(w: World, auto: AutomationId)
    requires auto in w.defs
  {
    if Wants(w, auto) then
      && JobsOf(w, auto) == {w.defs[auto].jobId}
      && var d, job := w.defs[auto], w.jobs[w.defs[auto].jobId];
      && job.enabled == (d.status == Active) && job.revision == d.revision
      && UpToDate(d, w.triggers[auto], job)
    else JobsOf(w, auto) == {}
  }

  // ---- one synchronisation ----------------------------------------------------------------------

  lemma SyncJobs(w: World, auto: AutomationId, now: int, newId: JobId, clock: Clock)
    requires auto in w.defs && Coherent(w) && Unused(w, newId)
    ensures var w' := Sync(w, auto, now, newId, clock);
            && JobsOf(w', auto) == Orphans(w, auto) + (if Wants(w, auto) then {w'.defs[auto].jobId} else {})
            && Orphans(w', auto) == Orphans(w, auto)
            && (forall b :: b != auto ==> JobsOf(w', b) == JobsOf(w, b))
            && (Wants(w, auto) ==> w'.defs[auto].jobId in w'.jobs)
  {
    var w', d := Sync(w, auto, now, newId, clock), w.defs[auto];
    assert CoherentAt(w, auto);
    if d.jobId in w.jobs {
      assert w.jobs[d.jobId].source == Some(auto);
    }
    forall b | b != auto ensures JobsOf(w', b) == JobsOf(w, b) {}
  }

  /** The definition, trigger and job of another Automation are as they were. */
  predicate Untouched(w: World, w': World, b: AutomationId)
    requires b in w.defs
  {
    && b in w'.defs && w'.defs[b] == w.defs[b]
    && (b in w.triggers <==> b in w'.triggers) && (b in w.triggers ==> w'.triggers[b] == w.triggers[b])
    && (w.defs[b].jobId in w.jobs <==> w.defs[b].jobId in w'.jobs)
    && (w.defs[b].jobId in w.jobs ==> w'.jobs[w.defs[b].jobId] == w.jobs[w.defs[b].jobId])
  }

  lemma SyncLeavesOthers(w: World, auto: AutomationId, now: int, newId: JobId, clock: Clock, b: AutomationId)
    requires auto in w.defs && Coherent(w) && Unused(w, newId) && b in w.defs && b != auto
    ensures Untouched(w, Sync(w, auto, now, newId, clock), b)
  {
    assert CoherentAt(w, auto) && CoherentAt(w, b);
    if w.defs[auto].jobId in w.jobs && w.defs[b].jobId in w.jobs {
      assert w.defs[auto].jobId != w.defs[b].jobId;
    }
  }

  lemma SyncCoherentAt(w: World, auto: AutomationId, now: int, newId: JobId, clock: Clock)
    requires auto in w.defs && Coherent(w) && Unused(w, newId)
    ensures var w' := Sync(w, auto, now, newId, clock);
            "" !in w'.jobs && w'.defs.Keys == w.defs.Keys && CoherentAt(w', auto)
    ensures Wants(Sync(w, auto, now, newId, clock), auto) <==> Wants(w, auto)
  {
    assert CoherentAt(w, auto);
  }

  /** It leaves every other Automation alone and keeps everything coherent. */
  lemma SyncCoherent(w: World, auto: AutomationId, now: int, newId: JobId, clock: Clock)
    requires auto in w.defs && Coherent(w) && Unused(w, newId)
    ensures var w' := Sync(w, auto, now, newId, clock);
            && Coherent(w') && w'.defs.Keys == w.defs.Keys
            && (forall b :: b in w.defs && b != auto ==> Untouched(w, w', b))
            && (forall b :: b in w.defs ==> (Wants(w', b) <==> Wants(w, b)))
  {
    var w' := Sync(w, auto, now, newId, clock);
    SyncCoherentAt(w, auto, now, newId, clock);
    forall b | b in w.defs && b != auto ensures Untouched(w, w', b) && CoherentAt(w', b) {
      SyncLeavesOthers(w, auto, now, newId, clock, b);
      assert CoherentAt(w, b);
    }
  }

  /** One job exactly when the definition wants one, enabled exactly when it is active, at its
      revision, with its schedule and payload: provided no orphan was there before. */
  lemma SyncAgrees(w: World, auto: AutomationId, now: int, newId: JobId, clock: Clock)
    requires auto in w.defs && Coherent(w) && Unused(w, newId)
    ensures Agrees(Sync(w, auto, now, newId, clock), auto) <==> Orphans(w, auto) == {}
  {
    SyncJobs(w, auto, now, newId, clock);
    SyncCoherent(w, auto, now, newId, clock);
    var w' := Sync(w, auto, now, newId, clock);
    assert CoherentAt(w, auto);
    if Wants(w, auto) && Orphans(w, auto) != {} {
      var j :| j in Orphans(w, auto);
      assert j in JobsOf(w', auto);
      assert j in Orphans(w', auto);
    }
  }

  lemma SyncKeepsAgreement(w: World, auto: AutomationId, now: int, newId: JobId, clock: Clock, b: AutomationId)
    requires auto in w.defs && Coherent(w) && Unused(w, newId) && b in w.defs && b != auto && Agrees(w, b)
    ensures Agrees(Sync(w, auto, now, newId, clock), b)
  {
    SyncJobs(w, auto, now, newId, clock);
    SyncCoherent(w, auto, now, newId, clock);
    if Wants(w, b) {
      assert w.defs[b].jobId in JobsOf(w, b);
    }
  }

  /** A repeated synchronisation changes nothing at all, whenever it happens: in particular a due
      time that has passed is kept. */
  lemma SyncIdempotent(w: World, auto: AutomationId, now: int, later: int, newId: JobId, newId': JobId, clock: Clock)
    requires auto in w.defs && Coherent(w) && Unused(w, newId)
    ensures var w' := Sync(w, auto, now, newId, clock); Sync(w', auto, later, newId', clock) == w'
  {
    var w' := Sync(w, auto, now, newId, clock);
    SyncCoherent(w, auto, now, newId, clock);
    assert CoherentAt(w, auto);
    if Wants(w, auto) {
      var id := w'.defs[auto].jobId;
      assert id in w'.jobs && w'.jobs[id].revision == w'.defs[auto].revision;
      assert Reported(w'.triggers[auto], w'.jobs[id]) == w'.triggers[auto];
      assert w'.defs[auto := w'.defs[auto].(jobId := id)] == w'.defs;
      assert w'.jobs[id := w'.jobs[id]] == w'.jobs;
      assert w'.triggers[auto := w'.triggers[auto]] == w'.triggers;
    }
  }

  /** A job that has the revision and the enablement of its definition. */
  predicate Settled(w: World, auto: AutomationId)
    requires auto in w.defs
  {
    var d := w.defs[auto];
    d.jobId in w.jobs && w.jobs[d.jobId].revision == d.revision && w.jobs[d.jobId].enabled == (d.status == Active)
  }

  /** A settled job is kept as it is, due time included. Any other is given a new due time, from the
      schedule of the trigger if the definition is active and none if it is not. Either way the
      trigger shows the due time of the job. */
  lemma SyncDueTime(w: World, auto: AutomationId, now: int, newId: JobId, clock: Clock)
    requires auto in w.defs && Wants(w, auto) && Coherent(w) && Unused(w, newId)
    ensures var w' := Sync(w, auto, now, newId, clock);
            && w'.defs[auto].jobId in w'.jobs
            && (Settled(w, auto) ==> w'.jobs == w.jobs)
            && (!Settled(w, auto) ==>
                  w'.jobs[w'.defs[auto].jobId].nextRun ==
                  if w.defs[auto].status == Active then clock(w.triggers[auto].kind.schedule, now) else None)
            && w'.triggers[auto].nextRun == w'.jobs[w'.defs[auto].jobId].nextRun
  {
    assert CoherentAt(w, auto);
    var id := w.defs[auto].jobId;
    if Settled(w, auto) {
      assert w.jobs[id := w.jobs[id]] == w.jobs;
    } else if id in w.jobs && !w.jobs[id].enabled && w.defs[auto].status != Active {
      assert w.jobs[id].revision != w.defs[auto].revision;
    }
  }
}
