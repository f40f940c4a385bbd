/** The scheduler's job table and the service methods that keep the derived jobs, step by step. */
module ScheduleService {
  import opened Wrappers
  import opened AutomationFacts
  import opened Schedules
  import opened ScheduleStartup

  class CronTable {
    var jobs: map<JobId, Job>

    constructor ()
      ensures jobs == map[]
    {
      jobs := map[];
    }

    method AddJob(newId: JobId, d: Definition, auto: AutomationId, schedule: Schedule, now: int, clock: Clock)
      returns (job: Job)
      requires newId !in jobs
      modifies this
      ensures job == NewJob(d, auto, schedule, now, clock) && jobs == old(jobs)[newId := job]
    {
      job := Job(true, Some(auto), d.revision, schedule, PayloadOf(d), clock(schedule, now), None);
      jobs := jobs[newId := job];
    }

    /** The execution history and the enablement of the job stay; a missing job is reported. */
    method UpdateJob(id: JobId, d: Definition, auto: AutomationId, schedule: Schedule, now: int, clock: Clock)
      returns (job: Option<Job>)
      modifies this
      ensures job.Some? == (id in old(jobs))
      ensures if job.Some? then job == Some(RewrittenJob(old(jobs)[id], d, auto, schedule, now, clock)) &&
              jobs == old(jobs)[id := job.value]
              else jobs == old(jobs)
      ensures job.Some? ==> job.value.lastRun == old(jobs)[id].lastRun && job.value.enabled == old(jobs)[id].enabled
    {
      if id !in jobs { return None; }
      var j := jobs[id].(source := Some(auto), revision := d.revision, schedule := schedule, payload := PayloadOf(d));
      j := j.(nextRun := if j.enabled then clock(schedule, now) else None);
      jobs := jobs[id := j];
      job := Some(j);
    }

    method EnableJob(id: JobId, enabled: bool, now: int, clock: Clock) returns (job: Option<Job>)
      modifies this
      ensures if id in old(jobs)
              then job == Some(old(jobs)[id].(enabled := enabled,
                nextRun := if enabled then clock(old(jobs)[id].schedule, now) else None))
                   && jobs == old(jobs)[id := job.value]
              else job == None && jobs == old(jobs)
    {
      if id !in jobs { return None; }
      var j := jobs[id].(enabled := enabled);
      j := j.(nextRun := if enabled then clock(j.schedule, now) else None);
      jobs := jobs[id := j];
      job := Some(j);
    }

    method RemoveJob(id: JobId) returns (removed: bool)
      modifies this
      ensures jobs == old(jobs) - {id} && removed == (id in old(jobs))
    {
      removed := id in jobs;
      jobs := jobs - {id};
    }
  }

  class Scheduler {
    var defs: map<AutomationId, Definition>
    var triggers: map<AutomationId, Trigger>
    const cron: CronTable

    constructor (table: CronTable)
      ensures cron == table && defs == map[] && triggers == map[]
    {
      cron := table;
      defs := map[];
      triggers := map[];
    }

    ghost function Facts(): World
      reads this, cron
    {
      World(defs, triggers, cron.jobs)
    }

    method ForgetJob(auto: AutomationId)
      requires auto in defs
      modifies this, cron
      ensures Facts() == old(if defs[auto].jobId == "" then Facts()
                             else Facts().(defs := defs[auto := defs[auto].(jobId := "")],
                               jobs := cron.jobs - {defs[auto].jobId}))
    {
      if defs[auto].jobId != "" {
        var _ := cron.RemoveJob(defs[auto].jobId);
        defs := defs[auto := defs[auto].(jobId := "")];
      }
    }

    /** `newId` is the id the scheduler draws if it has to add a job. */
    method SyncSchedule(auto: AutomationId, now: int, newId: JobId, clock: Clock)
      requires auto in defs && Unused(Facts(), newId)
      modifies this, cron
      ensures Facts() == Sync(old(Facts()), auto, now, newId, clock)
      decreases defs[auto].jobId != ""
    {
      var d := defs[auto];
      if d.status == Deleted {
        ForgetJob(auto);
        return;
      }
      if auto !in triggers {
        ForgetJob(auto);
        return;
      }
      var trigger := triggers[auto];
      if !trigger.kind.OnSchedule? {
        ForgetJob(auto);
        return;
      }
      var enabled := d.status == Active;
      var id, job;
      if d.jobId != "" {
        id := d.jobId;
        if id !in cron.jobs {
          // The job is gone: forget its id and start over.
          defs := defs[auto := d.(jobId := "")];
          ghost var between := Facts();
          assert Sync(between, auto, now, newId, clock) == Sync(old(Facts()), auto, now, newId, clock) by {
            ForgettingIsSilent(old(Facts()), auto, now, newId, clock);
          }
          SyncSchedule(auto, now, newId, clock);
          return;
        }
        if cron.jobs[id].revision != d.revision {
          // The job was found just now, so it is rewritten.
          var rewritten := cron.UpdateJob(id, d, auto, trigger.kind.schedule, now, clock);
          job := rewritten.value;
        } else {
          job := cron.jobs[id];
        }
      } else {
        id := newId;
        job := cron.AddJob(newId, d, auto, trigger.kind.schedule, now, clock);
        defs := defs[auto := d.(jobId := newId)];
      }
      if job.enabled != enabled {
        var updated := cron.EnableJob(id, enabled, now, clock);
        if updated.Some? { job := updated.value; }
      }
      triggers := triggers[auto := trigger.(nextRun := job.nextRun,
        lastRun := if job.lastRun.Some? then job.lastRun else trigger.lastRun)];
      assert defs == old(defs)[auto := d.(jobId := id)];
      assert cron.jobs == old(cron.jobs)[id := job];
    }

    /** The scheduling part of `reconcile_runtime`. */
    method ReconcileSchedules(order: seq<AutomationId>, now: int, newId: seq<JobId>, clock: Clock)
      requires |newId| == |order| && (forall a :: a in order <==> a in Listed(Facts()))
      requires Coherent(Facts()) && UnusedEach(Facts(), newId)
      modifies this, cron
      ensures Facts() == Reconciled(old(Facts()), order, now, newId, clock)
    {
      ghost var start := Facts();
      var byId := set a | a in order;
      assert forall a :: a in order ==> a in Listed(start);
      for i := 0 to |order|
        invariant Coherent(Facts()) && UnusedEach(Facts(), newId[i..]) && defs.Keys == start.defs.Keys
        invariant forall a :: a in order[i..] ==> a in defs
        invariant SyncEach(Facts(), order[i..], now, newId[i..], clock) == SyncEach(start, order, now, newId, clock)
      {
        ghost var w := Facts();
        assert order[i..][0] == order[i] && order[i..][1..] == order[i + 1..];
        assert newId[i..][0] == newId[i] && newId[i..][1..] == newId[i + 1..];
        SyncCoherent(w, order[i], now, newId[i], clock);
        SyncKeepsUnused(w, order[i], now, newId[i..], clock);
        SyncSchedule(order[i], now, newId[i], clock);
      }
      ghost var synced := Facts();
      assert synced == SyncEach(start, order, now, newId, clock);
      assert byId == Listed(start);
      DropWithout(byId);
    }

    method DropWithout(byId: set<AutomationId>)
      modifies cron
      ensures Facts() == DropUnlisted(old(Facts()), byId)
    {
      ghost var kept := DropUnlisted(Facts(), byId).jobs;
      var left := cron.jobs.Keys;
      while left != {}
        invariant left <= cron.jobs.Keys && kept.Keys <= cron.jobs.Keys
        invariant forall j :: j in cron.jobs ==> j in old(cron.jobs) && cron.jobs[j] == old(cron.jobs)[j]
        invariant forall j :: j in cron.jobs && j !in left ==> j in kept
        decreases left
      {
        var j :| j in left;
        left := left - {j};
        if cron.jobs[j].source.Some? && cron.jobs[j].source.value !in byId {
          var _ := cron.RemoveJob(j);
        }
      }
      assert cron.jobs == kept;
    }
  }

  /** Forgetting the id of a missing job first does not change what synchronising comes to. */
  lemma ForgettingIsSilent(w: World, auto: AutomationId, now: int, newId: JobId, clock: Clock)
    requires auto in w.defs && Wants(w, auto) && w.defs[auto].jobId !in w.jobs
    ensures var w1 := w.(defs := w.defs[auto := w.defs[auto].(jobId := "")]);
            Sync(w1, auto, now, newId, clock) == Sync(w, auto, now, newId, clock)
  {
    var d := w.defs[auto];
    assert w.defs[auto := d.(jobId := "")][auto := d.(jobId := newId)] == w.defs[auto := d.(jobId := newId)];
  }
}
