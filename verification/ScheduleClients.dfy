/** Synchronising with a definition and a trigger that were read some time ago: when a job is left behind, and when
    definition and job agree afterwards. */
module ScheduleClients {
  import opened Wrappers
  import opened AutomationFacts
  import opened Schedules

  /** The schedule a trigger has, if it has one. */
  function ScheduleOf(w: World, auto: AutomationId): Option<Schedule> {
    if auto in w.triggers && w.triggers[auto].kind.OnSchedule? then Some(w.triggers[auto].kind.schedule) else None
  }

  function WithJobId(w: World, auto: AutomationId, id: JobId): World
    requires auto in w.defs
  {
    w.(defs := w.defs[auto := w.defs[auto].(jobId := id)])
  }

  function Placed(w: World, auto: AutomationId, id: JobId, job: Job, enabled: bool, now: int, clock: Clock): World {
    var settled := EnabledJob(job, enabled, now, clock);
    w.(triggers := if auto in w.triggers then w.triggers[auto := Reported(w.triggers[auto], settled)] else w.triggers,
       jobs := w.jobs[id := settled])
  }

  /** `_sync_schedule` of a definition and a trigger that were read some time ago. A job that is gone makes it read
      both again. */
  function SyncFrom(w: World, auto: AutomationId, snap: Definition, read: Option<Schedule>, now: int, newId: JobId,
                    clock: Clock): World
    requires auto in w.defs
  {
    if snap.status == Deleted || read.None? then
      if snap.jobId == "" then w else WithJobId(w, auto, "").(jobs := w.jobs - {snap.jobId})
    else if snap.jobId == "" then
      Placed(WithJobId(w, auto, newId), auto, newId, NewJob(snap, auto, read.value, now, clock),
             snap.status == Active, now, clock)
    else if snap.jobId !in w.jobs then
      Sync(WithJobId(w, auto, ""), auto, now, newId, clock)
    else
      var job := w.jobs[snap.jobId];
      Placed(w, auto, snap.jobId,
             if job.revision != snap.revision then RewrittenJob(job, snap, auto, read.value, now, clock) else job,
             snap.status == Active, now, clock)
  }

  /** Without interference it is the synchronisation of the whole call. */
  lemma FreshIsSync(w: World, auto: AutomationId, now: int, newId: JobId, clock: Clock)
    requires auto in w.defs
    ensures SyncFrom(w, auto, w.defs[auto], ScheduleOf(w, auto), now, newId, clock) == Sync(w, auto, now, newId, clock)
  {
    var d := w.defs[auto];
    assert w.defs[auto := d.(jobId := d.jobId)] == w.defs;
    if ScheduleOf(w, auto).Some? && d.status != Deleted && d.jobId != "" && d.jobId !in w.jobs {
      assert w.defs[auto := d.(jobId := "")][auto := d.(jobId := newId)] == w.defs[auto := d.(jobId := newId)];
    }
  }

  // ---- what holds between steps -----------------------------------------------------------------------

  /** A job a definition refers to is its own and no newer, and has its payload if it has its revision. */
  predicate TiedAt(w: World, auto: AutomationId)
    requires auto in w.defs
  {
    var d := w.defs[auto];
    d.jobId in w.jobs ==>
      && w.jobs[d.jobId].source == Some(auto) && w.jobs[d.jobId].revision <= d.revision
      && (w.jobs[d.jobId].revision == d.revision ==> w.jobs[d.jobId].payload == PayloadOf(d))
  }

  /** Every derived job belongs to a definition that refers to it. */
  ghost predicate Tied(w: World) {
    && "" !in w.jobs
    && (forall a :: a in w.defs ==> TiedAt(w, a) && Orphans(w, a) == {})
    && (forall j :: j in w.jobs && w.jobs[j].source.Some? ==> w.jobs[j].source.value in w.defs)
  }

  /** What a client has read may be old, but it was read: a revision stands for one definition, a deleted one
      stays deleted, and the job it refers to, if there still is one, is its own. */
  predicate WasRead(w: World, auto: AutomationId, snap: Definition) {
    && auto in w.defs
    && var d := w.defs[auto];
    && snap.revision <= d.revision && (snap.revision == d.revision ==> snap.(jobId := "") == d.(jobId := ""))
    && (snap.status == Deleted ==> d.status == Deleted)
    && (snap.jobId in w.jobs ==> w.jobs[snap.jobId].source == Some(auto))
  }

  /** The definition refers to a job that the client does not know of, and the client will refer it to another
      or to none. */
  predicate Strays(w: World, auto: AutomationId, snap: Definition, read: Option<Schedule>)
    requires auto in w.defs
  {
    && w.defs[auto].jobId in w.jobs && snap.jobId != w.defs[auto].jobId
    && (snap.jobId != "" || (snap.status != Deleted && read.Some?))
  }

  // ---- one late synchronisation -----------------------------------------------------------------------

  /** Only the reference, the trigger and the jobs of one Automation change. */
  predicate OnlyAt(w: World, w': World, auto: AutomationId)
    requires auto in w.defs
  {
    && w'.defs == w.defs[auto := w.defs[auto].(jobId := if auto in w'.defs then w'.defs[auto].jobId else "")]
    && "" !in w'.jobs
    && (forall j :: j in w'.jobs && w'.jobs[j].source != Some(auto) ==> j in w.jobs && w'.jobs[j] == w.jobs[j])
    && (forall j :: j in w.jobs && w.jobs[j].source != Some(auto) ==> j in w'.jobs && w'.jobs[j] == w.jobs[j])
  }

  lemma TiedElsewhere(w: World, w': World, auto: AutomationId, b: AutomationId)
    requires Tied(w) && auto in w.defs && OnlyAt(w, w', auto) && b in w.defs && b != auto
    requires w.defs[b].jobId in w.jobs || w.defs[b].jobId !in w'.jobs
    ensures TiedAt(w', b) && Orphans(w', b) == {}
  {
    assert TiedAt(w, b) && Orphans(w, b) == {};
    assert w'.defs[b] == w.defs[b];
    assert JobsOf(w', b) <= JobsOf(w, b);
  }

  lemma TiedExactly(w: World, w': World, auto: AutomationId)
    requires Tied(w) && auto in w.defs && OnlyAt(w, w', auto) && TiedAt(w', auto)
    requires forall b :: b in w.defs && b != auto ==> w.defs[b].jobId in w.jobs || w.defs[b].jobId !in w'.jobs
    ensures Tied(w') <==> Orphans(w', auto) == {}
  {
    forall b | b in w.defs && b != auto ensures TiedAt(w', b) && Orphans(w', b) == {} {
      TiedElsewhere(w, w', auto, b);
    }
  }

  /** The only job of a tied definition is the one it refers to. */
  lemma OwnJob(w: World, auto: AutomationId)
    requires Tied(w) && auto in w.defs
    ensures JobsOf(w, auto) == if w.defs[auto].jobId in w.jobs then {w.defs[auto].jobId} else {}
  {
    assert TiedAt(w, auto) && Orphans(w, auto) == {};
    if w.defs[auto].jobId in w.jobs { assert w.defs[auto].jobId in JobsOf(w, auto); }
  }

  lemma RemovingStrays(w: World, auto: AutomationId, snap: Definition, read: Option<Schedule>, now: int, newId: JobId,
                       clock: Clock)
    requires Tied(w) && WasRead(w, auto, snap) && (snap.status == Deleted || read.None?) && snap.jobId != ""
    ensures var w' := SyncFrom(w, auto, snap, read, now, newId, clock);
            && (Tied(w') <==> !Strays(w, auto, snap, read))
            && (!Strays(w, auto, snap, read) ==> (Agrees(w', auto) <==> !Wants(w, auto)))
  {
    var w' := SyncFrom(w, auto, snap, read, now, newId, clock);
    OwnJob(w, auto);
    assert JobsOf(w', auto) == JobsOf(w, auto) - {snap.jobId};
    if snap.jobId in w.jobs { assert snap.jobId in JobsOf(w, auto); }
    TiedExactly(w, w', auto);
  }

  /** It refers the definition to the new job, which says what the client has read. */
  lemma AddedIs(w: World, auto: AutomationId, snap: Definition, read: Option<Schedule>, now: int, newId: JobId,
                clock: Clock)
    requires Tied(w) && WasRead(w, auto, snap) && Unused(w, newId)
    requires snap.status != Deleted && read.Some? && snap.jobId == ""
    ensures var w' := SyncFrom(w, auto, snap, read, now, newId, clock);
            && OnlyAt(w, w', auto) && TiedAt(w', auto) && w'.defs[auto].jobId == newId
            && JobsOf(w', auto) == JobsOf(w, auto) + {newId} && newId in w'.jobs
            && w'.jobs[newId].revision == snap.revision && w'.jobs[newId].enabled == (snap.status == Active)
            && w'.jobs[newId].schedule == read.value && w'.jobs[newId].payload == PayloadOf(snap)
  {
    assert JobsOf(SyncFrom(w, auto, snap, read, now, newId, clock), auto) == JobsOf(w, auto) + {newId};
  }

  /** The definition and the trigger are still what the client has read. */
  predicate Current(w: World, auto: AutomationId, snap: Definition, read: Option<Schedule>)
    requires auto in w.defs
  {
    snap.revision == w.defs[auto].revision && ScheduleOf(w, auto) == read
  }

  lemma AddingStrays(w: World, auto: AutomationId, snap: Definition, read: Option<Schedule>, now: int, newId: JobId,
                     clock: Clock)
    requires Tied(w) && WasRead(w, auto, snap) && Unused(w, newId)
    requires snap.status != Deleted && read.Some? && snap.jobId == ""
    ensures var w' := SyncFrom(w, auto, snap, read, now, newId, clock);
            && (Tied(w') <==> !Strays(w, auto, snap, read))
            && (!Strays(w, auto, snap, read) ==> (Agrees(w', auto) <==> Current(w, auto, snap, read)))
  {
    var w' := SyncFrom(w, auto, snap, read, now, newId, clock);
    OwnJob(w, auto);
    AddedIs(w, auto, snap, read, now, newId, clock);
    TiedExactly(w, w', auto);
    KindStays(w, auto, snap, read, now, newId, clock);
  }

  lemma KindStays(w: World, auto: AutomationId, snap: Definition, read: Option<Schedule>, now: int, newId: JobId,
                  clock: Clock)
    requires auto in w.defs
    ensures var w' := SyncFrom(w, auto, snap, read, now, newId, clock);
            && auto in w'.defs && w'.defs[auto].(jobId := "") == w.defs[auto].(jobId := "")
            && ScheduleOf(w', auto) == ScheduleOf(w, auto) && (Wants(w', auto) <==> Wants(w, auto))
  {
    if snap.status != Deleted && read.Some? && snap.jobId != "" && snap.jobId !in w.jobs {
      KindStaysInSync(WithJobId(w, auto, ""), auto, now, newId, clock);
    }
  }

  lemma KindStaysInSync(w: World, auto: AutomationId, now: int, newId: JobId, clock: Clock)
    requires auto in w.defs
    ensures var w' := Sync(w, auto, now, newId, clock);
            && auto in w'.defs && w'.defs[auto].(jobId := "") == w.defs[auto].(jobId := "")
            && ScheduleOf(w', auto) == ScheduleOf(w, auto) && (Wants(w', auto) <==> Wants(w, auto))
  {
  }

  /** Reading again leaves the definition with no job, or with a new one that agrees. */
  lemma ReadAgain(w: World, auto: AutomationId, now: int, newId: JobId, clock: Clock)
    requires Tied(w) && auto in w.defs && Unused(w, newId)
    ensures var w' := Sync(WithJobId(w, auto, ""), auto, now, newId, clock);
            && OnlyAt(w, w', auto) && TiedAt(w', auto)
            && JobsOf(w', auto) == JobsOf(w, auto) + (if Wants(w, auto) then {newId} else {})
            && w'.defs[auto].jobId == (if Wants(w, auto) then newId else "")
            && (Agrees(w', auto) <==> JobsOf(w, auto) == {})
  {
    var w' := Sync(WithJobId(w, auto, ""), auto, now, newId, clock);
    assert JobsOf(w', auto) == JobsOf(w, auto) + if Wants(w, auto) then {newId} else {};
    assert newId !in JobsOf(w, auto);
  }

  lemma MissingStrays(w: World, auto: AutomationId, snap: Definition, read: Option<Schedule>, now: int, newId: JobId,
                      clock: Clock)
    requires Tied(w) && WasRead(w, auto, snap) && Unused(w, newId)
    requires snap.status != Deleted && read.Some? && snap.jobId != "" && snap.jobId !in w.jobs
    ensures var w' := SyncFrom(w, auto, snap, read, now, newId, clock);
            && (Tied(w') <==> !Strays(w, auto, snap, read))
            && (!Strays(w, auto, snap, read) ==> Agrees(w', auto))
  {
    OwnJob(w, auto);
    ReadAgain(w, auto, now, newId, clock);
    TiedExactly(w, SyncFrom(w, auto, snap, read, now, newId, clock), auto);
  }

  /** The job the client knows, as it leaves it. */
  function Rewritten(w: World, auto: AutomationId, snap: Definition, schedule: Schedule, now: int, clock: Clock): Job
    requires snap.jobId in w.jobs
  {
    var job := w.jobs[snap.jobId];
    EnabledJob(if job.revision != snap.revision then RewrittenJob(job, snap, auto, schedule, now, clock) else job,
               snap.status == Active, now, clock)
  }

  /** It has the revision that the client has read, and the schedule too unless it had that revision already. */
  lemma RewrittenIs(w: World, auto: AutomationId, snap: Definition, schedule: Schedule, now: int, clock: Clock)
    requires Tied(w) && WasRead(w, auto, snap) && snap.jobId in w.jobs
    ensures w.defs[auto].jobId == snap.jobId && JobsOf(w, auto) == {snap.jobId}
    ensures var was, job := w.jobs[snap.jobId], Rewritten(w, auto, snap, schedule, now, clock);
            && job.source == Some(auto) && job.revision == snap.revision && job.enabled == (snap.status == Active)
            && job.schedule == (if was.revision == snap.revision then was.schedule else schedule)
            && (snap.revision == w.defs[auto].revision ==> job.payload == PayloadOf(w.defs[auto]))
  {
    OwnJob(w, auto);
    assert snap.jobId in JobsOf(w, auto) && TiedAt(w, auto);
  }

  /** A job that the client knows never strays. Definition and job agree afterwards exactly if the revision is
      current and the job has got, or has kept, the schedule of the trigger. */
  lemma KeepingStrays(w: World, auto: AutomationId, snap: Definition, read: Option<Schedule>, now: int, newId: JobId,
                      clock: Clock)
    requires Tied(w) && WasRead(w, auto, snap)
    requires snap.status != Deleted && read.Some? && snap.jobId != "" && snap.jobId in w.jobs
    ensures var w' := SyncFrom(w, auto, snap, read, now, newId, clock);
            && Tied(w') && !Strays(w, auto, snap, read) && w'.defs == w.defs
            && w'.jobs == w.jobs[snap.jobId := Rewritten(w, auto, snap, read.value, now, clock)]
            && (Agrees(w', auto) <==>
                  && snap.revision == w.defs[auto].revision
                  && ScheduleOf(w, auto) == Some(Rewritten(w, auto, snap, read.value, now, clock).schedule))
  {
    var w' := SyncFrom(w, auto, snap, read, now, newId, clock);
    RewrittenIs(w, auto, snap, read.value, now, clock);
    KindStays(w, auto, snap, read, now, newId, clock);
    assert w'.jobs == w.jobs[snap.jobId := Rewritten(w, auto, snap, read.value, now, clock)];
    assert JobsOf(w', auto) == {snap.jobId};
    assert w.defs[auto := w.defs[auto].(jobId := w.defs[auto].jobId)] == w.defs;
    TiedExactly(w, w', auto);
  }

  /** A late synchronisation leaves a job without a definition that refers to it exactly if it strays. */
  lemma LateSyncExactly(w: World, auto: AutomationId, snap: Definition, read: Option<Schedule>, now: int,
                        newId: JobId, clock: Clock)
    requires Tied(w) && WasRead(w, auto, snap) && Unused(w, newId)
    ensures Tied(SyncFrom(w, auto, snap, read, now, newId, clock)) <==> !Strays(w, auto, snap, read)
  {
    if snap.status == Deleted || read.None? {
      if snap.jobId != "" { RemovingStrays(w, auto, snap, read, now, newId, clock); }
    } else if snap.jobId == "" {
      AddingStrays(w, auto, snap, read, now, newId, clock);
    } else if snap.jobId !in w.jobs {
      MissingStrays(w, auto, snap, read, now, newId, clock);
    } else {
      KeepingStrays(w, auto, snap, read, now, newId, clock);
    }
  }

  /** Where it does not stray: when definition and job agree afterwards. */
  predicate Settles(w: World, auto: AutomationId, snap: Definition, read: Option<Schedule>)
    requires auto in w.defs
  {
    if snap.status == Deleted || read.None? then
      if snap.jobId == "" then Agrees(w, auto) else !Wants(w, auto)
    else if snap.jobId != "" && snap.jobId !in w.jobs then true
    else if snap.jobId != "" && w.jobs[snap.jobId].revision == snap.revision then
      snap.revision == w.defs[auto].revision && ScheduleOf(w, auto) == Some(w.jobs[snap.jobId].schedule)
    else Current(w, auto, snap, read)
  }

  /** Exactly then: what was read is current, or is read again, or the job has its revision and has kept the schedule
      of the trigger; or, where a job is to go, none is wanted; or nothing is done. */
  lemma LateSyncAgrees(w: World, auto: AutomationId, snap: Definition, read: Option<Schedule>, now: int,
                       newId: JobId, clock: Clock)
    requires Tied(w) && WasRead(w, auto, snap) && Unused(w, newId) && !Strays(w, auto, snap, read)
    ensures Agrees(SyncFrom(w, auto, snap, read, now, newId, clock), auto) <==> Settles(w, auto, snap, read)
  {
    if snap.status == Deleted || read.None? {
      if snap.jobId != "" { RemovingStrays(w, auto, snap, read, now, newId, clock); }
    } else if snap.jobId == "" {
      AddingStrays(w, auto, snap, read, now, newId, clock);
    } else if snap.jobId !in w.jobs {
      MissingStrays(w, auto, snap, read, now, newId, clock);
    } else {
      RewrittenIs(w, auto, snap, read.value, now, clock);
      KeepingStrays(w, auto, snap, read, now, newId, clock);
    }
  }
}
