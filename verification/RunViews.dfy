/** What one Automation looks like inside the engine: its queued and running runs, the coroutines
    that carry its runs, the rows its callers hold, and how often each run was started. */
module RunViews {
  import opened AutomationFacts
  import opened RunSets
  import opened RunSlices

  datatype View = View(
    queued: set<RunId>, running: set<RunId>,
    scheduled: map<RunId, nat>, executing: map<RunId, nat>, closing: map<RunId, nat>,
    held: map<RunId, Verdict>, begun: map<RunId, nat>)

  /** Times a run was started, as the log tells it. */
  function Starts(log: seq<Event>, r: RunId): nat {
    if log == [] then 0
    else Starts(log[..|log| - 1], r) + if IsStart(log[|log| - 1], r) then 1 else 0
  }

  predicate IsStart(e: Event, r: RunId) {
    e.RunEvent? && e.run == r && e.runStatus == Running
  }

  predicate Of(runs: seq<Run>, auto: AutomationId, r: RunId) {
    r < |runs| && runs[r].auto == auto
  }

  /** A coroutine carries this run of this Automation. */
  predicate Carried(s: Sys, auto: AutomationId, r: RunId) {
    Of(s.db.runs, auto, r) && (r in s.scheduled || r in s.executing)
  }

  /** How often each run of one Automation occurs among some coroutines. */
  function Counted(runs: seq<Run>, auto: AutomationId, coroutines: multiset<RunId>): map<RunId, nat> {
    map r: RunId | r < |runs| && Of(runs, auto, r) && coroutines[r] > 0 :: coroutines[r]
  }

  /** The rows of one Automation among those that are held. */
  function HeldOf(runs: seq<Run>, auto: AutomationId, held: map<RunId, Verdict>): map<RunId, Verdict> {
    map r: RunId | r in held && Of(runs, auto, r) :: held[r]
  }

  function Begun(runs: seq<Run>, auto: AutomationId, log: seq<Event>): map<RunId, nat> {
    map r: RunId | r < |runs| && Of(runs, auto, r) && Starts(log, r) > 0 :: Starts(log, r)
  }

  function ViewOf(s: Sys, auto: AutomationId): View {
    View(QueuedRuns(s.db, auto), RunningRuns(s.db, auto),
         Counted(s.db.runs, auto, s.scheduled), Counted(s.db.runs, auto, s.executing),
         Counted(s.db.runs, auto, s.closing), HeldOf(s.db.runs, auto, s.held),
         Begun(s.db.runs, auto, s.db.log))
  }

  /** Nothing refers to a run or a definition that does not exist. */
  ghost predicate WellFormed(s: Sys) {
    && (forall r: RunId :: r < |s.db.runs| ==> s.db.runs[r].auto in s.db.defs)
    && (forall r: RunId :: r >= |s.db.runs| ==> s.scheduled[r] == 0 && s.executing[r] == 0 && s.closing[r] == 0)
    && (forall r: RunId :: r >= |s.db.runs| ==> Starts(s.db.log, r) == 0 && r !in s.held)
    && (forall r: RunId :: r in s.held ==> s.held[r] != Enqueue)
  }

  function Bump(m: map<RunId, nat>, r: RunId): map<RunId, nat> {
    m[r := if r in m then m[r] + 1 else 1]
  }

  function Drop(m: map<RunId, nat>, r: RunId): map<RunId, nat> {
    if r in m && m[r] > 1 then m[r := m[r] - 1] else m - {r}
  }

  // ---- how each elementary change shows in a view ---------------------------------------------

  lemma StartsAppend(log: seq<Event>, e: Event, r: RunId)
    ensures Starts(log + [e], r) == Starts(log, r) + if IsStart(e, r) then 1 else 0
  {
    assert (log + [e])[..|log|] == log;
  }

  lemma CountedAdd(runs: seq<Run>, auto: AutomationId, c: multiset<RunId>, r: RunId)
    ensures Counted(runs, auto, c + multiset{r}) ==
            if Of(runs, auto, r) then Bump(Counted(runs, auto, c), r) else Counted(runs, auto, c)
  {
    var d := c + multiset{r};
    assert forall x: RunId :: d[x] == c[x] + if x == r then 1 else 0;
  }

  lemma CountedRemove(runs: seq<Run>, auto: AutomationId, c: multiset<RunId>, r: RunId)
    requires r in c
    ensures Counted(runs, auto, c - multiset{r}) ==
            if Of(runs, auto, r) then Drop(Counted(runs, auto, c), r) else Counted(runs, auto, c)
  {
    var d := c - multiset{r};
    assert forall x: RunId :: d[x] == c[x] - if x == r then 1 else 0;
  }

  /** The same runs, or more that no coroutine carries and that never started. */
  lemma CountedFrame(runs: seq<Run>, runs': seq<Run>, auto: AutomationId, c: multiset<RunId>)
    requires |runs| <= |runs'| && forall r: RunId :: r < |runs| ==> runs[r].auto == runs'[r].auto
    requires forall r: RunId :: r >= |runs| ==> c[r] == 0
    ensures Counted(runs', auto, c) == Counted(runs, auto, c)
  {
  }

  lemma HeldFrame(runs: seq<Run>, runs': seq<Run>, auto: AutomationId, held: map<RunId, Verdict>)
    requires |runs| <= |runs'| && forall r: RunId :: r < |runs| ==> runs[r].auto == runs'[r].auto
    requires forall r: RunId :: r >= |runs| ==> r !in held
    ensures HeldOf(runs', auto, held) == HeldOf(runs, auto, held)
  {
  }

  lemma BegunFrame(runs: seq<Run>, runs': seq<Run>, auto: AutomationId, log: seq<Event>, log': seq<Event>)
    requires |runs| <= |runs'| && forall r: RunId :: r < |runs| ==> runs[r].auto == runs'[r].auto
    requires forall r: RunId :: r >= |runs| ==> Starts(log, r) == 0
    requires log' == log || exists e: Event :: log' == log + [e] && !(e.RunEvent? && e.runStatus == Running)
    ensures forall r: RunId :: Starts(log', r) == Starts(log, r)
    ensures Begun(runs', auto, log') == Begun(runs, auto, log)
  {
    if log' != log {
      var e: Event :| log' == log + [e] && !(e.RunEvent? && e.runStatus == Running);
      forall r: RunId ensures Starts(log', r) == Starts(log, r) { StartsAppend(log, e, r); }
    }
  }

  lemma BegunAdd(runs: seq<Run>, auto: AutomationId, log: seq<Event>, a: AutomationId, run: RunId)
    ensures forall r: RunId :: Starts(log + [RunEvent(a, run, Running)], r) == Starts(log, r) + if r == run then 1
            else 0
    ensures Begun(runs, auto, log + [RunEvent(a, run, Running)]) ==
            if Of(runs, auto, run) then Bump(Begun(runs, auto, log), run) else Begun(runs, auto, log)
  {
    var log' := log + [RunEvent(a, run, Running)];
    forall r: RunId ensures Starts(log', r) == Starts(log, r) + if r == run then 1 else 0 {
      StartsAppend(log, RunEvent(a, run, Running), r);
    }
  }

  ghost function Moved(s: Sys, run: RunId, status: RunStatus): Sys
    requires run < |s.db.runs|
  {
    s.(db := WithRunStatus(s.db, run, status))
  }

  function MovedIn(v: View, run: RunId, status: RunStatus): View {
    v.(queued := v.queued - {run} + if status == Queued then {run} else {},
       running := v.running - {run} + if status == Running then {run} else {},
       begun := if status == Running then Bump(v.begun, run) else v.begun)
  }

  /** A change of one status, as seen in the log. */
  lemma MovedBegun(s: Sys, run: RunId, status: RunStatus, auto: AutomationId)
    requires WellFormed(s) && run < |s.db.runs| && !Terminal(s.db.runs[run].status)
    ensures var s', b := Moved(s, run, status), Begun(s.db.runs, auto, s.db.log);
            && (forall r: RunId :: r >= |s.db.runs| ==> Starts(s'.db.log, r) == 0)
            && Begun(s'.db.runs, auto, s'.db.log) ==
               if status == Running && s.db.runs[run].auto == auto then Bump(b, run) else b
  {
    var runs, runs', a := s.db.runs, Moved(s, run, status).db.runs, s.db.runs[run].auto;
    BegunFrame(runs, runs', auto, s.db.log, s.db.log);
    if status == Running {
      BegunAdd(runs', auto, s.db.log, a, run);
    } else {
      BegunFrame(runs', runs', auto, s.db.log, s.db.log + [RunEvent(a, run, status)]);
    }
  }

  lemma MovedFrames(s: Sys, run: RunId, status: RunStatus, auto: AutomationId)
    requires WellFormed(s) && run < |s.db.runs|
    ensures var runs, runs' := s.db.runs, Moved(s, run, status).db.runs;
            && |runs'| == |runs| && (forall r: RunId :: r < |runs| ==> runs'[r].auto == runs[r].auto)
            && Counted(runs', auto, s.scheduled) == Counted(runs, auto, s.scheduled)
            && Counted(runs', auto, s.executing) == Counted(runs, auto, s.executing)
            && Counted(runs', auto, s.closing) == Counted(runs, auto, s.closing)
            && HeldOf(runs', auto, s.held) == HeldOf(runs, auto, s.held)
  {
    var runs, runs' := s.db.runs, Moved(s, run, status).db.runs;
    CountedFrame(runs, runs', auto, s.scheduled);
    CountedFrame(runs, runs', auto, s.executing);
    CountedFrame(runs, runs', auto, s.closing);
    HeldFrame(runs, runs', auto, s.held);
  }

  lemma MovedView(s: Sys, run: RunId, status: RunStatus, auto: AutomationId)
    requires WellFormed(s) && run < |s.db.runs|
    ensures WellFormed(Moved(s, run, status))
    ensures ViewOf(Moved(s, run, status), auto) ==
            if s.db.runs[run].auto != auto || Terminal(s.db.runs[run].status) then ViewOf(s, auto)
            else MovedIn(ViewOf(s, auto), run, status)
  {
    if !Terminal(s.db.runs[run].status) {
      StatusMoves(s.db, run, status, auto);
      MovedFrames(s, run, status, auto);
      MovedBegun(s, run, status, auto);
    }
  }

  ghost function Grown(s: Sys, auto: AutomationId, revision: nat, occurrence: string, now: int): Sys {
    s.(db := WithRun(s.db, auto, occurrence, revision, now))
  }

  lemma GrownView(s: Sys, auto: AutomationId, revision: nat, occurrence: string, now: int, other: AutomationId)
    requires WellFormed(s) && auto in s.db.defs
    ensures WellFormed(Grown(s, auto, revision, occurrence, now))
    ensures ViewOf(Grown(s, auto, revision, occurrence, now), other) ==
            var v := ViewOf(s, other);
            if auto == other then v.(queued := v.queued + {|s.db.runs|}) else v
  {
    var runs, s' := s.db.runs, Grown(s, auto, revision, occurrence, now);
    InsertMoves(s.db, auto, occurrence, revision, now, other);
    CountedFrame(runs, s'.db.runs, other, s.scheduled);
    CountedFrame(runs, s'.db.runs, other, s.executing);
    CountedFrame(runs, s'.db.runs, other, s.closing);
    HeldFrame(runs, s'.db.runs, other, s.held);
    BegunFrame(runs, s'.db.runs, other, s.db.log, s.db.log + [RunEvent(auto, |runs|, Queued)]);
  }

  lemma ScheduledView(s: Sys, run: RunId, auto: AutomationId)
    requires WellFormed(s) && run < |s.db.runs|
    ensures var s' := s.(scheduled := s.scheduled + multiset{run});
            && WellFormed(s')
            && ViewOf(s', auto) == var v := ViewOf(s, auto);
               if Of(s.db.runs, auto, run) then v.(scheduled := Bump(v.scheduled, run)) else v
  {
    CountedAdd(s.db.runs, auto, s.scheduled, run);
  }

  lemma UnscheduledView(s: Sys, run: RunId, auto: AutomationId)
    requires WellFormed(s) && run < |s.db.runs| && run in s.scheduled
    ensures var s' := s.(scheduled := s.scheduled - multiset{run});
            && WellFormed(s')
            && ViewOf(s', auto) == var v := ViewOf(s, auto);
               if Of(s.db.runs, auto, run) then v.(scheduled := Drop(v.scheduled, run)) else v
  {
    CountedRemove(s.db.runs, auto, s.scheduled, run);
  }

  lemma EnteredView(s: Sys, run: RunId, auto: AutomationId)
    requires WellFormed(s) && run < |s.db.runs|
    ensures var s' := s.(executing := s.executing + multiset{run});
            && WellFormed(s')
            && ViewOf(s', auto) == var v := ViewOf(s, auto);
               if Of(s.db.runs, auto, run) then v.(executing := Bump(v.executing, run)) else v
  {
    CountedAdd(s.db.runs, auto, s.executing, run);
  }

  lemma LeftView(s: Sys, run: RunId, auto: AutomationId)
    requires WellFormed(s) && run < |s.db.runs| && run in s.executing
    ensures var s' := s.(executing := s.executing - multiset{run});
            && WellFormed(s')
            && ViewOf(s', auto) == var v := ViewOf(s, auto);
               if Of(s.db.runs, auto, run) then v.(executing := Drop(v.executing, run)) else v
  {
    CountedRemove(s.db.runs, auto, s.executing, run);
  }

  lemma ClosingView(s: Sys, run: RunId, auto: AutomationId)
    requires WellFormed(s) && run < |s.db.runs|
    ensures var s' := s.(closing := s.closing + multiset{run});
            && WellFormed(s')
            && ViewOf(s', auto) == var v := ViewOf(s, auto);
               if Of(s.db.runs, auto, run) then v.(closing := Bump(v.closing, run)) else v
  {
    CountedAdd(s.db.runs, auto, s.closing, run);
  }

  lemma ClosedView(s: Sys, run: RunId, auto: AutomationId)
    requires WellFormed(s) && run < |s.db.runs| && run in s.closing
    ensures WellFormed(Closed(s, run))
    ensures ViewOf(Closed(s, run), auto) ==
            var v := ViewOf(s, auto);
            if Of(s.db.runs, auto, run) then v.(closing := Drop(v.closing, run)) else v
  {
    CountedRemove(s.db.runs, auto, s.closing, run);
  }

  lemma HeldView(s: Sys, run: RunId, verdict: Verdict, auto: AutomationId)
    requires WellFormed(s) && run < |s.db.runs| && verdict != Enqueue
    ensures var s' := s.(held := s.held[run := verdict]);
            && WellFormed(s')
            && ViewOf(s', auto) == var v := ViewOf(s, auto);
               if Of(s.db.runs, auto, run) then v.(held := v.held[run := verdict]) else v
  {
  }

  lemma ReleasedView(s: Sys, run: RunId, auto: AutomationId)
    requires WellFormed(s) && run < |s.db.runs|
    ensures var s' := s.(held := s.held - {run});
            && WellFormed(s')
            && ViewOf(s', auto) == var v := ViewOf(s, auto);
               if Of(s.db.runs, auto, run) then v.(held := v.held - {run}) else v
  {
  }

  /** Definitions may change and non-run events may be logged without any view noticing. */
  lemma DefinitionsView(s: Sys, s': Sys, auto: AutomationId)
    requires WellFormed(s) && s' == s.(db := s'.db) && s'.db.runs == s.db.runs
    requires s.db.defs.Keys <= s'.db.defs.Keys
    requires s'.db.log == s.db.log || (exists e: Event :: s'.db.log == s.db.log + [e] && !e.RunEvent?)
    ensures WellFormed(s') && ViewOf(s', auto) == ViewOf(s, auto)
  {
    BegunFrame(s.db.runs, s.db.runs, auto, s.db.log, s'.db.log);
  }
}
