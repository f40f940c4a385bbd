/** Monitor-style Automations: compare each output with the last observation, deliver on change. */
module Monitor {
  import opened Wrappers
  import opened Text

  datatype Policy = Policy(enabled: bool, notifyOnChangeOnly: bool)

  /** One Agent turn that gave an output, under the policy frozen into its run. The id of the Task row
      of the run makes the delivery key, so the attempts of one run share it. An attempt that is not
      `recorded` raised between the observation and the delivery. */
  datatype Outcome = Outcome(task: nat, output: string, policy: Policy, recorded: bool)

  const QUIET := "No change detected."
  const SUMMARY_LIMIT := 16_384
  const DELIVERY_LIMIT := 2_000

  function Clip(s: string, limit: nat): string {
    if |s| <= limit then s else s[..limit]
  }

  datatype Observation<D> = Observation(digest: D, summary: string)

  datatype Delivery = Delivery(task: nat, payload: string)

  ghost predicate Injective<D(!new)>(digest: string -> D) {
    forall s, t :: digest(s) == digest(t) ==> s == t
  }

  /** The monitor row and the delivery records of one Automation. */
  class MonitorState<D(==)> {
    const digest: string -> D
    var observation: Option<Observation<D>>
    var deliveries: seq<Delivery>

    constructor (digest: string -> D)
      ensures this.digest == digest && observation == None && deliveries == []
    {
      this.digest := digest;
      observation, deliveries := None, [];
    }

    /** `_apply_monitor_policy`: the output to show, and whether it differs from the last observation. */
    method ApplyMonitorPolicy(output: string, policy: Policy) returns (visible: string, changed: bool)
      modifies this`observation
      ensures changed <==> Changed(digest, old(observation), output, policy)
      ensures observation == Observed(digest, old(observation), output, policy)
      ensures visible == if policy.enabled && policy.notifyOnChangeOnly && !changed then QUIET else output
    {
      var d := digest(Trim(output));
      changed := !policy.enabled || observation.None? || observation.value.digest != d;
      if policy.enabled {
        observation := Some(Observation(d, Clip(output, SUMMARY_LIMIT)));
      }
      visible := if policy.enabled && policy.notifyOnChangeOnly && !changed then QUIET else output;
    }

    /** `_record_delivery`: one record per delivery key, and none for an unchanged observation. */
    method RecordDelivery(task: nat, visible: string, policy: Policy, changed: bool)
      modifies this`deliveries
      ensures deliveries == Recorded(old(deliveries), task, visible, policy, changed)
    {
      if policy.enabled && !changed {
        return;
      }
      if exists i :: 0 <= i < |deliveries| && deliveries[i].task == task {
        return;
      }
      deliveries := deliveries + [Delivery(task, Clip(visible, DELIVERY_LIMIT))];
    }

    /** What an attempt does with its output. */
    method Settle(o: Outcome)
      modifies this
      ensures State(observation, deliveries) == Settled(digest, State(old(observation), old(deliveries)), o)
    {
      var visible, changed := ApplyMonitorPolicy(o.output, o.policy);
      if !o.recorded { return; }
      RecordDelivery(o.task, visible, o.policy, changed);
    }
  }

  datatype State<D> = State(observation: Option<Observation<D>>, deliveries: seq<Delivery>)

  function Changed<D(==)>(digest: string -> D, was: Option<Observation<D>>, output: string, policy: Policy): bool {
    !policy.enabled || was.None? || was.value.digest != digest(Trim(output))
  }

  function Observed<D>(digest: string -> D, was: Option<Observation<D>>, output: string,
                       policy: Policy): Option<Observation<D>> {
    if policy.enabled then Some(Observation(digest(Trim(output)), Clip(output, SUMMARY_LIMIT))) else was
  }

  predicate HasDelivery(deliveries: seq<Delivery>, task: nat) {
    exists i :: 0 <= i < |deliveries| && deliveries[i].task == task
  }

  function Recorded(deliveries: seq<Delivery>, task: nat, visible: string, policy: Policy,
                    changed: bool): seq<Delivery> {
    if (policy.enabled && !changed) || HasDelivery(deliveries, task) then deliveries
    else deliveries + [Delivery(task, Clip(visible, DELIVERY_LIMIT))]
  }

  function Settled<D(==)>(digest: string -> D, s: State<D>, o: Outcome): State<D> {
    var changed := Changed(digest, s.observation, o.output, o.policy);
    var visible := if o.policy.enabled && o.policy.notifyOnChangeOnly && !changed then QUIET else o.output;
    State(Observed(digest, s.observation, o.output, o.policy),
          if o.recorded then Recorded(s.deliveries, o.task, visible, o.policy, changed) else s.deliveries)
  }

  function SettledAll<D(==)>(digest: string -> D, outcomes: seq<Outcome>): State<D> {
    if outcomes == [] then State(None, [])
    else Settled(digest, SettledAll(digest, outcomes[..|outcomes| - 1]), outcomes[|outcomes| - 1])
  }

  // ---- the rule, in terms of outputs only ------------------------------------------------------

  /** The output of the last run whose monitor was enabled. */
  function LastSeen(outcomes: seq<Outcome>): Option<string> {
    if outcomes == [] then None
    else if outcomes[|outcomes| - 1].policy.enabled then Some(outcomes[|outcomes| - 1].output)
    else LastSeen(outcomes[..|outcomes| - 1])
  }

  /** A run is news if its monitor is off, or if its trimmed output differs from the last one seen. */
  predicate News(before: seq<Outcome>, o: Outcome) {
    !o.policy.enabled || LastSeen(before).None? || Trim(LastSeen(before).value) != Trim(o.output)
  }

  /** News is delivered unless its attempt raised first, or its run has a delivery already. */
  predicate Delivers(before: seq<Outcome>, o: Outcome)
    decreases |before|, 1
  {
    News(before, o) && o.recorded && !HasDelivery(NewsOf(before), o.task)
  }

  function NewsOf(outcomes: seq<Outcome>): seq<Delivery>
    decreases |outcomes|, 0
  {
    if outcomes == [] then []
    else
      var n := |outcomes| - 1;
      NewsOf(outcomes[..n]) +
      if Delivers(outcomes[..n], outcomes[n]) then [Delivery(outcomes[n].task,
          Clip(outcomes[n].output, DELIVERY_LIMIT))] else []
  }

  /** Over any sequence of attempts, retried, interrupted or not, the deliveries are exactly the news
      that was recorded, in order and once for each run, with the output itself and never the quiet
      notice; and every output of an enabled monitor, delivered or not, is observed. */
  lemma {:induction false} DeliversExactlyNews<D(!new)>(digest: string -> D, outcomes: seq<Outcome>)
    requires Injective(digest)
    ensures var s := SettledAll(digest, outcomes);
            && s.deliveries == NewsOf(outcomes)
            && (match LastSeen(outcomes)
                case None => s.observation == None
                case Some(output) => s.observation == Some(Observation(digest(Trim(output)),
                  Clip(output, SUMMARY_LIMIT))))
  {
    if outcomes != [] {
      DeliversExactlyNews(digest, outcomes[..|outcomes| - 1]);
    }
  }

  /** The first characters of a text, at most so many. */
  predicate Begins(cut: string, s: string, most: nat) {
    |cut| == (if |s| < most then |s| else most) && cut <= s
  }

  /** What an attempt with an output does, rule by rule: an enabled monitor observes it, with a summary of at most
      16,384 characters; the output differs if the monitor is off, has seen nothing, or saw another digest; a quiet one
      that sees no difference shows a notice instead; and a delivery of at most 2,000 characters is recorded unless an
      enabled monitor sees no difference, the attempt raises, or its run has one. */
  lemma AttemptRules<D(!new)>(digest: string -> D, s: State<D>, o: Outcome)
    ensures var s' := Settled(digest, s, o);
            var differs := !o.policy.enabled || s.observation.None?
                           || s.observation.value.digest != digest(Trim(o.output));
            var records := o.recorded && differs
                           && forall i :: 0 <= i < |s.deliveries| ==> s.deliveries[i].task != o.task;
            && (!o.policy.enabled ==> s'.observation == s.observation)
            && (o.policy.enabled ==>
                  s'.observation.Some? && s'.observation.value.digest == digest(Trim(o.output))
                  && Begins(s'.observation.value.summary, o.output, 16_384))
            && (!records ==> s'.deliveries == s.deliveries)
            && (records ==>
                  |s'.deliveries| == |s.deliveries| + 1 && s.deliveries <= s'.deliveries
                  && s'.deliveries[|s.deliveries|].task == o.task
                  && Begins(s'.deliveries[|s.deliveries|].payload, o.output, 2_000))
  {
  }

  /** The notice is shown exactly by an enabled monitor that notifies on change only and sees none. */
  lemma NoticeRules<D(!new)>(digest: string -> D, was: Option<Observation<D>>, output: string, policy: Policy)
    ensures Changed(digest, was, output, policy) <==>
            !policy.enabled || was.None? || was.value.digest != digest(Trim(output))
    ensures QUIET == "No change detected."
  {
  }

  predicate DistinctTasks(outcomes: seq<Outcome>) {
    forall i, j :: 0 <= i < j < |outcomes| ==> outcomes[i].task != outcomes[j].task
  }

  lemma {:induction false} NewsTasks(outcomes: seq<Outcome>, task: nat)
    requires forall i :: 0 <= i < |outcomes| ==> outcomes[i].task != task
    ensures !HasDelivery(NewsOf(outcomes), task)
  {
    if outcomes != [] {
      NewsTasks(outcomes[..|outcomes| - 1], task);
    }
  }

  /** With one attempt for each run, an output is delivered if and only if it is news and its attempt
      did not raise. */
  lemma {:induction false} DeliveredOnce(outcomes: seq<Outcome>, i: nat)
    requires DistinctTasks(outcomes) && i < |outcomes|
    ensures HasDelivery(NewsOf(outcomes), outcomes[i].task) <==>
            News(outcomes[..i], outcomes[i]) && outcomes[i].recorded
  {
    var n := |outcomes| - 1;
    var last := if Delivers(outcomes[..n], outcomes[n])
      then [Delivery(outcomes[n].task, Clip(outcomes[n].output, DELIVERY_LIMIT))] else [];
    AppendedDelivery(NewsOf(outcomes[..n]), last, outcomes[i].task);
    if i < n {
      DeliveredOnce(outcomes[..n], i);
      assert outcomes[..n][..i] == outcomes[..i];
    } else {
      NewsTasks(outcomes[..n], outcomes[n].task);
    }
  }

  lemma AppendedDelivery(deliveries: seq<Delivery>, more: seq<Delivery>, task: nat)
    requires |more| <= 1
    ensures HasDelivery(deliveries + more, task)
            <==> HasDelivery(deliveries, task) || (more != [] && more[0].task == task)
  {
    if i :| 0 <= i < |deliveries| && deliveries[i].task == task { assert (deliveries + more)[i].task == task; }
    if more != [] { assert (deliveries + more)[|deliveries|] == more[0]; }
  }

  /** Why nothing may raise between observing and recording: the observation is already replaced, so
      the retries of the run find no change, and its output is never delivered. */
  lemma {:induction false} RetriesStaySilent(before: seq<Outcome>, o: Outcome, retries: seq<Outcome>)
    requires o.policy.enabled && !o.recorded
    requires forall i :: 0 <= i < |retries| ==> retries[i].policy.enabled && Trim(retries[i].output) == Trim(o.output)
    ensures NewsOf(before + [o] + retries) == NewsOf(before)
    ensures LastSeen(before + [o] + retries).Some? && Trim(LastSeen(before + [o] + retries).value) == Trim(o.output)
  {
    if retries == [] {
      assert before + [o] + [] == before + [o];
      OneMore(before, o);
    } else {
      var n := |retries| - 1;
      RetriesStaySilent(before, o, retries[..n]);
      assert before + [o] + retries == before + [o] + retries[..n] + [retries[n]];
      OneMore(before + [o] + retries[..n], retries[n]);
    }
  }

  lemma OneMore(before: seq<Outcome>, o: Outcome)
    ensures NewsOf(before + [o]) ==
            NewsOf(before) + if Delivers(before, o) then [Delivery(o.task, Clip(o.output, DELIVERY_LIMIT))] else []
    ensures LastSeen(before + [o]) == if o.policy.enabled then Some(o.output) else LastSeen(before)
  {
    assert (before + [o])[..|before|] == before;
  }
}
