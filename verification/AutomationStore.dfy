/** `AutomationStore`: the durable tables, updated in place. Every method is one transaction. */
module AutomationTables {
  import opened Wrappers
  import opened AutomationFacts
  import opened RunSets

  class AutomationStore {
    var definitions: map<AutomationId, Definition>
    var runs: seq<Run>
    var events: seq<Event>

    ghost function Facts(): Db
      reads this
    {
      Db(definitions, runs, events)
    }

    constructor ()
      ensures Facts() == EMPTY
    {
      definitions, runs, events := map[], [], [];
    }

    /** Returns the definition that already has this idempotency key, or creates one. */
    method CreateDefinition(auto: AutomationId, key: string, policy: Policy, confirmed: bool,
                            text: map<string, string>, nameTaken: bool)
      returns (r: Result<AutomationId, StoreError>)
      requires auto !in definitions
      modifies this
      ensures var op := StoreOp.CreateDefinition(auto, key, policy, confirmed, text, nameTaken);
              && Facts() == Apply(old(Facts()), op)
              && (r.Err? <==> Refusal(old(Facts()), op).Some?)
              && (r.Ok? ==> r.value in definitions && definitions[r.value].key == key)
    {
      if a :| a in definitions && definitions[a].key == key {
        return Ok(a);
      }
      if nameTaken {
        return Err(Conflict);
      }
      definitions := definitions[auto := Definition(key, Active, 1, policy, confirmed, Stripped(text), "")];
      events := events + [DefinitionCreated(auto)];
      return Ok(auto);
    }

    method UpdateDefinition(auto: AutomationId, expected: nat, edit: Edit, nameTaken: bool)
      returns (r: Result<Definition, StoreError>)
      modifies this
      ensures var op := StoreOp.UpdateDefinition(auto, expected, edit, nameTaken);
              && Facts() == Apply(old(Facts()), op)
              && (r.Err? ==> Refusal(old(Facts()), op) == Some(r.error))
              && (r.Ok? ==> Refusal(old(Facts()), op).None? && auto in definitions && r.value == definitions[auto])
    {
      if auto !in definitions { return Err(NotFound); }
      var current := definitions[auto];
      if current.status == Deleted { return Err(InvalidState); }
      if current.revision != expected { return Err(Conflict); }
      var updates := EditedFields(edit);
      if updates != {} {
        if nameTaken && "name" in updates { return Err(Conflict); }
        definitions := definitions[auto := Edited(current, edit)];
      } else {
        assert Edited(current, edit) == current by {
          assert AllowedText(edit) == map[];
        }
        assert definitions[auto := current] == definitions;
      }
      events := events + [DefinitionUpdated(auto, updates)];
      return Ok(definitions[auto]);
    }

    method SetStatus(auto: AutomationId, status: DefinitionStatus, expected: nat)
      returns (r: Result<Definition, StoreError>)
      modifies this
      ensures var op := StoreOp.SetStatus(auto, status, expected);
              && Facts() == Apply(old(Facts()), op)
              && (r.Err? ==> Refusal(old(Facts()), op) == Some(r.error))
              && (r.Ok? ==> Refusal(old(Facts()), op).None? && auto in definitions && r.value == definitions[auto])
    {
      if auto !in definitions { return Err(NotFound); }
      var current := definitions[auto];
      if current.revision != expected { return Err(Conflict); }
      if current.status == Deleted { return Err(InvalidState); }
      definitions := definitions[auto := current.(status := status, revision := current.revision + 1)];
      events := events + [DefinitionStatus(auto, status)];
      return Ok(definitions[auto]);
    }

    /** The run of an occurrence, if there is one. */
    method RunForOccurrence(auto: AutomationId, occurrence: string) returns (r: Option<RunId>)
      ensures r.Some? ==> IsOccurrence(Facts(), auto, occurrence, r.value)
      ensures r.None? ==> !HasOccurrence(Facts(), auto, occurrence)
    {
      for i := 0 to |runs|
        invariant forall k: RunId :: k < i ==> !IsOccurrence(Facts(), auto, occurrence, k)
      {
        if runs[i].auto == auto && runs[i].occurrence == occurrence {
          return Some(i);
        }
      }
      return None;
    }

    /** One run per occurrence: a repeated call gets the run of the first. */
    method CreateRun(auto: AutomationId, occurrence: string, revision: nat, now: int)
      returns (r: Result<(RunId, bool), StoreError>)
      modifies this`runs, this`events
      ensures var op := StoreOp.CreateRun(auto, occurrence, revision, now);
              && Facts() == Apply(old(Facts()), op)
              && (r.Err? <==> auto !in definitions)
              && (r.Ok? ==> IsOccurrence(Facts(), auto, occurrence, r.value.0))
              && (r.Ok? ==> (r.value.1 <==> !HasOccurrence(old(Facts()), auto, occurrence)))
              && (r.Ok? && r.value.1 ==> r.value.0 == |old(runs)|)
    {
      if auto !in definitions { return Err(NotFound); }
      var existing := RunForOccurrence(auto, occurrence);
      if existing.Some? {
        return Ok((existing.value, false));
      }
      runs := runs + [Run(auto, occurrence, Queued, now, revision)];
      events := events + [RunEvent(auto, |runs| - 1, Queued)];
      return Ok((|runs| - 1, true));
    }

    /** A settled run is returned as it is; an unknown one is an error. */
    method UpdateRun(run: RunId, status: RunStatus) returns (r: Result<Run, StoreError>)
      modifies this`runs, this`events
      ensures Facts() == if run < |old(runs)| then WithRunStatus(old(Facts()), run, status) else old(Facts())
      ensures r == if run < |runs| then Ok(runs[run]) else Err(NotFound)
    {
      if run >= |runs| { return Err(NotFound); }
      if !Terminal(runs[run].status) {
        runs := runs[run := runs[run].(status := status)];
        events := events + [RunEvent(runs[run].auto, run, status)];
      }
      return Ok(runs[run]);
    }

    /** Counts the runs of one Automation whose status is among some. */
    method CountRuns(auto: AutomationId, statuses: set<RunStatus>) returns (n: nat)
      ensures n == |RunsAmong(Facts(), auto, statuses)|
    {
      n := 0;
      ghost var seen: set<RunId> := {};
      for i := 0 to |runs|
        invariant seen == set r: RunId | r < i && runs[r].auto == auto && runs[r].status in statuses
        invariant n == |seen|
      {
        if runs[i].auto == auto && runs[i].status in statuses {
          n := n + 1;
          seen := seen + {i};
        }
      }
      assert seen == RunsAmong(Facts(), auto, statuses);
    }

    method ActiveRunCount(auto: AutomationId) returns (n: nat)
      ensures n == |ActiveRuns(Facts(), auto)|
    {
      n := CountRuns(auto, {Queued, Running});
      assert RunsAmong(Facts(), auto, {Queued, Running}) == ActiveRuns(Facts(), auto);
    }

    method RunningRunCount(auto: AutomationId) returns (n: nat)
      ensures n == |RunningRuns(Facts(), auto)|
    {
      n := CountRuns(auto, {Running});
      assert RunsAmong(Facts(), auto, {Running}) == RunningRuns(Facts(), auto);
    }

    /** The given runs, oldest first, by repeated selection. */
    method SelectByAge(ids: set<RunId>) returns (s: seq<RunId>)
      requires Exist(Facts(), ids)
      ensures s == ByAge(Facts(), ids)
    {
      s := [];
      var rest := ids;
      while rest != {}
        invariant rest <= ids
        invariant s + ByAge(Facts(), rest) == ByAge(Facts(), ids)
        decreases rest
      {
        var x := OldestOf(rest);
        s := s + [x];
        rest := rest - {x};
      }
    }

    method OldestOf(ids: set<RunId>) returns (x: RunId)
      requires ids != {} && Exist(Facts(), ids)
      ensures x == Oldest(Facts(), ids)
    {
      x :| x in ids;
      var rest := ids - {x};
      while rest != {}
        invariant rest <= ids && x in ids
        invariant forall y :: y in ids - rest ==> NotAfter(Facts(), x, y)
        decreases rest
      {
        var y :| y in rest;
        ghost var was := x;
        if runs[y].createdAt < runs[x].createdAt || (runs[y].createdAt == runs[x].createdAt && y < x) {
          x := y;
        }
        forall z | z in ids - rest ensures NotAfter(Facts(), x, z) {
          NotAfterChain(Facts(), x, was, z);
        }
        rest := rest - {y};
      }
      assert NotAfter(Facts(), x, Oldest(Facts(), ids)) && NotAfter(Facts(), Oldest(Facts(), ids), x);
    }

    /** The oldest queued runs of one Automation, at least one and at most 100 of them. */
    method QueuedRunsOf(auto: AutomationId, limit: int) returns (s: seq<RunId>)
      ensures s == FirstOf(ByAge(Facts(), QueuedRuns(Facts(), auto)), Clamped(limit, 100))
    {
      var all := SelectByAge(QueuedRuns(Db(definitions, runs, events), auto));
      s := FirstOf(all, Clamped(limit, 100));
    }

    /** The oldest queued and running runs, at least one and at most 10,000 of them. */
    method ListIncompleteRuns(limit: int) returns (s: seq<RunId>)
      ensures s == FirstOf(ByAge(Facts(), Incomplete(Facts())), Clamped(limit, 10_000))
    {
      var all := SelectByAge(Incomplete(Db(definitions, runs, events)));
      s := FirstOf(all, Clamped(limit, 10_000));
    }
  }

  /** `max(1, min(limit, most))`. */
  function Clamped(limit: int, most: nat): nat {
    if most <= limit then (if most < 1 then 1 else most) else if limit < 1 then 1 else limit
  }
}
