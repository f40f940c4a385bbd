/** What each store call does to the rows, column by column. */
module AutomationRows {
  import opened Wrappers
  import opened Text
  import opened AutomationFacts
  import opened RunSets

  /** Everything but one definition is as it was. */
  predicate OnlyDefinition(db: Db, db': Db, auto: AutomationId) {
    && db'.runs == db.runs && db.defs.Keys <= db'.defs.Keys <= db.defs.Keys + {auto}
    && forall a :: a in db.defs && a != auto ==> db'.defs[a] == db.defs[a]
  }

  /** A creation is answered with the definition that has its idempotency key, refused for a taken name, or adds an
      active definition of revision 1, without a job, that has every column as given; name,
      description and instructions are stripped. */
  lemma Creation(db: Db, auto: AutomationId, key: string, policy: Policy, confirmed: bool, text: map<string, string>,
                 nameTaken: bool)
    requires auto !in db.defs
    ensures var op := StoreOp.CreateDefinition(auto, key, policy, confirmed, text, nameTaken);
            var db', known := Apply(db, op), exists a :: a in db.defs && db.defs[a].key == key;
            && (Refusal(db, op) == if !known && nameTaken then Some(Conflict) else None)
            && (known || nameTaken ==> db' == db)
            && (!known && !nameTaken ==>
                  && OnlyDefinition(db, db', auto) && auto in db'.defs
                  && db'.defs[auto].key == key && db'.defs[auto].status == Active && db'.defs[auto].revision == 1
                  && db'.defs[auto].policy == policy && db'.defs[auto].confirmed == confirmed
                  && db'.defs[auto].text.Keys == text.Keys && db'.defs[auto].jobId == ""
                  && (forall c :: c in text ==>
                        db'.defs[auto].text[c] == if c == "name" || c == "description" || c == "instructions"
                                                  then Trim(text[c]) else text[c])
                  && db'.log == db.log + [DefinitionCreated(auto)])
  {
  }

  /** The columns an update may write, besides those that are kept apart here. */
  predicate IsTextColumn(column: string) {
    || column == "name" || column == "description" || column == "instructions"
    || column == "output_requirements_json" || column == "agent_id" || column == "workspace_ref"
    || column == "context_mode" || column == "model_profile_ref" || column == "extension_policy_json"
    || column == "delivery_policy_json" || column == "missed_run_policy_json" || column == "retry_policy_json"
    || column == "budget_policy_json" || column == "monitor_policy_json"
  }

  /** The columns that an edit writes. */
  ghost predicate Writes(edit: Edit, column: string) {
    || (column in edit.text && IsTextColumn(column))
    || (column == "concurrency_policy_json" && edit.policy.Some?)
    || (column == "permission_policy_json" && edit.confirmed.Some?)
    || (column == "scheduler_job_id" && edit.jobId.Some?)
  }

  lemma WritesExactly(edit: Edit, column: string)
    ensures column in EditedFields(edit) <==> Writes(edit, column)
  {
  }

  /** An update is refused for a missing definition, then for a deleted one, then for a stale revision, then for a
      taken name, and then changes nothing. */
  lemma UpdateRefused(db: Db, auto: AutomationId, expected: nat, edit: Edit, nameTaken: bool)
    ensures var op := StoreOp.UpdateDefinition(auto, expected, edit, nameTaken);
            && (Refusal(db, op) ==
                  if auto !in db.defs then Some(NotFound)
                  else if db.defs[auto].status == Deleted then Some(InvalidState)
                  else if db.defs[auto].revision != expected || (nameTaken && "name" in edit.text) then Some(Conflict)
                  else None)
            && (Refusal(db, op).Some? ==> Apply(db, op) == db)
  {
    WritesExactly(edit, "name");
  }

  /** Otherwise every column it writes has the new value and every other one the old; key and status stay, and the
      revision rises by one exactly if some column is written. The log gets the names. */
  lemma Update(db: Db, auto: AutomationId, expected: nat, edit: Edit, nameTaken: bool, column: string)
    requires Refusal(db, StoreOp.UpdateDefinition(auto, expected, edit, nameTaken)).None?
    ensures var db' := Apply(db, StoreOp.UpdateDefinition(auto, expected, edit, nameTaken));
            && auto in db.defs && auto in db'.defs && OnlyDefinition(db, db', auto)
            && TextWritten(db.defs[auto], db'.defs[auto], edit, column)
            && var d, d' := db.defs[auto], db'.defs[auto];
            && d'.policy == (match edit.policy case Some(p) => p case None => d.policy)
            && d'.confirmed == (match edit.confirmed case Some(c) => c case None => d.confirmed)
            && d'.jobId == (match edit.jobId case Some(j) => j case None => d.jobId)
            && d'.key == d.key && d'.status == d.status
            && d'.revision == d.revision + (if exists c :: Writes(edit, c) then 1 else 0)
  {
    SomeIsWritten(edit);
    assert column in AllowedText(edit) <==> column in edit.text && IsTextColumn(column);
  }

  /** A text column after an edit. */
  ghost predicate TextWritten(d: Definition, d': Definition, edit: Edit, column: string) {
    if column in edit.text && IsTextColumn(column) then column in d'.text && d'.text[column] == edit.text[column]
    else (column in d'.text <==> column in d.text) && (column in d.text ==> d'.text[column] == d.text[column])
  }

  lemma UpdateLogged(db: Db, auto: AutomationId, expected: nat, edit: Edit, nameTaken: bool)
    requires Refusal(db, StoreOp.UpdateDefinition(auto, expected, edit, nameTaken)).None?
    ensures exists fields :: Apply(db, StoreOp.UpdateDefinition(auto, expected, edit, nameTaken)).log ==
                             db.log + [DefinitionUpdated(auto, fields)]
                             && forall c :: c in fields <==> Writes(edit, c)
  {
    forall c ensures c in EditedFields(edit) <==> Writes(edit, c) { WritesExactly(edit, c); }
    assert Apply(db, StoreOp.UpdateDefinition(auto, expected, edit, nameTaken)).log ==
      db.log + [DefinitionUpdated(auto, EditedFields(edit))];
  }

  lemma SomeIsWritten(edit: Edit)
    ensures EditedFields(edit) != {} <==> exists c :: Writes(edit, c)
  {
    if c :| c in EditedFields(edit) { WritesExactly(edit, c); }
    if c :| Writes(edit, c) { WritesExactly(edit, c); }
  }

  /** A transition is refused for a missing definition, then for a stale revision, then for a deleted one. Otherwise
      the status is the new one, the revision one more, and every column stays. */
  lemma Transition(db: Db, auto: AutomationId, status: DefinitionStatus, expected: nat)
    ensures var op := StoreOp.SetStatus(auto, status, expected);
            && (Refusal(db, op) ==
                  if auto !in db.defs then Some(NotFound)
                  else if db.defs[auto].revision != expected then Some(Conflict)
                  else if db.defs[auto].status == Deleted then Some(InvalidState)
                  else None)
            && (Refusal(db, op).Some? ==> Apply(db, op) == db)
            && (Refusal(db, op).None? ==>
                  && var db' := Apply(db, op);
                  && auto in db'.defs && OnlyDefinition(db, db', auto)
                  && db'.log == db.log + [DefinitionStatus(auto, status)]
                  && var d, d' := db.defs[auto], db'.defs[auto];
                  && d'.status == status && d'.revision == d.revision + 1 && d'.key == d.key
                  && d'.policy == d.policy && d'.confirmed == d.confirmed && d'.text == d.text && d'.jobId == d.jobId)
  {
  }

  /** The job reference changes alone: no revision, no event. */
  lemma JobReference(db: Db, auto: AutomationId, jobId: string)
    ensures var op := StoreOp.SetJobId(auto, jobId);
            && (Refusal(db, op) == if auto in db.defs then None else Some(NotFound))
            && (auto !in db.defs ==> Apply(db, op) == db)
            && (auto in db.defs ==>
                  && var db' := Apply(db, op);
                  && auto in db'.defs && OnlyDefinition(db, db', auto) && db'.log == db.log
                  && var d, d' := db.defs[auto], db'.defs[auto];
                  && d'.jobId == jobId && d'.status == d.status && d'.revision == d.revision && d'.key == d.key
                  && d'.policy == d.policy && d'.confirmed == d.confirmed && d'.text == d.text)
  {
  }

  /** A new occurrence of a known Automation gets a queued run; nothing else changes. */
  lemma RunCreation(db: Db, auto: AutomationId, occurrence: string, revision: nat, now: int)
    ensures var op := StoreOp.CreateRun(auto, occurrence, revision, now);
            var db', n := Apply(db, op), |db.runs|;
            var known := exists r :: 0 <= r < n && db.runs[r].auto == auto && db.runs[r].occurrence == occurrence;
            && (Refusal(db, op) == if auto in db.defs then None else Some(NotFound)) && db'.defs == db.defs
            && (known || auto !in db.defs ==> db' == db)
            && (!known && auto in db.defs ==>
                  && |db'.runs| == n + 1 && (forall r :: 0 <= r < n ==> db'.runs[r] == db.runs[r])
                  && db'.runs[n].auto == auto && db'.runs[n].occurrence == occurrence && db'.runs[n].status == Queued
                  && db'.runs[n].createdAt == now && db'.runs[n].revision == revision
                  && db'.log == db.log + [RunEvent(auto, n, Queued)])
  {
    assert HasOccurrence(db, auto, occurrence) <==>
      exists r :: 0 <= r < |db.runs| && db.runs[r].auto == auto && db.runs[r].occurrence == occurrence by {
      if HasOccurrence(db, auto, occurrence) {
        var r: RunId :| IsOccurrence(db, auto, occurrence, r);
        assert db.runs[r].auto == auto;
      }
      if r :| 0 <= r < |db.runs| && db.runs[r].auto == auto && db.runs[r].occurrence == occurrence {
        assert IsOccurrence(db, auto, occurrence, r);
      }
    }
  }

  /** A queued or running run gets the new status and nothing else, with an event; a settled one stays as it is. */
  lemma RunUpdate(db: Db, run: RunId, status: RunStatus)
    requires run < |db.runs|
    ensures var db' := WithRunStatus(db, run, status);
            && db'.defs == db.defs && |db'.runs| == |db.runs|
            && (forall r: RunId :: r < |db.runs| && r != run ==> db'.runs[r] == db.runs[r])
            && if db.runs[run].status == Queued || db.runs[run].status == Running then
                 && db'.runs[run].status == status && db'.runs[run].auto == db.runs[run].auto
                 && db'.runs[run].occurrence == db.runs[run].occurrence
                 && db'.runs[run].createdAt == db.runs[run].createdAt
                 && db'.runs[run].revision == db.runs[run].revision
                 && db'.log == db.log + [RunEvent(db.runs[run].auto, run, status)]
               else db' == db
  {
  }

  // ---- queries ----------------------------------------------------------------------------------------

  /** What counts as active and as running, and what is incomplete. */
  lemma Queries(db: Db, auto: AutomationId, r: RunId)
    ensures r in ActiveRuns(db, auto) <==>
            r < |db.runs| && db.runs[r].auto == auto && (db.runs[r].status == Queued || db.runs[r].status == Running)
    ensures r in RunningRuns(db, auto) <==> r < |db.runs| && db.runs[r].auto == auto && db.runs[r].status == Running
    ensures r in QueuedRuns(db, auto) <==> r < |db.runs| && db.runs[r].auto == auto && db.runs[r].status == Queued
    ensures r in Incomplete(db) <==> r < |db.runs| && (db.runs[r].status == Queued || db.runs[r].status == Running)
  {
  }

  /** A query for the oldest gives as many as it may, in the order of their creation, and none that it leaves out
      was created before one that it gives. */
  lemma OldestFirst(db: Db, ids: set<RunId>, limit: nat, i: nat, r: RunId)
    requires (forall x :: x in ids ==> x < |db.runs|) && r in ids
    requires i < |FirstOf(ByAge(db, ids), limit)|
    ensures var s := FirstOf(ByAge(db, ids), limit);
            && |s| == (if limit < |ids| then limit else |ids|) && s[i] in ids
            && (r !in s ==> db.runs[s[i]].createdAt <= db.runs[r].createdAt)
            && (forall j :: i < j < |s| ==> s[i] != s[j] && s[j] in ids && NoLater(db, s[i], s[j]))
  {
    var all := ByAge(db, ids);
    ByAgeSorted(db, ids);
    assert all[i] in all && r in all;
    FirstOfSorted(db, all, limit, i, r);
    forall j | i < j < |FirstOf(all, limit)| ensures all[j] in ids { assert all[j] in all; }
  }

  predicate NoLater(db: Db, x: RunId, y: RunId) {
    x < |db.runs| && y < |db.runs| && db.runs[x].createdAt <= db.runs[y].createdAt
  }

  lemma FirstOfSorted(db: Db, all: seq<RunId>, limit: nat, i: nat, r: RunId)
    requires Distinct(all) && InAgeOrder(db, all) && r in all && i < |FirstOf(all, limit)|
    ensures var s := FirstOf(all, limit);
            && s[i] == all[i] && (r !in s ==> NoLater(db, s[i], r))
            && (forall j :: i < j < |s| ==> s[j] == all[j] && s[i] != s[j] && NoLater(db, s[i], s[j]))
  {
    var s := FirstOf(all, limit);
    if r !in s {
      var k :| 0 <= k < |all| && all[k] == r;
      assert forall j :: 0 <= j < |s| ==> s[j] == all[j] && s[j] in s;
      assert k >= |s| > i;
      assert NotAfter(db, all[i], all[k]);
    }
    forall j | i < j < |s| ensures NoLater(db, s[i], s[j]) { assert NotAfter(db, all[i], all[j]); }
  }
}
