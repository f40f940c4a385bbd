/** The rows the Automation database keeps, and what each store call makes of them.
    A store call is one atomic step: it runs under the store lock in one transaction, so a
    refused call leaves every row and the event log as they were. */
module AutomationFacts {
  import opened Wrappers
  import opened Text

  type AutomationId = string

  /** Runs are numbered in the order in which they were inserted. */
  type RunId = nat

  datatype DefinitionStatus = Active | Paused | Blocked | Deleted

  datatype RunStatus = Queued | Running | Completed | Failed | Cancelled | Skipped | RunBlocked

  predicate Terminal(status: RunStatus) {
    status != Queued && status != Running
  }

  datatype Mode = Skip | QueueOne | ParallelWithLimit

  datatype Policy = Policy(mode: Mode, limit: int)

  datatype Definition = Definition(
    key: string, status: DefinitionStatus, revision: nat, policy: Policy,
    confirmed: bool, text: map<string, string>, jobId: string)

  datatype Run = Run(auto: AutomationId, occurrence: string, status: RunStatus, createdAt: int, revision: nat)

  datatype Event =
    | DefinitionCreated(auto: AutomationId)
    | DefinitionUpdated(auto: AutomationId, fields: set<string>)
    | DefinitionStatus(auto: AutomationId, status: DefinitionStatus)
    | RunEvent(auto: AutomationId, run: RunId, runStatus: RunStatus)

  datatype Db = Db(defs: map<AutomationId, Definition>, runs: seq<Run>, log: seq<Event>)

  const EMPTY := Db(map[], [], [])

  datatype StoreError = NotFound | Conflict | InvalidState

  /** The columns of a definition update. An absent value leaves its column alone. */
  datatype Edit = Edit(policy: Option<Policy>, confirmed: Option<bool>, jobId: Option<string>,
    text: map<string, string>)

  const TEXT_COLUMNS := {
    "name", "description", "instructions", "output_requirements_json", "agent_id", "workspace_ref",
    "context_mode", "model_profile_ref", "extension_policy_json", "delivery_policy_json",
    "missed_run_policy_json", "retry_policy_json", "budget_policy_json", "monitor_policy_json"
  }

  function AllowedText(edit: Edit): map<string, string> {
    map k | k in edit.text && k in TEXT_COLUMNS :: edit.text[k]
  }

  /** Names of the columns an edit really writes. */
  function EditedFields(edit: Edit): set<string> {
    (if edit.policy.Some? then {"concurrency_policy_json"} else {}) +
    (if edit.confirmed.Some? then {"permission_policy_json"} else {}) +
    (if edit.jobId.Some? then {"scheduler_job_id"} else {}) +
    AllowedText(edit).Keys
  }

  function Edited(d: Definition, edit: Edit): Definition {
    d.(policy := if edit.policy.Some? then edit.policy.value else d.policy,
       confirmed := if edit.confirmed.Some? then edit.confirmed.value else d.confirmed,
       jobId := if edit.jobId.Some? then edit.jobId.value else d.jobId,
       text := d.text + AllowedText(edit),
       revision := if EditedFields(edit) == {} then d.revision else d.revision + 1)
  }

  /** A creation strips the three columns that are prose. */
  function Stripped(text: map<string, string>): map<string, string> {
    map k | k in text :: if k in {"name", "description", "instructions"} then Trim(text[k]) else text[k]
  }

  /** One store call. `nameTaken` says that the unique index on visible names would refuse it. */
  datatype StoreOp =
    | CreateDefinition(auto: AutomationId, key: string, policy: Policy, confirmed: bool,
                       text: map<string, string>, nameTaken: bool)
    | UpdateDefinition(auto: AutomationId, expected: nat, edit: Edit, nameTaken: bool)
    | SetStatus(auto: AutomationId, status: DefinitionStatus, expected: nat)
    | SetJobId(auto: AutomationId, jobId: string)
    | CreateRun(auto: AutomationId, occurrence: string, revision: nat, now: int)
    | UpdateRun(run: RunId, runStatus: RunStatus)

  predicate KeyUsed(db: Db, key: string) {
    exists a :: a in db.defs && db.defs[a].key == key
  }

  ghost predicate IsOccurrence(db: Db, auto: AutomationId, occurrence: string, r: RunId) {
    r < |db.runs| && db.runs[r].auto == auto && db.runs[r].occurrence == occurrence
  }

  ghost predicate HasOccurrence(db: Db, auto: AutomationId, occurrence: string) {
    exists r :: IsOccurrence(db, auto, occurrence, r)
  }

  ghost predicate UniqueOccurrences(db: Db) {
    forall r, q | 0 <= r < |db.runs| && 0 <= q < |db.runs| ::
      (db.runs[r].auto == db.runs[q].auto && db.runs[r].occurrence == db.runs[q].occurrence) ==> r == q
  }

  /** Why a call is refused. An already used idempotency key or occurrence is not an error:
      the call then returns the existing row. */
  ghost function Refusal(db: Db, op: StoreOp): Option<StoreError> {
    match op
    case CreateDefinition(_, key, _, _, _, nameTaken) =>
      if !KeyUsed(db, key) && nameTaken then Some(Conflict) else None
    case UpdateDefinition(auto, expected, edit, nameTaken) =>
      if auto !in db.defs then Some(NotFound)
      else if db.defs[auto].status == Deleted then Some(InvalidState)
      else if db.defs[auto].revision != expected then Some(Conflict)
      else if nameTaken && "name" in EditedFields(edit) then Some(Conflict)
      else None
    case SetStatus(auto, _, expected) =>
      if auto !in db.defs then Some(NotFound)
      else if db.defs[auto].revision != expected then Some(Conflict)
      else if db.defs[auto].status == Deleted then Some(InvalidState)
      else None
    case SetJobId(auto, _) => if auto !in db.defs then Some(NotFound) else None
    case CreateRun(auto, _, _, _) => if auto !in db.defs then Some(NotFound) else None
    case UpdateRun(run, _) => if run >= |db.runs| then Some(NotFound) else None
  }

  function WithStatus(db: Db, auto: AutomationId, status: DefinitionStatus): Db
    requires auto in db.defs
  {
    var d := db.defs[auto];
    db.(defs := db.defs[auto := d.(status := status, revision := d.revision + 1)],
        log := db.log + [DefinitionStatus(auto, status)])
  }

  function WithRun(db: Db, auto: AutomationId, occurrence: string, revision: nat, now: int): Db {
    db.(runs := db.runs + [Run(auto, occurrence, Queued, now, revision)],
        log := db.log + [RunEvent(auto, |db.runs|, Queued)])
  }

  /** `update_run`: a terminal run is returned untouched, without an event. */
  function WithRunStatus(db: Db, run: RunId, status: RunStatus): Db
    requires run < |db.runs|
  {
    if Terminal(db.runs[run].status) then db
    else db.(runs := db.runs[run := db.runs[run].(status := status)],
             log := db.log + [RunEvent(db.runs[run].auto, run, status)])
  }

  /** The rows after a store call. */
  ghost function Apply(db: Db, op: StoreOp): Db {
    if Refusal(db, op).Some? then db else
    match op
    case CreateDefinition(auto, key, policy, confirmed, text, _) =>
      if KeyUsed(db, key) || auto in db.defs then db
      else db.(defs := db.defs[auto := Definition(key, Active, 1, policy, confirmed, Stripped(text), "")],
               log := db.log + [DefinitionCreated(auto)])
    case UpdateDefinition(auto, _, edit, _) =>
      db.(defs := db.defs[auto := Edited(db.defs[auto], edit)],
          log := db.log + [DefinitionUpdated(auto, EditedFields(edit))])
    case SetStatus(auto, status, _) => WithStatus(db, auto, status)
    case SetJobId(auto, jobId) => db.(defs := db.defs[auto := db.defs[auto].(jobId := jobId)])
    case CreateRun(auto, occurrence, revision, now) =>
      if HasOccurrence(db, auto, occurrence) then db else WithRun(db, auto, occurrence, revision, now)
    case UpdateRun(run, status) => WithRunStatus(db, run, status)
  }

  ghost function ApplyAll(db: Db, ops: seq<StoreOp>): Db {
    if ops == [] then db else Apply(ApplyAll(db, ops[..|ops| - 1]), ops[|ops| - 1])
  }
}
