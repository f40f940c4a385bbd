/** Node and Agent resources, their compare-and-swap writes, and the preview that precedes a write.
    A locked write is one step; a refused write changes nothing. */
module ConfigStore {
  import opened Wrappers
  import opened JsonValues
  import opened StructuralDiff
  import opened Effects

  /** `config_revision`. It is taken to be injective. */
  type Hash = Json -> string

  ghost predicate Injective(hash: Hash) {
    forall a, b :: hash(a) == hash(b) ==> a == b
  }

  datatype Store = Store(node: Option<Json>, agents: map<string, Json>, archive: map<(string, string), Json>)

  datatype ConfigError =
    | NotFound
    | NameMismatch
    | RevisionConflict(expected: Option<string>, actual: Option<string>)
    | ImmutableFields(fields: seq<string>)

  datatype Preview = Preview(changes: seq<Change>, effect: Effect)

  function MetadataName(doc: Json): Option<string> {
    var name := Get(doc, ["metadata", "name"]);
    if name.Some? && name.value.Str? then Some(name.value.text) else None
  }

  // ---- reading ----------------------------------------------------------------------------------

  function ReadAgent(st: Store, name: string): Result<Json, ConfigError> {
    if name !in st.agents then Err(NotFound)
    else if MetadataName(st.agents[name]) != Some(name) then Err(NameMismatch)
    else Ok(st.agents[name])
  }

  /** Only absence counts as nothing there; a damaged resource is an error. */
  function OptionalAgent(st: Store, name: string): Result<Option<Json>, ConfigError> {
    match ReadAgent(st, name)
    case Ok(doc) => Ok(Some(doc))
    case Err(NotFound) => Ok(None)
    case Err(e) => Err(e)
  }

  function RevisionOf(doc: Option<Json>, hash: Hash): Option<string> {
    if doc.Some? then Some(hash(doc.value)) else None
  }

  // ---- writing ----------------------------------------------------------------------------------

  function WriteNode(st: Store, doc: Json, expected: Option<string>, hash: Hash): Result<Store, ConfigError> {
    if RevisionOf(st.node, hash) != expected then Err(RevisionConflict(expected, RevisionOf(st.node, hash)))
    else Ok(st.(node := Some(doc)))
  }

  function WriteAgent(st: Store, name: string, doc: Json, expected: Option<string>,
                      hash: Hash): Result<Store, ConfigError> {
    if MetadataName(doc) != Some(name) then Err(NameMismatch) else
    var current := OptionalAgent(st, name);
    if current.Err? then Err(current.error)
    else if RevisionOf(current.value, hash) != expected
        then Err(RevisionConflict(expected, RevisionOf(current.value, hash)))
    else Ok(st.(agents := st.agents[name := doc]))
  }

  /** A removed Agent is kept under its name and revision. */
  function ArchiveAgent(st: Store, name: string, expected: string, hash: Hash): Result<Store, ConfigError> {
    var current := ReadAgent(st, name);
    if current.Err? then Err(current.error)
    else if hash(current.value) != expected then Err(RevisionConflict(Some(expected), Some(hash(current.value))))
    else Ok(st.(agents := st.agents - {name}, archive := st.archive[(name, expected) := current.value]))
  }

  // ---- previewing -------------------------------------------------------------------------------

  const AUTHORITY := ["ownerPrincipalId", "workspace", "privilegeLevel", "controls", "permissions"]

  predicate SameAuthority(a: Json, b: Json) {
    forall f :: f in AUTHORITY ==> SpecField(a, f) == SpecField(b, f)
  }

  function ChangedFields(a: Json, b: Json, fields: seq<string>): seq<string> {
    if fields == [] then []
    else
      var rest := ChangedFields(a, b, fields[1..]);
      if SpecField(a, fields[0]) != SpecField(b, fields[0]) then [fields[0]] + rest else rest
  }

  lemma {:induction false} ChangedFieldsAre(a: Json, b: Json, fields: seq<string>, f: string)
    ensures f in ChangedFields(a, b, fields) <==> f in fields && SpecField(a, f) != SpecField(b, f)
  {
    if fields != [] { ChangedFieldsAre(a, b, fields[1..], f); }
  }

  /** The preview passes the authority check exactly when no authority field differs. */
  lemma AuthorityCheck(a: Json, b: Json)
    ensures ChangedFields(a, b, AUTHORITY) == [] <==> SameAuthority(a, b)
  {
    if ChangedFields(a, b, AUTHORITY) == [] {
      forall f | f in AUTHORITY ensures SpecField(a, f) == SpecField(b, f) { ChangedFieldsAre(a, b, AUTHORITY, f); }
    } else {
      ChangedFieldsAre(a, b, AUTHORITY, ChangedFields(a, b, AUTHORITY)[0]);
    }
  }

  const NOTHING := Obj(map[])

  function Before(current: Option<Json>): Json {
    if current.Some? then current.value else NOTHING
  }

  function Conflict(current: Option<Json>, expected: Option<string>, hash: Hash): Option<ConfigError> {
    if RevisionOf(current, hash) != expected then Some(RevisionConflict(expected, RevisionOf(current, hash))) else None
  }

  function PreviewOf(kind: ResourceKind, candidate: Json, current: Option<Json>): Preview {
    var changes := Diff(Before(current), candidate, []);
    Preview(changes, Strongest(kind, changes))
  }

  /** Why a preview is refused: wrong name, damaged resource, changed authority, stale revision. */
  function AgentRefusal(st: Store, name: string, candidate: Json, expected: Option<string>,
                        hash: Hash): Option<ConfigError> {
    if MetadataName(candidate) != Some(name) then Some(NameMismatch) else
    var current := OptionalAgent(st, name);
    if current.Err? then Some(current.error)
    else if current.value.Some? && ChangedFields(current.value.value, candidate, AUTHORITY) != [] then
      Some(ImmutableFields(ChangedFields(current.value.value, candidate, AUTHORITY)))
    else Conflict(current.value, expected, hash)
  }

  function PreviewNode(st: Store, candidate: Json, expected: Option<string>, hash: Hash): Result<Preview, ConfigError> {
    if Conflict(st.node, expected, hash).Some? then Err(Conflict(st.node, expected, hash).value)
    else Ok(PreviewOf(NodeResource, candidate, st.node))
  }

  function PreviewAgent(st: Store, name: string, candidate: Json, expected: Option<string>,
                        hash: Hash): Result<Preview, ConfigError> {
    var refusal := AgentRefusal(st, name, candidate, expected, hash);
    if refusal.Some? then Err(refusal.value) else Ok(PreviewOf(AgentResource, candidate, OptionalAgent(st, name).value))
  }

  // ---- applying: a preview, then a write ----------------------------------------------------------

  function AppliedNode(st: Store, candidate: Json, expected: Option<string>, hash: Hash): Result<Store, ConfigError> {
    if Conflict(st.node, expected, hash).Some? then Err(Conflict(st.node, expected, hash).value)
    else WriteNode(st, candidate, expected, hash)
  }

  function AppliedAgent(st: Store, name: string, candidate: Json, expected: Option<string>,
                        hash: Hash): Result<Store, ConfigError> {
    var refusal := AgentRefusal(st, name, candidate, expected, hash);
    if refusal.Some? then Err(refusal.value) else WriteAgent(st, name, candidate, expected, hash)
  }
}
