/** Agents are created in two phases: a resource nothing refers to is staged, then the Node
    publishes its id. What each operation makes of the store, and where a crash may fall. */
module AgentLifecycle {
  import opened Wrappers
  import opened Text
  import opened JsonValues
  import opened Effects
  import opened ConfigStore

  /** What the operations are told by their surroundings and by schema defaults. */
  datatype Host = Host(
    hash: Hash, defaultWorkspace: string -> string, expand: string -> string, absolute: string -> bool,
    profiles: map<string, bool>, controls: Json, permissions: Json)

  datatype Request = Request(
    id: string, displayName: string, owner: string, privilege: string, profile: string,
    workspace: Option<string>, instruction: string)

  datatype LifecycleError =
    | NodeNotConfigured | AgentExists | ProfileNotFound | ProfileDisabled | WorkspaceNotAbsolute
    | WorkspaceUnavailable | AgentIdConflict | ImmutableAuthority | MustBeDisabled | Config(error: ConfigError)

  // ---- documents --------------------------------------------------------------------------------

  function Fields(doc: Json): map<string, Json> {
    if doc.Obj? then doc.fields else map[]
  }

  function Spec(doc: Json): map<string, Json> {
    if HasKey(doc, "spec") then Fields(doc.fields["spec"]) else map[]
  }

  function WithSpec(doc: Json, changes: map<string, Json>): Json {
    Obj(Fields(doc)["spec" := Obj(Spec(doc) + changes)])
  }

  function Texts(items: seq<Json>): seq<string> {
    if items == [] then [] else [if items[0].Str? then items[0].text else ""] + Texts(items[1..])
  }

  function EnabledAgents(node: Json): seq<string> {
    var f := SpecField(node, "enabledAgents");
    if f.Some? && f.value.Arr? then Texts(f.value.items) else []
  }

  function WithEnabled(node: Json, ids: seq<string>): Json {
    WithSpec(node, map["enabledAgents" := Arr(seq(|ids|, i requires 0 <= i < |ids| => Str(ids[i])))])
  }

  lemma {:induction false} TextsOfStrs(items: seq<Json>, ids: seq<string>)
    requires |items| == |ids| && forall i :: 0 <= i < |ids| ==> items[i] == Str(ids[i])
    ensures Texts(items) == ids
  {
    if ids != [] {
      TextsOfStrs(items[1..], ids[1..]);
      assert ids == [ids[0]] + ids[1..];
    }
  }

  /** Replacing the enabled ids changes them and nothing else in the Node document. */
  lemma EnabledReplaced(node: Json, ids: seq<string>, field: string)
    ensures EnabledAgents(WithEnabled(node, ids)) == ids
    ensures field != "enabledAgents" ==> SpecField(WithEnabled(node, ids), field) == SpecField(node, field)
  {
    TextsOfStrs(seq(|ids|, i requires 0 <= i < |ids| => Str(ids[i])), ids);
  }

  function Workspace(req: Request, host: Host): Result<string, LifecycleError> {
    if req.workspace.None? || Blank(req.workspace.value) then Ok(host.defaultWorkspace(req.id))
    else
      var resolved := host.expand(req.workspace.value);
      if host.absolute(resolved) then Ok(resolved) else Err(WorkspaceNotAbsolute)
  }

  function Candidate(req: Request, workspace: string, host: Host): Json {
    Obj(map[
      "apiVersion" := Str("openppx.io/v1alpha1"), "kind" := Str("AgentConfig"),
      "metadata" := Obj(map["name" := Str(req.id)]),
      "spec" := Obj(map[
        "displayName" := Str(req.displayName), "workspace" := Str(workspace), "instruction" := Str(req.instruction),
        "ownerPrincipalId" := Str(req.owner), "privilegeLevel" := Str(req.privilege),
        "controls" := host.controls, "permissions" := host.permissions,
        "modelPolicy" := Obj(map["defaultProfile" := Str(req.profile), "roleProfiles" := Obj(map[])])])])
  }

  lemma CandidateIsNamed(req: Request, workspace: string, host: Host)
    ensures MetadataName(Candidate(req, workspace, host)) == Some(req.id)
  {
    var doc := Candidate(req, workspace, host);
    var meta := doc.fields["metadata"];
    assert ["metadata", "name"][1..] == ["name"] && ["name"][1..] == [];
    assert Get(doc, ["metadata", "name"]) == Get(meta, ["name"]) == Get(meta.fields["name"], []);
  }

  /** The same document with another display name, instruction and default profile. */
  function Edited(doc: Json, displayName: string, instruction: string, profile: string): Json {
    var policy := if "modelPolicy" in Spec(doc) then Fields(Spec(doc)["modelPolicy"]) else map[];
    WithSpec(doc, map[
      "displayName" := Str(displayName), "instruction" := Str(instruction),
      "modelPolicy" := Obj(policy["defaultProfile" := Str(profile)])])
  }

  function ProfileError(profile: string, host: Host): Option<LifecycleError> {
    if profile !in host.profiles then Some(ProfileNotFound)
    else if !host.profiles[profile] then Some(ProfileDisabled)
    else None
  }

  // ---- operations -------------------------------------------------------------------------------

  /** An equal resource that is already there is taken over; another one is a conflict. */
  function StageAgent(st: Store, id: string, candidate: Json, host: Host): Result<Store, LifecycleError> {
    var current := OptionalAgent(st, id);
    if current.Err? then Err(Config(current.error))
    else if current.value.Some? then
      if host.hash(current.value.value) != host.hash(candidate) then Err(AgentIdConflict) else Ok(st)
    else
      var applied := AppliedAgent(st, id, candidate, None, host.hash);
      if applied.Err? then Err(Config(applied.error)) else Ok(applied.value)
  }

  /** Everything a creation does before it makes the workspace directory. */
  function Stage(st: Store, req: Request, host: Host): Result<Store, LifecycleError> {
    if st.node.None? then Err(NodeNotConfigured)
    else if req.id in EnabledAgents(st.node.value) then Err(AgentExists)
    else if ProfileError(req.profile, host).Some? then Err(ProfileError(req.profile, host).value)
    else if Workspace(req, host).Err? then Err(Workspace(req, host).error)
    else StageAgent(st, req.id, Candidate(req, Workspace(req, host).value, host), host)
  }

  /** The Node as it was read gets one more id. */
  function Publish(st: Store, node: Json, ids: seq<string>, host: Host): (Store, Option<LifecycleError>) {
    var applied := AppliedNode(st, WithEnabled(node, ids), Some(host.hash(node)), host.hash);
    if applied.Err? then (st, Some(Config(applied.error))) else (applied.value, None)
  }

  function Create(st: Store, req: Request, workspaceMade: bool, host: Host): (Store, Option<LifecycleError>) {
    var staged := Stage(st, req, host);
    if staged.Err? then (st, Some(staged.error))
    else if !workspaceMade then (staged.value, Some(WorkspaceUnavailable))
    else Publish(staged.value, st.node.value, EnabledAgents(st.node.value) + [req.id], host)
  }

  function Update(st: Store, id: string, displayName: string, workspace: Option<string>, privilege: Option<string>,
                  profile: string, instruction: string, expected: string, host: Host): (Store, Option<LifecycleError>) {
    var current := ReadAgent(st, id);
    if current.Err? then (st, Some(Config(current.error)))
    else if (workspace.Some? && Some(Str(workspace.value)) != SpecField(current.value, "workspace"))
         || (privilege.Some? && Some(Str(privilege.value)) != SpecField(current.value, "privilegeLevel")) then
      (st, Some(ImmutableAuthority))
    else if ProfileError(profile, host).Some? then (st, ProfileError(profile, host))
    else
      var applied := AppliedAgent(st, id, Edited(current.value, displayName, instruction, profile), Some(expected),
        host.hash);
      if applied.Err? then (st, Some(Config(applied.error)))
      else (applied.value, if st.node.None? then Some(NodeNotConfigured) else None)
  }

  function Without(ids: seq<string>, id: string): (r: seq<string>)
    ensures forall x :: x in r <==> x in ids && x != id
  {
    if ids == [] then [] else (if ids[0] != id then [ids[0]] else []) + Without(ids[1..], id)
  }

  function SetEnabled(st: Store, id: string, enabled: bool, host: Host): (Store, Option<LifecycleError>) {
    var agent := ReadAgent(st, id);
    if agent.Err? then (st, Some(Config(agent.error)))
    else if st.node.None? then (st, Some(NodeNotConfigured))
    else
      var current := EnabledAgents(st.node.value);
      if enabled == (id in current) then (st, None)
      else Publish(st, st.node.value, if enabled then current + [id] else Without(current, id), host)
  }

  /** What a deletion checks before it archives. */
  function DeleteCheck(st: Store, id: string): Option<LifecycleError> {
    var agent := ReadAgent(st, id);
    if agent.Err? then Some(Config(agent.error))
    else if st.node.None? then Some(NodeNotConfigured)
    else if id in EnabledAgents(st.node.value) then Some(MustBeDisabled)
    else None
  }

  function Archive(st: Store, id: string, expected: string, host: Host): (Store, Option<LifecycleError>) {
    var archived := ArchiveAgent(st, id, expected, host.hash);
    if archived.Err? then (st, Some(Config(archived.error))) else (archived.value, None)
  }

  function Delete(st: Store, id: string, expected: string, host: Host): (Store, Option<LifecycleError>) {
    if DeleteCheck(st, id).Some? then (st, DeleteCheck(st, id)) else Archive(st, id, expected, host)
  }
}
