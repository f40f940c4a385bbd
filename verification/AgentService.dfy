/** The Agent lifecycle service: ordered steps on the stored resources. */
module AgentService {
  import opened Wrappers
  import opened JsonValues
  import opened Effects
  import opened ConfigStore
  import ConfigFiles
  import A = AgentLifecycle
  import opened AgentLifecycle

  /** The ids a Node enables. */
  function EnabledAt(node: Option<Json>): seq<string> {
    if node.Some? then EnabledAgents(node.value) else []
  }

  class AgentLifecycleService {
    const config: ConfigFiles.ConfigService
    const host: Host

    constructor (config: ConfigFiles.ConfigService, host: Host)
      requires config.hash == host.hash
      ensures this.config == config && this.host == host
    {
      this.config := config;
      this.host := host;
    }

    method StageAgent(id: string, candidate: Json) returns (error: Option<LifecycleError>)
      requires config.hash == host.hash
      modifies config
      ensures match A.StageAgent(old(config.State()), id, candidate, host)
              case Ok(st) => error == None && config.State() == st
              case Err(e) => error == Some(e) && config.State() == old(config.State())
      ensures config.node == old(config.node) && config.archive == old(config.archive)
      ensures if error.None? && id !in old(config.agents) then config.agents == old(config.agents)[id := candidate]
              else config.agents == old(config.agents)
    {
      var current := config.OptionalCurrent(id);
      if current.Err? { return Some(Config(current.error)); }
      if current.value.Some? {
        if host.hash(current.value.value) != host.hash(candidate) { return Some(AgentIdConflict); }
        return None;
      }
      var applied := config.ApplyAgent(id, candidate, None);
      error := if applied.Err? then Some(Config(applied.error)) else None;
    }

    /** Up to and including the staging of the resource. */
    method Prepare(req: Request) returns (error: Option<LifecycleError>)
      requires config.hash == host.hash
      modifies config
      ensures match Stage(old(config.State()), req, host)
              case Ok(st) => error == None && config.State() == st
              case Err(e) => error == Some(e) && config.State() == old(config.State())
    {
      if config.node.None? { return Some(NodeNotConfigured); }
      if req.id in EnabledAgents(config.node.value) { return Some(AgentExists); }
      var profileError := ProfileError(req.profile, host);
      if profileError.Some? { return profileError; }
      var workspace := Workspace(req, host);
      if workspace.Err? { return Some(workspace.error); }
      error := StageAgent(req.id, Candidate(req, workspace.value, host));
    }

    /** `node` is the Node as it was read before. */
    method Publish(node: Json, enabledAgents: seq<string>) returns (error: Option<LifecycleError>)
      requires config.hash == host.hash
      modifies config
      ensures (config.State(), error) == A.Publish(old(config.State()), node, enabledAgents, host)
      ensures config.agents == old(config.agents) && config.archive == old(config.archive)
      ensures EnabledAt(config.node) == if error.None? then enabledAgents else EnabledAt(old(config.node))
      ensures error.None? <==> old(config.node).Some? && host.hash(old(config.node).value) == host.hash(node)
    {
      EnabledReplaced(node, enabledAgents, "");
      var published := config.ApplyNode(WithEnabled(node, enabledAgents), Some(host.hash(node)));
      error := if published.Err? then Some(Config(published.error)) else None;
    }

    method Create(req: Request, workspaceMade: bool) returns (error: Option<LifecycleError>)
      requires config.hash == host.hash
      modifies config
      ensures (config.State(), error) == A.Create(old(config.State()), req, workspaceMade, host)
      ensures config.archive == old(config.archive)
      ensures forall id :: id != req.id ==>
                (id in config.agents <==> id in old(config.agents))
                && (id in config.agents ==> config.agents[id] == old(config.agents)[id])
      ensures error.None? ==> workspaceMade && req.id in config.agents
      ensures EnabledAt(config.node) == EnabledAt(old(config.node)) + if error.None? then [req.id] else []
    {
      var node := config.node;
      error := Prepare(req);
      if error.Some? { return; }
      if !workspaceMade { return Some(WorkspaceUnavailable); }
      var enabledAgents := EnabledAgents(node.value) + [req.id];
      error := Publish(node.value, enabledAgents);
    }

    method Update(id: string, displayName: string, workspace: Option<string>, privilege: Option<string>,
                  profile: string, instruction: string, expected: string) returns (error: Option<LifecycleError>)
      requires config.hash == host.hash
      modifies config
      ensures (config.State(), error)
           == A.Update(old(config.State()), id, displayName, workspace, privilege, profile, instruction, expected, host)
      ensures config.node == old(config.node) && config.archive == old(config.archive)
      ensures config.agents == old(config.agents) ||
              (id in old(config.agents) && host.hash(old(config.agents)[id]) == expected && config.agents ==
                old(config.agents)[id := Edited(old(config.agents)[id], displayName, instruction, profile)])
    {
      var current := config.ReadAgent(id);
      if current.Err? { return Some(Config(current.error)); }
      var doc := current.value;
      if (workspace.Some? && Some(Str(workspace.value)) != SpecField(doc, "workspace"))
         || (privilege.Some? && Some(Str(privilege.value)) != SpecField(doc, "privilegeLevel")) {
        return Some(ImmutableAuthority);
      }
      error := ProfileError(profile, host);
      if error.Some? { return; }
      error := ApplyEdit(id, Edited(doc, displayName, instruction, profile), expected);
    }

    /** The answer also reports the Node, which is read only after the write. */
    method ApplyEdit(id: string, candidate: Json, expected: string) returns (error: Option<LifecycleError>)
      requires config.hash == host.hash
      modifies config
      ensures match AppliedAgent(old(config.State()), id, candidate, Some(expected), host.hash)
              case Ok(st) => config.State() == st && error == if st.node.None? then Some(NodeNotConfigured) else None
              case Err(e) => config.State() == old(config.State()) && error == Some(Config(e))
    {
      var applied := config.ApplyAgent(id, candidate, Some(expected));
      if applied.Err? { return Some(Config(applied.error)); }
      if config.node.None? { return Some(NodeNotConfigured); }
      error := None;
    }

    method SetEnabled(id: string, enabled: bool) returns (error: Option<LifecycleError>)
      requires config.hash == host.hash
      modifies config
      ensures (config.State(), error) == A.SetEnabled(old(config.State()), id, enabled, host)
      ensures config.agents == old(config.agents) && config.archive == old(config.archive)
      ensures error.None? ==> (id in EnabledAt(config.node) <==> enabled)
      ensures forall other :: other != id ==>
                (other in EnabledAt(config.node) <==> other in EnabledAt(old(config.node)))
      ensures error.None? <==>
              (id in old(config.agents) && MetadataName(old(config.agents)[id]) == Some(id) && old(config.node).Some?)
    {
      var agent := config.ReadAgent(id);
      if agent.Err? { return Some(Config(agent.error)); }
      if config.node.None? { return Some(NodeNotConfigured); }
      var node := config.node.value;
      var current := EnabledAgents(node);
      if enabled == (id in current) { return None; }
      var nextEnabled := if enabled then current + [id] else Without(current, id);
      error := Publish(node, nextEnabled);
    }

    method Delete(id: string, expected: string) returns (error: Option<LifecycleError>)
      requires config.hash == host.hash
      modifies config
      ensures (config.State(), error) == A.Delete(old(config.State()), id, expected, host)
      ensures config.node == old(config.node)
      ensures error.None? ==>
                && id !in EnabledAt(config.node) && id in old(config.agents)
                && config.agents == old(config.agents) - {id}
                && config.archive == old(config.archive)[(id, expected) := old(config.agents)[id]]
      ensures error.Some? ==> config.agents == old(config.agents) && config.archive == old(config.archive)
    {
      var agent := config.ReadAgent(id);
      if agent.Err? { return Some(Config(agent.error)); }
      if config.node.None? { return Some(NodeNotConfigured); }
      if id in EnabledAgents(config.node.value) { return Some(MustBeDisabled); }
      var failed := config.ArchiveAgent(id, expected);
      error := if failed.Some? then Some(Config(failed.value)) else None;
    }
  }
}
