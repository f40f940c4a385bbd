/** What the Agent operations answer, and what the stored documents say afterwards, field by field. */
module AgentOutcomes {
  import opened Wrappers
  import opened Text
  import opened JsonValues
  import opened Effects
  import opened ConfigStore
  import opened AgentLifecycle
  import opened AgentRuns

  // ---- creation -------------------------------------------------------------------------------------------

  predicate IsEnabled(st: Store, id: string) {
    st.node.Some? && id in EnabledAgents(st.node.value)
  }

  /** The workspace a creation asks for, if there is one. */
  function AskedWorkspace(req: Request): Option<string> {
    if req.workspace.Some? && Trim(req.workspace.value) != "" then req.workspace else None
  }

  lemma WorkspaceIs(req: Request, host: Host)
    ensures Workspace(req, host) ==
            match AskedWorkspace(req)
            case None => Ok(host.defaultWorkspace(req.id))
            case Some(path) =>
              if host.absolute(host.expand(path)) then Ok(host.expand(path)) else Err(WorkspaceNotAbsolute)
  {
    if req.workspace.Some? { var lo, hi := TrimCuts(req.workspace.value); }
  }

  predicate FromChecks(error: Option<LifecycleError>) {
    || error == Some(NodeNotConfigured) || error == Some(AgentExists) || error == Some(ProfileNotFound)
    || error == Some(ProfileDisabled) || error == Some(WorkspaceNotAbsolute)
  }

  /** The answers of a creation that gets no further than its checks, in their order; it changes nothing then. */
  lemma CreateRefused(st: Store, req: Request, made: bool, host: Host)
    ensures var refusal :=
              if st.node.None? then Some(NodeNotConfigured)
              else if IsEnabled(st, req.id) then Some(AgentExists)
              else if req.profile !in host.profiles then Some(ProfileNotFound)
              else if !host.profiles[req.profile] then Some(ProfileDisabled)
              else if AskedWorkspace(req).Some? && !host.absolute(host.expand(AskedWorkspace(req).value))
                   then Some(WorkspaceNotAbsolute)
              else None;
            && (refusal.Some? ==> Create(st, req, made, host) == (st, refusal))
            && (refusal.None? ==> !FromChecks(Create(st, req, made, host).1))
  {
    WorkspaceIs(req, host);
  }

  /** The document of a new Agent says what was asked for, each in its own field, and nothing else. */
  predicate SaysWhatWasAsked(doc: Json, req: Request, host: Host) {
    && MetadataName(doc) == Some(req.id)
    && SpecField(doc, "displayName") == Some(Str(req.displayName))
    && SpecField(doc, "instruction") == Some(Str(req.instruction))
    && SpecField(doc, "ownerPrincipalId") == Some(Str(req.owner))
    && SpecField(doc, "privilegeLevel") == Some(Str(req.privilege))
    && SpecField(doc, "controls") == Some(host.controls)
    && SpecField(doc, "permissions") == Some(host.permissions)
    && SpecField(doc, "modelPolicy") ==
       Some(Obj(map["defaultProfile" := Str(req.profile), "roleProfiles" := Obj(map[])]))
    && SpecField(doc, "workspace") ==
       Some(Str(match AskedWorkspace(req)
                case None => host.defaultWorkspace(req.id)
                case Some(path) => host.expand(path)))
    && HasKey(doc, "apiVersion") && doc.fields["apiVersion"] == Str("openppx.io/v1alpha1")
    && HasKey(doc, "kind") && doc.fields["kind"] == Str("AgentConfig")
  }

  lemma CandidateSpec(req: Request, workspace: string, host: Host, field: string)
    ensures var doc := Candidate(req, workspace, host);
            && doc.Obj? && HasKey(doc, "spec") && doc.fields["spec"].Obj?
            && SpecField(doc, field) ==
               if field in doc.fields["spec"].fields then Some(doc.fields["spec"].fields[field]) else None
  {
  }

  lemma CandidateSays(req: Request, host: Host)
    requires Workspace(req, host).Ok?
    ensures SaysWhatWasAsked(Candidate(req, Workspace(req, host).value, host), req, host)
  {
    var workspace := Workspace(req, host).value;
    WorkspaceIs(req, host);
    CandidateIsNamed(req, workspace, host);
    CandidateSpec(req, workspace, host, "displayName");
  }

  /** A creation that succeeds stores an Agent that says what was asked for, under its id, and enables it last; every
      other Agent, the archive and every other enablement stay. If an Agent was stored already, it said the same. */
  lemma CreatedAgent(st: Store, req: Request, made: bool, host: Host)
    requires Create(st, req, made, host).1.None? && Injective(host.hash)
    ensures var st' := Create(st, req, made, host).0;
            && made && req.id in st'.agents && SaysWhatWasAsked(st'.agents[req.id], req, host)
            && (req.id in st.agents ==> st'.agents == st.agents)
            && (req.id !in st.agents ==> st'.agents == st.agents[req.id := st'.agents[req.id]])
            && st'.archive == st.archive && st.node.Some? && st'.node.Some?
            && EnabledAgents(st'.node.value) == EnabledAgents(st.node.value) + [req.id]
  {
    var doc := Candidate(req, Workspace(req, host).value, host);
    var staged := Stage(st, req, host).value;
    CandidateSays(req, host);
    StageDoes(st, req, host);
    PublishDoes(staged, st.node.value, EnabledAgents(st.node.value) + [req.id], host);
    if req.id in st.agents { TakenOver(st, req, host); }
  }

  lemma TakenOver(st: Store, req: Request, host: Host)
    requires Stage(st, req, host).Ok? && req.id in st.agents && Injective(host.hash)
    ensures st.agents[req.id] == Candidate(req, Workspace(req, host).value, host)
  {
  }

  /** A creation that fails after its checks leaves at most the new Agent behind, stored and not enabled. */
  lemma CreationLeaves(st: Store, req: Request, made: bool, host: Host)
    requires Create(st, req, made, host).1.Some? && st.node.Some?
    ensures var st' := Create(st, req, made, host).0;
            && st'.node == st.node && st'.archive == st.archive
            && (st'.agents != st.agents ==>
                  && req.id !in st.agents && req.id in st'.agents && SaysWhatWasAsked(st'.agents[req.id], req, host)
                  && st'.agents == st.agents[req.id := st'.agents[req.id]])
            && (!made && Create(st, req, true, host).1.None? ==>
                  Create(st, req, made, host).1 == Some(WorkspaceUnavailable))
  {
    if Stage(st, req, host).Ok? {
      CandidateSays(req, host);
      StageDoes(st, req, host);
      PublishDoes(Stage(st, req, host).value, st.node.value, EnabledAgents(st.node.value) + [req.id], host);
    }
  }

  /** An id that is stored and not enabled is taken over exactly if it says the same, and is a conflict otherwise. */
  lemma StoredIsCompared(st: Store, req: Request, host: Host)
    requires st.node.Some? && !IsEnabled(st, req.id) && ProfileError(req.profile, host).None?
    requires Workspace(req, host).Ok? && ReadAgent(st, req.id).Ok? && Injective(host.hash)
    ensures Create(st, req, true, host).1 ==
            if st.agents[req.id] == Candidate(req, Workspace(req, host).value, host) then None
            else Some(AgentIdConflict)
  {
    PublishDoes(st, st.node.value, EnabledAgents(st.node.value) + [req.id], host);
  }

  // ---- updates --------------------------------------------------------------------------------------------

  /** Every field outside the specification stays. */
  ghost predicate SameOutside(doc: Json, doc': Json) {
    doc.Obj? && doc'.Obj? && forall k :: k != "spec" ==>
      (k in doc.fields <==> k in doc'.fields) && (k in doc.fields ==> doc'.fields[k] == doc.fields[k])
  }

  /** A field of the model policy, if there is one. */
  function PolicyField(doc: Json, field: string): Option<Json> {
    var policy := SpecField(doc, "modelPolicy");
    if policy.Some? && HasKey(policy.value, field) then Some(policy.value.fields[field]) else None
  }

  /** Display name, instruction and default profile are the new ones; every other field is as it was. */
  ghost predicate EditedAsAsked(doc: Json, doc': Json, displayName: string, instruction: string, profile: string) {
    && SameOutside(doc, doc') && SpecField(doc', "displayName") == Some(Str(displayName))
    && SpecField(doc', "instruction") == Some(Str(instruction))
    && PolicyField(doc', "defaultProfile") == Some(Str(profile))
    && (forall f :: f != "defaultProfile" ==> PolicyField(doc', f) == PolicyField(doc, f))
    && forall f :: f != "displayName" && f != "instruction" && f != "modelPolicy" ==>
      SpecField(doc', f) == SpecField(doc, f)
  }

  lemma EditSays(doc: Json, displayName: string, instruction: string, profile: string)
    requires doc.Obj?
    ensures EditedAsAsked(doc, Edited(doc, displayName, instruction, profile), displayName, instruction, profile)
  {
    var doc' := Edited(doc, displayName, instruction, profile);
    forall f ensures f != "displayName" && f != "instruction" && f != "modelPolicy" ==>
                       SpecField(doc', f) == SpecField(doc, f) {
      EditChangesOnly(doc, displayName, instruction, profile, f);
    }
  }

  /** Why an update is refused before it writes, in the order of its checks. */
  function UpdateRefusal(st: Store, op: Op, host: Host): Option<LifecycleError>
    requires op.OpUpdate?
  {
    if op.id !in st.agents then Some(Config(NotFound))
    else if MetadataName(st.agents[op.id]) != Some(op.id) then Some(Config(NameMismatch))
    else if op.workspace.Some? && SpecField(st.agents[op.id], "workspace") != Some(Str(op.workspace.value))
         then Some(ImmutableAuthority)
    else if op.privilege.Some? && SpecField(st.agents[op.id], "privilegeLevel") != Some(Str(op.privilege.value))
         then Some(ImmutableAuthority)
    else if op.profile !in host.profiles then Some(ProfileNotFound)
    else if !host.profiles[op.profile] then Some(ProfileDisabled)
    else if host.hash(st.agents[op.id]) != op.expected
         then Some(Config(RevisionConflict(Some(op.expected), Some(host.hash(st.agents[op.id])))))
    else None
  }

  /** A refused update changes nothing. Any other writes the Agent under its id, edited as asked, and nothing else; it
      answers with an error all the same if there is no Node to report. */
  lemma UpdateDoes(st: Store, op: Op, host: Host)
    requires op.OpUpdate?
    ensures var (st', error) := Outcome(st, op, host);
            match UpdateRefusal(st, op, host)
            case Some(e) => st' == st && error == Some(e)
            case None =>
              && op.id in st.agents && op.id in st'.agents
              && st' == st.(agents := st.agents[op.id := st'.agents[op.id]])
              && EditedAsAsked(st.agents[op.id], st'.agents[op.id], op.displayName, op.instruction, op.profile)
              && error == if st.node.None? then Some(NodeNotConfigured) else None
  {
    if UpdateRefusal(st, op, host).Some? { UpdateStops(st, op, host); } else { UpdateWrites(st, op, host); }
  }

  lemma UpdateWrites(st: Store, op: Op, host: Host)
    requires op.OpUpdate? && UpdateRefusal(st, op, host).None?
    ensures var edited := Edited(st.agents[op.id], op.displayName, op.instruction, op.profile);
            && Outcome(st, op, host) == (st.(agents := st.agents[op.id := edited]),
                                         if st.node.None? then Some(NodeNotConfigured) else None)
            && EditedAsAsked(st.agents[op.id], edited, op.displayName, op.instruction, op.profile)
  {
    var doc := st.agents[op.id];
    EditSays(doc, op.displayName, op.instruction, op.profile);
    EditKeepsAuthority(doc, op.displayName, op.instruction, op.profile);
    EditChangesOnly(doc, op.displayName, op.instruction, op.profile, "");
    KeptAuthorityPasses(st, op.id, Edited(doc, op.displayName, op.instruction, op.profile), host.hash);
  }

  lemma UpdateStops(st: Store, op: Op, host: Host)
    requires op.OpUpdate? && UpdateRefusal(st, op, host).Some?
    ensures Outcome(st, op, host) == (st, UpdateRefusal(st, op, host))
  {
    if op.id in st.agents && MetadataName(st.agents[op.id]) == Some(op.id) {
      var doc := st.agents[op.id];
      EditKeepsAuthority(doc, op.displayName, op.instruction, op.profile);
      EditChangesOnly(doc, op.displayName, op.instruction, op.profile, "");
      AuthorityCheck(doc, Edited(doc, op.displayName, op.instruction, op.profile));
    }
  }

  // ---- enabling and deleting ------------------------------------------------------------------------------

  /** The enabled ids are these; every other field of the Node is as it was. */
  ghost predicate EnablesOnly(node: Json, node': Json, ids: seq<string>) {
    && SameOutside(node, node') && EnabledAgents(node') == ids
    && forall f :: f != "enabledAgents" ==> SpecField(node', f) == SpecField(node, f)
  }

  lemma WithEnabledSays(node: Json, ids: seq<string>)
    requires node.Obj?
    ensures EnablesOnly(node, WithEnabled(node, ids), ids)
  {
    forall f ensures f != "enabledAgents" ==> SpecField(WithEnabled(node, ids), f) == SpecField(node, f) {
      EnabledReplaced(node, ids, f);
    }
    EnabledReplaced(node, ids, "");
  }

  /** What was asked for already changes nothing. Otherwise the id is put last, or taken out wherever it stands, and
      the others stay in their order; Agents and archive are left alone. */
  lemma SetEnabledDoes(st: Store, id: string, enabled: bool, host: Host)
    requires st.node.Some? ==> st.node.value.Obj?
    ensures var (st', error) := SetEnabled(st, id, enabled, host);
            if id !in st.agents then st' == st && error == Some(Config(NotFound))
            else if MetadataName(st.agents[id]) != Some(id) then st' == st && error == Some(Config(NameMismatch))
            else if st.node.None? then st' == st && error == Some(NodeNotConfigured)
            else if enabled == IsEnabled(st, id) then st' == st && error == None
            else
              && error == None && st' == st.(node := st'.node) && st'.node.Some?
              && EnablesOnly(st.node.value, st'.node.value,
                             if enabled then EnabledAgents(st.node.value) + [id]
                             else Without(EnabledAgents(st.node.value), id))
  {
    if st.node.Some? {
      var ids := if enabled then EnabledAgents(st.node.value) + [id] else Without(EnabledAgents(st.node.value), id);
      WithEnabledSays(st.node.value, ids);
      PublishDoes(st, st.node.value, ids, host);
    }
  }

  /** The ids that are left when one is taken out, in their order. */
  lemma {:induction false} WithoutKeepsOrder(ids: seq<string>, id: string)
    ensures ids == [] ==> Without(ids, id) == []
    ensures ids != [] ==>
              Without(ids, id) == (if ids[0] == id then [] else [ids[0]]) + Without(ids[1..], id)
    ensures id !in ids ==> Without(ids, id) == ids
  {
    if ids != [] {
      WithoutKeepsOrder(ids[1..], id);
      assert ids == [ids[0]] + ids[1..];
    }
  }

  /** A deletion is refused for an Agent that is missing, damaged, enabled or of another revision; otherwise it moves
      the document to the archive under its id and revision. */
  lemma DeleteDoes(st: Store, id: string, expected: string, host: Host)
    ensures var (st', error) := Delete(st, id, expected, host);
            if id !in st.agents then st' == st && error == Some(Config(NotFound))
            else if MetadataName(st.agents[id]) != Some(id) then st' == st && error == Some(Config(NameMismatch))
            else if st.node.None? then st' == st && error == Some(NodeNotConfigured)
            else if IsEnabled(st, id) then st' == st && error == Some(MustBeDisabled)
            else if host.hash(st.agents[id]) != expected then
              st' == st && error == Some(Config(RevisionConflict(Some(expected), Some(host.hash(st.agents[id])))))
            else
              && error == None && st'.node == st.node && st'.agents == st.agents - {id}
              && st'.archive == st.archive[(id, expected) := st.agents[id]]
  {
  }
}
