/** What each read, write, archive and preview answers, and in which order it is refused. */
module ConfigOutcomes {
  import opened Wrappers
  import opened JsonValues
  import opened StructuralDiff
  import opened Effects
  import opened ConfigStore

  /** The document names itself, as a text. */
  predicate CallsItself(doc: Json, name: string) {
    && doc.Obj? && "metadata" in doc.fields && doc.fields["metadata"].Obj?
    && "name" in doc.fields["metadata"].fields && doc.fields["metadata"].fields["name"] == Str(name)
  }

  lemma NameIs(doc: Json, name: string)
    ensures MetadataName(doc) == Some(name) <==> CallsItself(doc, name)
  {
    assert ["metadata", "name"][1..] == ["name"] && ["name"][1..] == [];
    if HasKey(doc, "metadata") {
      var metadata := doc.fields["metadata"];
      assert Get(doc, ["metadata", "name"]) == Get(metadata, ["name"]);
      assert Get(metadata, ["name"]) ==
             if HasKey(metadata, "name") then Get(metadata.fields["name"], []) else None;
    }
  }

  /** An Agent that can be read calls itself what it is stored as. */
  predicate Readable(st: Store, name: string) {
    name in st.agents && CallsItself(st.agents[name], name)
  }

  /** Reading returns what is stored, if that calls itself so; an absent Agent and a misnamed one are told apart. */
  lemma ReadAnswers(st: Store, name: string)
    ensures ReadAgent(st, name) ==
            if Readable(st, name) then Ok(st.agents[name])
            else if name !in st.agents then Err(NotFound)
            else Err(NameMismatch)
  {
    if name in st.agents { NameIs(st.agents[name], name); }
  }

  /** The revision an Agent or the Node has; none if it is absent. */
  function Revision(current: Option<Json>, hash: Hash): Option<string> {
    match current case None => None case Some(doc) => Some(hash(doc))
  }

  function StoredAgent(st: Store, name: string): Option<Json> {
    if name in st.agents then Some(st.agents[name]) else None
  }

  function Stale(current: Option<Json>, expected: Option<string>, hash: Hash): ConfigError {
    RevisionConflict(expected, Revision(current, hash))
  }

  /** A write is refused for the name in the new document, then for a stored one that is misnamed, then for the
      revision; otherwise this one document is stored. */
  lemma WriteAnswers(st: Store, name: string, doc: Json, expected: Option<string>, hash: Hash)
    ensures WriteAgent(st, name, doc, expected, hash) ==
            if !CallsItself(doc, name) then Err(NameMismatch)
            else if name in st.agents && !CallsItself(st.agents[name], name) then Err(NameMismatch)
            else if Revision(StoredAgent(st, name), hash) != expected
            then Err(Stale(StoredAgent(st, name), expected, hash))
            else Ok(Store(st.node, st.agents[name := doc], st.archive))
  {
    NameIs(doc, name);
    ReadAnswers(st, name);
  }

  /** The Node is written exactly if it has the expected revision. */
  lemma NodeWriteAnswers(st: Store, doc: Json, expected: Option<string>, hash: Hash)
    ensures WriteNode(st, doc, expected, hash) ==
            if Revision(st.node, hash) == expected then Ok(Store(Some(doc), st.agents, st.archive))
            else Err(Stale(st.node, expected, hash))
  {
  }

  /** An archived Agent was readable and had the expected revision; it moves, and nothing else does. */
  lemma ArchiveAnswers(st: Store, name: string, expected: string, hash: Hash)
    ensures var answer := ArchiveAgent(st, name, expected, hash);
            if name !in st.agents then answer == Err(NotFound)
            else if !CallsItself(st.agents[name], name) then answer == Err(NameMismatch)
            else if hash(st.agents[name]) != expected
            then answer == Err(RevisionConflict(Some(expected), Some(hash(st.agents[name]))))
            else answer.Ok? && var st' := answer.value;
                 && st'.node == st.node
                 && (forall n :: n in st'.agents <==> n in st.agents && n != name)
                 && (forall n :: n in st'.agents ==> st'.agents[n] == st.agents[n])
                 && (forall n, e :: (n, e) in st'.archive <==> (n, e) in st.archive || (n == name && e == expected))
                 && (forall n, e :: (n, e) in st'.archive ==>
                       st'.archive[(n, e)] ==
                       if n == name && e == expected then st.agents[name] else st.archive[(n, e)])
  {
    ReadAnswers(st, name);
  }

  function ChangedOne(a: Json, b: Json, f: string): seq<string> {
    if SpecField(a, f) != SpecField(b, f) then [f] else []
  }

  /** The refusal names the authority fields that differ, in this order. */
  lemma AuthorityNames(a: Json, b: Json)
    ensures ChangedFields(a, b, AUTHORITY) ==
            ChangedOne(a, b, "ownerPrincipalId") + ChangedOne(a, b, "workspace") + ChangedOne(a, b, "privilegeLevel")
            + ChangedOne(a, b, "controls") + ChangedOne(a, b, "permissions")
  {
    NextField(a, b, "ownerPrincipalId", ["workspace", "privilegeLevel", "controls", "permissions"]);
    NextField(a, b, "workspace", ["privilegeLevel", "controls", "permissions"]);
    NextField(a, b, "privilegeLevel", ["controls", "permissions"]);
    NextField(a, b, "controls", ["permissions"]);
    NextField(a, b, "permissions", []);
    assert AUTHORITY == ["ownerPrincipalId"] + ["workspace", "privilegeLevel", "controls", "permissions"];
    FiveInOrder(ChangedOne(a, b, "ownerPrincipalId"), ChangedOne(a, b, "workspace"),
                ChangedOne(a, b, "privilegeLevel"), ChangedOne(a, b, "controls"), ChangedOne(a, b, "permissions"));
  }

  lemma NextField(a: Json, b: Json, f: string, rest: seq<string>)
    ensures ChangedFields(a, b, [f] + rest) == ChangedOne(a, b, f) + ChangedFields(a, b, rest)
  {
    assert ([f] + rest)[1..] == rest;
  }

  lemma FiveInOrder(u: seq<string>, v: seq<string>, x: seq<string>, y: seq<string>, z: seq<string>)
    ensures u + (v + (x + (y + (z + [])))) == u + v + x + y + z
  {
  }

  /** An authority field differs between the stored Agent and the candidate. */
  predicate AuthorityChanges(a: Json, b: Json) {
    || SpecField(a, "ownerPrincipalId") != SpecField(b, "ownerPrincipalId")
    || SpecField(a, "workspace") != SpecField(b, "workspace")
    || SpecField(a, "privilegeLevel") != SpecField(b, "privilegeLevel")
    || SpecField(a, "controls") != SpecField(b, "controls")
    || SpecField(a, "permissions") != SpecField(b, "permissions")
  }

  /** A preview reports the difference from what is stored, or from an empty document, and its effect. */
  predicate Reports(p: Preview, kind: ResourceKind, current: Option<Json>, candidate: Json) {
    var before := match current case None => Obj(map[]) case Some(doc) => doc;
    p.changes == Diff(before, candidate, []) && p.effect == EffectOf(kind, before, candidate)
  }

  /** A preview of an Agent is refused for a name, then for a changed authority, then for the revision. */
  lemma PreviewAnswers(st: Store, name: string, candidate: Json, expected: Option<string>, hash: Hash)
    ensures var answer := PreviewAgent(st, name, candidate, expected, hash);
            if !CallsItself(candidate, name) then answer == Err(NameMismatch)
            else if name in st.agents && !CallsItself(st.agents[name], name) then answer == Err(NameMismatch)
            else if name in st.agents && AuthorityChanges(st.agents[name], candidate)
            then answer.Err? && answer.error.ImmutableFields?
            else if Revision(StoredAgent(st, name), hash) != expected
            then answer == Err(Stale(StoredAgent(st, name), expected, hash))
            else answer.Ok? && Reports(answer.value, AgentResource, StoredAgent(st, name), candidate)
  {
    NameIs(candidate, name);
    ReadAnswers(st, name);
    if name in st.agents { AuthorityNames(st.agents[name], candidate); }
  }

  /** The Node has no authority fields. */
  lemma NodePreviewAnswers(st: Store, candidate: Json, expected: Option<string>, hash: Hash)
    ensures var answer := PreviewNode(st, candidate, expected, hash);
            if Revision(st.node, hash) != expected then answer == Err(Stale(st.node, expected, hash))
            else answer.Ok? && Reports(answer.value, NodeResource, st.node, candidate)
  {
  }

  /** What is applied is what the preview allows, and stores that one document. */
  lemma ApplyAnswers(st: Store, name: string, candidate: Json, expected: Option<string>, hash: Hash)
    ensures AppliedAgent(st, name, candidate, expected, hash) ==
            match PreviewAgent(st, name, candidate, expected, hash)
            case Err(e) => Err(e)
            case Ok(_) => Ok(Store(st.node, st.agents[name := candidate], st.archive))
    ensures AppliedNode(st, candidate, expected, hash) ==
            match PreviewNode(st, candidate, expected, hash)
            case Err(e) => Err(e)
            case Ok(_) => Ok(Store(Some(candidate), st.agents, st.archive))
  {
    WriteAnswers(st, name, candidate, expected, hash);
    PreviewAnswers(st, name, candidate, expected, hash);
    NodeWriteAnswers(st, candidate, expected, hash);
  }
}
