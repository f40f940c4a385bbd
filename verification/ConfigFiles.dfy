/** The resource files and the configuration service on top of them, step by step. */
module ConfigFiles {
  import opened Wrappers
  import opened JsonValues
  import opened StructuralDiff
  import opened Effects
  import opened ConfigStore

  /** The resource can be read, or is absent, and has the expected revision. */
  predicate HasRevision(current: Result<Option<Json>, ConfigError>, expected: Option<string>, hash: Hash) {
    current.Ok? && RevisionOf(current.value, hash) == expected
  }

  class ConfigService {
    var node: Option<Json>
    var agents: map<string, Json>
    var archive: map<(string, string), Json>
    const hash: Hash

    constructor (hash: Hash)
      ensures State() == Store(None, map[], map[]) && this.hash == hash
    {
      node, agents, archive := None, map[], map[];
      this.hash := hash;
    }

    ghost function State(): Store
      reads this
    {
      Store(node, agents, archive)
    }

    method ReadAgent(name: string) returns (doc: Result<Json, ConfigError>)
      ensures doc == ConfigStore.ReadAgent(State(), name)
    {
      if name !in agents { return Err(NotFound); }
      if MetadataName(agents[name]) != Some(name) { return Err(NameMismatch); }
      doc := Ok(agents[name]);
    }

    method OptionalCurrent(name: string) returns (current: Result<Option<Json>, ConfigError>)
      ensures current == OptionalAgent(State(), name)
    {
      var doc := ReadAgent(name);
      match doc
      case Ok(d) => current := Ok(Some(d));
      case Err(e) => current := if e == NotFound then Ok(None) else Err(e);
    }

    method WriteAgent(name: string, doc: Json, expected: Option<string>) returns (error: Option<ConfigError>)
      modifies this`agents
      ensures error.None? <==>
              MetadataName(doc) == Some(name) && HasRevision(OptionalAgent(old(State()), name), expected, hash)
      ensures agents == if error.None? then old(agents)[name := doc] else old(agents)
      ensures error.Some? ==> ConfigStore.WriteAgent(old(State()), name, doc, expected, hash) == Err(error.value)
    {
      if MetadataName(doc) != Some(name) { return Some(NameMismatch); }
      var current := OptionalCurrent(name);
      if current.Err? { return Some(current.error); }
      var actual := RevisionOf(current.value, hash);
      if actual != expected { return Some(RevisionConflict(expected, actual)); }
      agents := agents[name := doc];
      error := None;
    }

    method WriteNode(doc: Json, expected: Option<string>) returns (error: Option<ConfigError>)
      modifies this`node
      ensures error.None? <==> RevisionOf(old(node), hash) == expected
      ensures node == if error.None? then Some(doc) else old(node)
      ensures error.Some? ==> error.value == RevisionConflict(expected, RevisionOf(old(node), hash))
    {
      var actual := RevisionOf(node, hash);
      if actual != expected { return Some(RevisionConflict(expected, actual)); }
      node := Some(doc);
      error := None;
    }

    method ArchiveAgent(name: string, expected: string) returns (error: Option<ConfigError>)
      modifies this`agents, this`archive
      ensures error.None? <==>
              var current := ConfigStore.ReadAgent(old(State()), name); current.Ok? && hash(current.value) == expected
      ensures error.None? ==>
              agents == old(agents) - {name} && archive == old(archive)[(name, expected) := old(agents)[name]]
      ensures error.Some? ==> agents == old(agents) && archive == old(archive)
      ensures error.Some? ==> ConfigStore.ArchiveAgent(old(State()), name, expected, hash) == Err(error.value)
    {
      var current := ReadAgent(name);
      if current.Err? { return Some(current.error); }
      if hash(current.value) != expected { return Some(RevisionConflict(Some(expected), Some(hash(current.value)))); }
      archive := archive[(name, expected) := current.value];
      agents := agents - {name};
      error := None;
    }

    method Preview(kind: ResourceKind, candidate: Json, current: Option<Json>, expected: Option<string>)
      returns (preview: Result<ConfigStore.Preview, ConfigError>)
      ensures preview == if Conflict(current, expected, hash).Some? then Err(Conflict(current, expected, hash).value)
                         else Ok(PreviewOf(kind, candidate, current))
    {
      var actual := RevisionOf(current, hash);
      if actual != expected { return Err(RevisionConflict(expected, actual)); }
      var changes := Diff(Before(current), candidate, []);
      var effect := EffectForChanges(kind, changes);
      preview := Ok(ConfigStore.Preview(changes, effect));
    }

    method PreviewAgent(name: string, candidate: Json, expected: Option<string>)
      returns (preview: Result<ConfigStore.Preview, ConfigError>)
      ensures preview == ConfigStore.PreviewAgent(State(), name, candidate, expected, hash)
    {
      if MetadataName(candidate) != Some(name) { return Err(NameMismatch); }
      var current := OptionalCurrent(name);
      if current.Err? { return Err(current.error); }
      if current.value.Some? {
        var changed := ChangedFields(current.value.value, candidate, AUTHORITY);
        if changed != [] { return Err(ImmutableFields(changed)); }
      }
      preview := Preview(AgentResource, candidate, current.value, expected);
    }

    method ApplyAgent(name: string, candidate: Json, expected: Option<string>)
      returns (preview: Result<ConfigStore.Preview, ConfigError>)
      modifies this
      ensures match AppliedAgent(old(State()), name, candidate, expected, hash)
              case Ok(st) => State() == st && preview ==
                ConfigStore.PreviewAgent(old(State()), name, candidate, expected, hash)
              case Err(e) => State() == old(State()) && preview == Err(e)
    {
      preview := PreviewAgent(name, candidate, expected);
      if preview.Err? { return; }
      var error := WriteAgent(name, candidate, expected);
      match error
      case Some(e) => preview := Err(e);
      case None =>
    }

    method ApplyNode(candidate: Json, expected: Option<string>)
      returns (preview: Result<ConfigStore.Preview, ConfigError>)
      modifies this
      ensures match AppliedNode(old(State()), candidate, expected, hash)
              case Ok(st) => State() == st && preview == PreviewNode(old(State()), candidate, expected, hash)
              case Err(e) => State() == old(State()) && preview == Err(e)
    {
      preview := Preview(NodeResource, candidate, node, expected);
      if preview.Err? { return; }
      var error := WriteNode(candidate, expected);
      match error
      case Some(e) => preview := Err(e);
      case None =>
    }
  }
}
