/** Any number of clients editing and archiving Agents at once. A preview reads outside the lock;
    the write that follows it, some other steps later, is one locked step. */
module ConfigClients {
  import opened Wrappers
  import opened JsonValues
  import opened StructuralDiff
  import opened Effects
  import opened ConfigStore

  type Client = nat

  /** A client that has passed its preview and has not written yet. */
  datatype Pending = Pending(name: string, candidate: Json, expected: Option<string>, preview: Preview)

  datatype World = World(store: Store, pending: map<Client, Pending>)

  datatype Step =
    | DoPreview(client: Client, name: string, candidate: Json, expected: Option<string>)
    | DoWrite(client: Client)
    | DoArchive(name: string, revision: string)
    | DoWriteNode(candidate: Json, expected: Option<string>)

  function Next(w: World, step: Step, hash: Hash): World {
    match step
    case DoPreview(client, name, candidate, expected) =>
      var p := PreviewAgent(w.store, name, candidate, expected, hash);
      w.(pending := if p.Ok? then w.pending[client := Pending(name, candidate, expected, p.value)]
        else w.pending - {client})
    case DoWrite(client) =>
      if client !in w.pending then w else
      var p := w.pending[client];
      var r := WriteAgent(w.store, p.name, p.candidate, p.expected, hash);
      World(if r.Ok? then r.value else w.store, w.pending - {client})
    case DoArchive(name, revision) =>
      var r := ArchiveAgent(w.store, name, revision, hash);
      w.(store := if r.Ok? then r.value else w.store)
    case DoWriteNode(candidate, expected) =>
      var r := WriteNode(w.store, candidate, expected, hash);
      w.(store := if r.Ok? then r.value else w.store)
  }

  ghost predicate Run(ws: seq<World>, steps: seq<Step>, hash: Hash) {
    && |ws| == |steps| + 1 && ws[0].pending == map[]
    && forall i :: 0 <= i < |steps| ==> ws[i + 1] == Next(ws[i], steps[i], hash)
  }

  /** What a client still knows when it writes: the document its revision stands for has the
      candidate's authority, and its preview is the difference from that document. */
  ghost predicate Informed(p: Pending, hash: Hash) {
    && (p.expected.Some? ==> exists base :: Base(p, base, hash))
    && (p.expected.None? ==> p.preview == Preview(Diff(NOTHING, p.candidate, []),
      EffectOf(AgentResource, NOTHING, p.candidate)))
  }

  ghost predicate Base(p: Pending, base: Json, hash: Hash) {
    && p.expected == Some(hash(base)) && SameAuthority(base, p.candidate)
    && p.preview == Preview(Diff(base, p.candidate, []), EffectOf(AgentResource, base, p.candidate))
  }

  lemma PreviewInforms(st: Store, name: string, candidate: Json, expected: Option<string>, hash: Hash)
    requires PreviewAgent(st, name, candidate, expected, hash).Ok?
    ensures Informed(Pending(name, candidate, expected, PreviewAgent(st, name, candidate, expected, hash).value), hash)
  {
    var current := OptionalAgent(st, name).value;
    var p := Pending(name, candidate, expected, PreviewAgent(st, name, candidate, expected, hash).value);
    if current.Some? {
      AuthorityCheck(current.value, candidate);
      assert Base(p, current.value, hash);
    }
  }

  lemma {:induction false} AlwaysInformed(ws: seq<World>, steps: seq<Step>, hash: Hash, i: nat, client: Client)
    requires Run(ws, steps, hash) && i < |ws| && client in ws[i].pending
    ensures Informed(ws[i].pending[client], hash)
  {
    if i > 0 {
      var s := steps[i - 1];
      assert ws[i] == Next(ws[i - 1], s, hash);
      if s.DoPreview? && s.client == client {
        PreviewInforms(ws[i - 1].store, s.name, s.candidate, s.expected, hash);
      } else {
        AlwaysInformed(ws, steps, hash, i - 1, client);
      }
    }
  }

  predicate Stored(st: Store, name: string) {
    name in st.agents
  }

  /** The document a successful write replaces is the one the client compared its candidate with. */
  lemma WriteMeetsItsBase(st: Store, p: Pending, hash: Hash)
    requires Injective(hash) && Informed(p, hash) && WriteAgent(st, p.name, p.candidate, p.expected, hash).Ok?
    ensures p.expected.Some? <==> p.name in st.agents
    ensures p.name in st.agents ==> Base(p, st.agents[p.name], hash)
  {
    if p.expected.Some? {
      var base :| Base(p, base, hash);
      assert hash(base) == hash(st.agents[p.name]);
    }
  }

  lemma StepKeepsAuthority(ws: seq<World>, steps: seq<Step>, hash: Hash, i: nat, name: string)
    requires Injective(hash) && Run(ws, steps, hash) && i < |steps|
    requires name in ws[i].store.agents && name in ws[i + 1].store.agents
    ensures SameAuthority(ws[i].store.agents[name], ws[i + 1].store.agents[name])
  {
    var w, s := ws[i], steps[i];
    assert ws[i + 1] == Next(w, s, hash);
    if s.DoWrite? && s.client in w.pending && w.pending[s.client].name == name {
      AlwaysInformed(ws, steps, hash, i, s.client);
      if WriteAgent(w.store, name, w.pending[s.client].candidate, w.pending[s.client].expected, hash).Ok? {
        WriteMeetsItsBase(w.store, w.pending[s.client], hash);
      }
    }
  }

  /** Whatever the clients do, owner, workspace, privilege, controls and permissions of an Agent
      never change while it stays stored. */
  lemma {:induction false} AuthorityFixed(ws: seq<World>, steps: seq<Step>, hash: Hash, i: nat, k: nat, name: string)
    requires Injective(hash) && Run(ws, steps, hash) && i <= k < |ws|
    requires Stored(ws[i].store, name) && Stored(ws[k].store, name) && forall j :: i <= j <= k ==>
             Stored(ws[j].store, name)
    ensures SameAuthority(ws[i].store.agents[name], ws[k].store.agents[name])
    decreases k
  {
    if i < k {
      assert Stored(ws[k - 1].store, name);
      AuthorityFixed(ws, steps, hash, i, k - 1, name);
      StepKeepsAuthority(ws, steps, hash, k - 1, name);
      SameAuthorityTransitive(ws[i].store.agents[name], ws[k - 1].store.agents[name], ws[k].store.agents[name]);
    }
  }

  lemma SameAuthorityTransitive(a: Json, b: Json, c: Json)
    requires SameAuthority(a, b) && SameAuthority(b, c)
    ensures SameAuthority(a, c)
  {
  }

  /** The changes and the effect a client reports are exactly those of the write that happened. */
  lemma WriteReportsItself(ws: seq<World>, steps: seq<Step>, hash: Hash, i: nat)
    requires Injective(hash) && Run(ws, steps, hash) && i < |steps|
    requires steps[i].DoWrite? && steps[i].client in ws[i].pending
    ensures var p := ws[i].pending[steps[i].client];
            var before := if p.name in ws[i].store.agents then ws[i].store.agents[p.name] else NOTHING;
            WriteAgent(ws[i].store, p.name, p.candidate, p.expected, hash).Ok? ==>
              && p.name in ws[i + 1].store.agents
              && p.preview.changes == Diff(before, ws[i + 1].store.agents[p.name], [])
              && p.preview.effect == EffectOf(AgentResource, before, ws[i + 1].store.agents[p.name])
  {
    var p := ws[i].pending[steps[i].client];
    assert ws[i + 1] == Next(ws[i], steps[i], hash);
    if WriteAgent(ws[i].store, p.name, p.candidate, p.expected, hash).Ok? {
      AlwaysInformed(ws, steps, hash, i, steps[i].client);
      WriteMeetsItsBase(ws[i].store, p, hash);
    }
  }

  lemma OnlyModelPolicyDiffers(before: Json, after: Json)
    requires SameAuthority(before, after)
    ensures Differs(before, after, FieldsOfRank(AgentResource, 1)) <==>
              SpecField(before, "modelPolicy") != SpecField(after, "modelPolicy")
    ensures !Differs(before, after, FieldsOfRank(AgentResource, 2))
  {
    assert "modelPolicy" in FieldsOfRank(AgentResource, 1);
    if f :| f in FieldsOfRank(AgentResource, 1) && SpecField(before, f) != SpecField(after, f) {
      assert f == "modelPolicy" || f in AUTHORITY;
    }
  }

  /** With the authority fixed, only the model policy is left to ask for a new run. */
  lemma EffectOfUpdate(before: Json, after: Json)
    requires before.Obj? && after.Obj? && ObjectSpec(before) && ObjectSpec(after) && !Mixed(before, after)
    requires SameAuthority(before, after)
    ensures EffectOf(AgentResource, before, after) != Live <==>
            SpecField(before, "modelPolicy") != SpecField(after, "modelPolicy")
    ensures EffectOf(AgentResource, before, after) != RestartRequired
  {
    EffectRank(AgentResource, before, after, 1);
    EffectRank(AgentResource, before, after, 2);
    OnlyModelPolicyDiffers(before, after);
  }

  /** So a successful update never asks for a restart, and asks for a new run exactly when it changes
      the model policy. */
  lemma UpdateEffect(st: Store, p: Pending, hash: Hash)
    requires Injective(hash) && Informed(p, hash) && WriteAgent(st, p.name, p.candidate, p.expected, hash).Ok?
    requires p.name in st.agents && st.agents[p.name].Obj? && p.candidate.Obj?
    requires ObjectSpec(st.agents[p.name]) && ObjectSpec(p.candidate) && !Mixed(st.agents[p.name], p.candidate)
    ensures p.preview.effect == NextRun <==> SpecField(st.agents[p.name], "modelPolicy") != SpecField(p.candidate,
            "modelPolicy")
    ensures p.preview.effect != RestartRequired
  {
    WriteMeetsItsBase(st, p, hash);
    EffectOfUpdate(st.agents[p.name], p.candidate);
  }

  // ---- the archive ------------------------------------------------------------------------------

  ghost predicate Addressed(st: Store, hash: Hash) {
    forall k :: k in st.archive ==> hash(st.archive[k]) == k.1 && MetadataName(st.archive[k]) == Some(k.0)
  }

  lemma StepKeepsArchive(w: World, s: Step, hash: Hash)
    requires Injective(hash) && Addressed(w.store, hash)
    ensures Addressed(Next(w, s, hash).store, hash)
    ensures forall k :: k in w.store.archive ==>
              k in Next(w, s, hash).store.archive && Next(w, s, hash).store.archive[k] == w.store.archive[k]
  {
    if s.DoArchive? {
      var r := ArchiveAgent(w.store, s.name, s.revision, hash);
      if r.Ok? && (s.name, s.revision) in w.store.archive {
        assert hash(w.store.archive[(s.name, s.revision)]) == hash(w.store.agents[s.name]);
      }
    }
  }

  /** Nothing archived is ever lost or overwritten by something else, and each entry can be checked
      against its own address. */
  lemma {:induction false} ArchiveGrows(ws: seq<World>, steps: seq<Step>, hash: Hash, i: nat, k: nat)
    requires Injective(hash) && Run(ws, steps, hash) && i <= k < |ws| && Addressed(ws[i].store, hash)
    ensures Addressed(ws[k].store, hash)
    ensures forall a :: a in ws[i].store.archive ==>
            a in ws[k].store.archive && ws[k].store.archive[a] == ws[i].store.archive[a]
    decreases k
  {
    if i < k {
      ArchiveGrows(ws, steps, hash, i, k - 1);
      StepKeepsArchive(ws[k - 1], steps[k - 1], hash);
    }
  }

  // ---- what compare-and-swap does not see ---------------------------------------------------------

  /** Revisions name contents. A write whose base was replaced is refused, but once the base is
      restored the same write goes through. */
  lemma RestoredBaseStillWrites(st: Store, name: string, other: Json, candidate: Json, hash: Hash)
    requires Injective(hash) && name in st.agents && other != st.agents[name]
    requires MetadataName(st.agents[name]) == MetadataName(other) == MetadataName(candidate) == Some(name)
    ensures var base := st.agents[name];
            var edited := WriteAgent(st, name, other, Some(hash(base)), hash);
            && edited.Ok? && WriteAgent(edited.value, name, candidate, Some(hash(base)), hash).Err?
            && var restored := WriteAgent(edited.value, name, base, Some(hash(other)), hash);
            && restored == Ok(st) && WriteAgent(st, name, candidate, Some(hash(base)), hash).Ok?
  {
    var base := st.agents[name];
    assert hash(base) != hash(other);
    assert st.agents[name := other][name := base] == st.agents;
  }

  /** A client with nobody between its preview and its write does what the whole call does. */
  lemma AloneIsWhole(w: World, client: Client, name: string, candidate: Json, expected: Option<string>, hash: Hash)
    ensures Next(Next(w, DoPreview(client, name, candidate, expected), hash), DoWrite(client), hash) ==
            World(match AppliedAgent(w.store, name, candidate, expected, hash) case Ok(st) => st case Err(_) => w.store,
                  w.pending - {client})
  {
    var w1 := Next(w, DoPreview(client, name, candidate, expected), hash);
    assert w1.pending - {client} == w.pending - {client};
  }
}
