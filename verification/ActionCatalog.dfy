/** Registered Actions, the catalog of one caller, and how a slash command finds its Action. */
module ActionCatalog {
  import opened Wrappers
  import opened Text

  predicate IsLower(c: char) { 'a' <= c <= 'z' }

  predicate IsNameTail(s: string) {
    forall i :: 0 <= i < |s| ==> IsLower(s[i]) || '0' <= s[i] <= '9' || s[i] == '-'
  }

  predicate IsWord(s: string) {
    s != "" && IsLower(s[0]) && IsNameTail(s[1..])
  }

  /** The pattern of a slash command: one word after the slash, or two around a colon. */
  predicate IsCommandName(s: string) {
    s != "" && s[0] == '/'
    && (IsWord(s[1..]) || exists i :: 1 <= i < |s| && s[i] == ':' && IsWord(s[1..i]) && IsWord(s[i + 1..]))
  }

  datatype CommandFields = CommandFields(name: string, acceptsArgs: bool, details: string)

  /** A command is refused when it is made, unless its name fits the pattern. */
  type SlashCommand = c: CommandFields | IsCommandName(c.name) witness CommandFields("/a", false, "")

  datatype Projection = Cli | Slash | Desktop | Mobile

  /** Commands of one Action differ, and it has some exactly when it is projected as slash. */
  datatype ActionSpec = ActionSpec(id: string, namespace: string, projections: seq<Projection>,
    commands: seq<SlashCommand>) {
    predicate Valid() {
      && (Slash in projections <==> commands != [])
      && (forall i, j :: 0 <= i < j < |commands| ==> commands[i].name != commands[j].name)
    }
  }

  /** What a provider offers to one caller; nothing when it fails. */
  type Provider<!Ctx> = Ctx -> Option<seq<SlashCommand>>

  datatype Binding = Binding(action: string, command: SlashCommand)

  datatype Registry<!Ctx> = Registry(
    actions: map<string, ActionSpec>, static_: map<string, Binding>, dynamic: map<string, Provider<Ctx>>)

  datatype RegistrationError = AlreadyRegistered | AdapterRequired | AdapterNotAllowed | CommandTaken(name: string)
                             | NoSuchAction | MixedAliases | DynamicAlreadyRegistered

  // ---- registration -----------------------------------------------------------------------------

  function FirstTaken(commands: seq<SlashCommand>, taken: map<string, Binding>): Option<string> {
    if commands == [] then None
    else if commands[0].name in taken then Some(commands[0].name)
    else FirstTaken(commands[1..], taken)
  }

  function Bound(taken: map<string, Binding>, id: string, commands: seq<SlashCommand>): map<string, Binding> {
    if commands == [] then taken
    else var c := commands[|commands| - 1]; Bound(taken, id, commands[..|commands| - 1])[c.name := Binding(id, c)]
  }

  function RegisterError<Ctx>(r: Registry<Ctx>, spec: ActionSpec, adapter: bool): Option<RegistrationError> {
    if spec.id in r.actions then Some(AlreadyRegistered)
    else if spec.commands != [] && !adapter then Some(AdapterRequired)
    else if spec.commands == [] && adapter then Some(AdapterNotAllowed)
    else
      var taken := FirstTaken(spec.commands, r.static_);
      if taken.Some? then Some(CommandTaken(taken.value)) else None
  }

  function Registered<Ctx>(r: Registry<Ctx>, spec: ActionSpec, adapter: bool): Registry<Ctx> {
    if RegisterError(r, spec, adapter).Some? then r
    else r.(actions := r.actions[spec.id := spec], static_ := Bound(r.static_, spec.id, spec.commands))
  }

  function DynamicError<Ctx>(r: Registry<Ctx>, id: string): Option<RegistrationError> {
    if id !in r.actions then Some(NoSuchAction)
    else if r.actions[id].commands != [] then Some(MixedAliases)
    else if id in r.dynamic then Some(DynamicAlreadyRegistered)
    else None
  }

  function DynamicRegistered<Ctx>(r: Registry<Ctx>, id: string, provider: Provider<Ctx>): Registry<Ctx> {
    if DynamicError(r, id).Some? then r else r.(dynamic := r.dynamic[id := provider])
  }

  // ---- dynamic names ----------------------------------------------------------------------------

  /** What one Action offers, without names that static commands have. */
  function Unreserved(id: string, commands: seq<SlashCommand>, taken: map<string, Binding>): seq<Binding> {
    if commands == [] then []
    else
      var c := commands[|commands| - 1];
      Unreserved(id, commands[..|commands| - 1], taken) + (if c.name in taken then [] else [Binding(id, c)])
  }

  function OfferedBy<Ctx>(r: Registry<Ctx>, id: string, ctx: Ctx): seq<Binding>
    requires id in r.dynamic
  {
    var offered := r.dynamic[id](ctx);
    if offered.None? then [] else Unreserved(id, offered.value, r.static_)
  }

  function OfferedByEach<Ctx>(r: Registry<Ctx>, ids: seq<string>, ctx: Ctx): seq<Binding>
    requires forall id :: id in ids ==> id in r.dynamic
  {
    if ids == [] then [] else OfferedByEach(r, ids[..|ids| - 1], ctx) + OfferedBy(r, ids[|ids| - 1], ctx)
  }

  function Offered<Ctx>(r: Registry<Ctx>, ctx: Ctx): seq<Binding> {
    OfferedByEach(r, Sorted(r.dynamic.Keys), ctx)
  }

  function OffersOf(bs: seq<Binding>, name: string): seq<Binding> {
    if bs == [] then []
    else OffersOf(bs[..|bs| - 1], name) + (if bs[|bs| - 1].command.name == name then [bs[|bs| - 1]] else [])
  }

  function Names(bs: seq<Binding>): set<string> {
    set b | b in bs :: b.command.name
  }

  /** Only a name offered exactly once is bound. */
  function DynamicBindings<Ctx>(r: Registry<Ctx>, ctx: Ctx): map<string, Binding> {
    var offered := Offered(r, ctx);
    map name | name in Names(offered) && |OffersOf(offered, name)| == 1 :: OffersOf(offered, name)[0]
  }

  /** What a name stands for, for one caller. Without a caller there are only static commands. */
  function Lookup<Ctx>(r: Registry<Ctx>, name: string, ctx: Option<Ctx>): Option<Binding> {
    if name in r.static_ then Some(r.static_[name])
    else if ctx.Some? && name in DynamicBindings(r, ctx.value) then Some(DynamicBindings(r, ctx.value)[name])
    else None
  }

  // ---- the catalog ------------------------------------------------------------------------------

  datatype Entry = Entry(action: string, projections: seq<Projection>, commands: seq<SlashCommand>)

  /** The dynamic commands of one Action, in the order of their names. */
  function CommandsOf(bindings: map<string, Binding>, names: seq<string>, id: string): seq<SlashCommand>
    requires forall n :: n in names ==> n in bindings
  {
    if names == [] then []
    else
      var b := bindings[names[|names| - 1]];
      CommandsOf(bindings, names[..|names| - 1], id) + (if b.action == id then [b.command] else [])
  }

  function DynamicCommands(bindings: map<string, Binding>, id: string): seq<SlashCommand> {
    CommandsOf(bindings, Sorted(bindings.Keys), id)
  }

  function EntryFor(spec: ActionSpec, commands: seq<SlashCommand>): Entry {
    if commands == [] then Entry(spec.id, spec.projections, spec.commands)
    else Entry(spec.id, spec.projections + [Slash], commands)
  }

  predicate Included(spec: ActionSpec, commands: seq<SlashCommand>, namespace: Option<string>,
                     projection: Option<Projection>) {
    && (namespace.Some? ==> spec.namespace == namespace.value)
    && (projection.Some? ==> projection.value in spec.projections || (projection.value == Slash && commands != []))
  }

  function Entries(actions: map<string, ActionSpec>, ids: seq<string>, bindings: map<string, Binding>,
                   namespace: Option<string>, projection: Option<Projection>): seq<Entry>
    requires forall id :: id in ids ==> id in actions
  {
    if ids == [] then []
    else
      var id := ids[|ids| - 1];
      var commands := DynamicCommands(bindings, id);
      Entries(actions, ids[..|ids| - 1], bindings, namespace, projection)
      + (if Included(actions[id], commands, namespace, projection) then [EntryFor(actions[id], commands)] else [])
  }

  function BindingsFor<Ctx>(r: Registry<Ctx>, ctx: Ctx, projection: Option<Projection>): map<string, Binding> {
    if projection in {None, Some(Slash)} then DynamicBindings(r, ctx) else map[]
  }

  function Catalog<Ctx>(r: Registry<Ctx>, ctx: Ctx, namespace: Option<string>,
                        projection: Option<Projection>): seq<Entry> {
    Entries(r.actions, Sorted(r.actions.Keys), BindingsFor(r, ctx, projection), namespace, projection)
  }

  /** A catalog shows a command under an Action. */
  predicate Shows(entries: seq<Entry>, id: string, command: SlashCommand) {
    exists i :: 0 <= i < |entries| && entries[i].action == id && command in entries[i].commands
  }

  // ---- what registration keeps ------------------------------------------------------------------

  ghost predicate ActionsValid(actions: map<string, ActionSpec>) {
    forall id :: id in actions ==> actions[id].id == id && actions[id].Valid()
  }

  /** Every static name belongs to the Action that declares it, */
  ghost predicate NamesDeclared(static_: map<string, Binding>, actions: map<string, ActionSpec>) {
    forall n :: n in static_ ==>
      static_[n].command.name == n && static_[n].action in actions &&
        static_[n].command in actions[static_[n].action].commands
  }

  /** every declared command has its static name, */
  ghost predicate CommandsBound(static_: map<string, Binding>, actions: map<string, ActionSpec>) {
    forall id, c :: id in actions && c in actions[id].commands ==>
        c.name in static_ && static_[c.name] == Binding(id, c)
  }

  /** and an Action with dynamic names declares none. */
  ghost predicate Coherent<Ctx>(r: Registry<Ctx>) {
    && ActionsValid(r.actions) && NamesDeclared(r.static_, r.actions) && CommandsBound(r.static_, r.actions)
    && (forall id :: id in r.dynamic ==> id in r.actions && r.actions[id].commands == [])
  }

  lemma {:induction false} FirstTakenNone(commands: seq<SlashCommand>, taken: map<string, Binding>)
    ensures FirstTaken(commands, taken).None? <==> forall c :: c in commands ==> c.name !in taken
  {
    if commands != [] { FirstTakenNone(commands[1..], taken); }
  }

  lemma {:induction false} BoundAt(taken: map<string, Binding>, id: string, commands: seq<SlashCommand>, n: string)
    requires forall i, j :: 0 <= i < j < |commands| ==> commands[i].name != commands[j].name
    ensures n in Bound(taken, id, commands) <==> n in taken || exists c :: c in commands && c.name == n
    ensures forall c :: c in commands && c.name == n ==> Bound(taken, id, commands)[n] == Binding(id, c)
    ensures n in taken && (forall c :: c in commands ==> c.name != n) ==> Bound(taken, id, commands)[n] == taken[n]
  {
    if commands != [] {
      var init, last := commands[..|commands| - 1], commands[|commands| - 1];
      BoundAt(taken, id, init, n);
      assert commands == init + [last];
      forall c | c in init ensures c.name != last.name {
        var i :| 0 <= i < |init| && init[i] == c;
        assert commands[i] == c;
      }
    }
  }

  /** After binding, a name is the one it was or one of the new commands. */
  ghost predicate BoundTo(old_: map<string, Binding>, new_: map<string, Binding>, id: string,
                          commands: seq<SlashCommand>) {
    && (forall n :: n in old_ ==> n in new_ && new_[n] == old_[n])
    && (forall c :: c in commands ==> c.name in new_ && new_[c.name] == Binding(id, c))
    && (forall n :: n in new_ && n !in old_ ==>
      new_[n].action == id && new_[n].command in commands && new_[n].command.name == n)
  }

  lemma BoundIs(taken: map<string, Binding>, id: string, commands: seq<SlashCommand>)
    requires forall i, j :: 0 <= i < j < |commands| ==> commands[i].name != commands[j].name
    requires forall c :: c in commands ==> c.name !in taken
    ensures BoundTo(taken, Bound(taken, id, commands), id, commands)
  {
    var new_ := Bound(taken, id, commands);
    forall n | n in taken ensures n in new_ && new_[n] == taken[n] { BoundAt(taken, id, commands, n); }
    forall c | c in commands
      ensures c.name in new_ && new_[c.name] == Binding(id, c)
    {
      BoundAt(taken, id, commands, c.name);
    }
    forall n | n in new_ && n !in taken
      ensures new_[n].action == id && new_[n].command in commands && new_[n].command.name == n
    {
      BoundAt(taken, id, commands, n);
    }
  }

  lemma BoundKeeps(old_: map<string, Binding>, new_: map<string, Binding>, actions: map<string, ActionSpec>,
                   spec: ActionSpec)
    requires NamesDeclared(old_, actions) && CommandsBound(old_, actions) && spec.id !in actions
    requires BoundTo(old_, new_, spec.id, spec.commands)
    ensures NamesDeclared(new_, actions[spec.id := spec]) && CommandsBound(new_, actions[spec.id := spec])
  {
  }

  lemma CoherentWith<Ctx>(r: Registry<Ctx>, spec: ActionSpec, new_: map<string, Binding>)
    requires Coherent(r) && spec.Valid() && spec.id !in r.actions && BoundTo(r.static_, new_, spec.id, spec.commands)
    ensures Coherent(r.(actions := r.actions[spec.id := spec], static_ := new_))
  {
    BoundKeeps(r.static_, new_, r.actions, spec);
  }

  /** Registering keeps all of this and never rebinds a static name. */
  lemma RegisterKeepsCoherent<Ctx>(r: Registry<Ctx>, spec: ActionSpec, adapter: bool)
    requires Coherent(r) && spec.Valid()
    ensures Coherent(Registered(r, spec, adapter))
    ensures forall n :: n in r.static_ ==>
            n in Registered(r, spec, adapter).static_ && Registered(r, spec, adapter).static_[n] == r.static_[n]
  {
    if RegisterError(r, spec, adapter).None? {
      FirstTakenNone(spec.commands, r.static_);
      BoundIs(r.static_, spec.id, spec.commands);
      CoherentWith(r, spec, Bound(r.static_, spec.id, spec.commands));
    }
  }

  lemma DynamicKeepsCoherent<Ctx>(r: Registry<Ctx>, id: string, provider: Provider<Ctx>)
    requires Coherent(r)
    ensures Coherent(DynamicRegistered(r, id, provider)) && DynamicRegistered(r, id, provider).static_ == r.static_
  {
  }
}
