/** From typed text to an Action, and the registry whose methods do it. */
module ActionResolver {
  import opened Wrappers
  import opened Text
  import opened ActionCatalog
  import opened ActionAgreement

  /** Case mapping and character classes of the host's strings, and the argument parser. */
  datatype Host = Host(lower: string -> string, alnum: char -> bool,
    parse: (SlashCommand, string) -> Result<seq<string>, SlashError>)

  datatype SlashError = CommandNotFound | ArgumentsNotAllowed | ArgumentsRefused(code: string)

  /** Lower-casing leaves the name of a command alone. */
  ghost predicate Lawful(h: Host) {
    (forall n :: IsCommandName(n) ==> h.lower(n) == n) && !h.alnum(' ') && !h.alnum('@')
  }

  // ---- the token --------------------------------------------------------------------------------

  /** The position of the first space, or the length. */
  function FirstSpace(s: string): (i: nat)
    ensures i <= |s| && (i < |s| ==> s[i] == ' ') && forall j :: 0 <= j < i ==> s[j] != ' '
  {
    if s == "" || s[0] == ' ' then 0 else 1 + FirstSpace(s[1..])
  }

  /** The position after the last `@`, or 0. */
  function AfterLastAt(s: string): (i: nat)
    ensures i <= |s| && (i > 0 ==> s[i - 1] == '@') && forall j :: i <= j < |s| ==> s[j] != '@'
  {
    if s == "" then 0 else if s[|s| - 1] == '@' then |s| else AfterLastAt(s[..|s| - 1])
  }

  /** Letters, digits and underscores, not underscores alone. */
  predicate IsHandle(s: string, h: Host) {
    (forall i :: 0 <= i < |s| ==> s[i] == '_' || h.alnum(s[i])) && exists i :: 0 <= i < |s| && s[i] != '_'
  }

  function TokenOf(s: string, h: Host): string {
    var token := s[..FirstSpace(s)];
    var at := AfterLastAt(token);
    h.lower(if at > 0 && "/" <= token[..at - 1] && IsHandle(token[at..], h) then token[..at - 1] else token)
  }

  function ArgumentsOf(s: string): string {
    if FirstSpace(s) == |s| then "" else Trim(s[FirstSpace(s) + 1..])
  }

  function Token(raw: string, h: Host): string { TokenOf(Trim(raw), h) }

  function Arguments(raw: string): string { ArgumentsOf(Trim(raw)) }

  datatype Resolved = Resolved(binding: Binding, args: string, parsed: seq<string>)

  function Resolve<Ctx>(r: Registry<Ctx>, raw: string, ctx: Option<Ctx>, h: Host): Result<Resolved, SlashError> {
    var binding := Lookup(r, Token(raw, h), ctx);
    if binding.None? then Err(CommandNotFound)
    else if Arguments(raw) != "" && !binding.value.command.acceptsArgs then Err(ArgumentsNotAllowed)
    else
      var parsed := h.parse(binding.value.command, Arguments(raw));
      if parsed.Err? then Err(parsed.error) else Ok(Resolved(binding.value, Arguments(raw), parsed.value))
  }

  /** A word of a name has no space, no `@` and is lower case. */
  lemma NameCharacters(n: string)
    requires IsCommandName(n)
    ensures forall i :: 0 <= i < |n| ==> n[i] != ' ' && n[i] != '@'
  {
    if IsWord(n[1..]) {
      forall i | 0 <= i < |n| ensures n[i] != ' ' && n[i] != '@' {
        if i > 1 { assert n[i] == n[1..][1..][i - 2]; }
      }
    } else {
      var k :| 1 <= k < |n| && n[k] == ':' && IsWord(n[1..k]) && IsWord(n[k + 1..]);
      forall i | 0 <= i < |n| ensures n[i] != ' ' && n[i] != '@' {
        if 1 < i < k { assert n[i] == n[1..k][1..][i - 2]; }
        if i == 1 { assert n[i] == n[1..k][0]; }
        if i == k + 1 { assert n[i] == n[k + 1..][0]; }
        if i > k + 1 { assert n[i] == n[k + 1..][1..][i - k - 2]; }
      }
    }
  }

  lemma {:induction false} FirstSpaceIs(a: string, b: string)
    requires (forall i :: 0 <= i < |a| ==> a[i] != ' ') && (b == "" || b[0] == ' ')
    ensures FirstSpace(a + b) == |a|
  {
    if a == "" {
      assert a + b == b;
    } else {
      assert (a + b)[1..] == a[1..] + b;
      FirstSpaceIs(a[1..], b);
    }
  }

  lemma HandleCharacters(mention: string, h: Host)
    requires Lawful(h) && mention != "" && mention[0] == '@' && IsHandle(mention[1..], h)
    ensures forall i :: 0 <= i < |mention| ==> mention[i] != ' ' && (i > 0 ==> mention[i] != '@')
  {
    assert forall i :: 0 < i < |mention| ==> mention[i] == mention[1..][i - 1];
  }

  lemma TokenAlone(n: string, mention: string, h: Host)
    requires Lawful(h) && IsCommandName(n)
    requires mention == "" || (mention[0] == '@' && IsHandle(mention[1..], h))
    ensures var token := n + mention;
            var at := AfterLastAt(token);
            && (forall i :: 0 <= i < |token| ==> token[i] != ' ')
            && (if at > 0 && "/" <= token[..at - 1] && IsHandle(token[at..], h) then token[..at - 1] else token) == n
  {
    NameCharacters(n);
    var token := n + mention;
    var at := AfterLastAt(token);
    if mention == "" {
      assert token == n && at == 0;
    } else {
      HandleCharacters(mention, h);
      assert token[|n|] == '@' && token[|n| + 1..] == mention[1..];
      assert at == |n| + 1;
      assert token[..|n|] == n && n[0] == '/' && "/" <= n;
    }
  }

  /** A name typed with a handle after it, and text after a space, reads as the name. */
  lemma TypedName(raw: string, n: string, mention: string, rest: string, h: Host)
    requires Lawful(h) && IsCommandName(n) && Trim(raw) == n + mention + rest
    requires mention == "" || (mention[0] == '@' && IsHandle(mention[1..], h))
    requires rest == "" || rest[0] == ' '
    ensures Token(raw, h) == n
    ensures Arguments(raw) == if rest == "" then "" else Trim(rest[1..])
  {
    TokenAlone(n, mention, h);
    TypedText(Trim(raw), n + mention, rest, h);
  }

  lemma TypedText(s: string, token: string, rest: string, h: Host)
    requires s == token + rest && (rest == "" || rest[0] == ' ') && forall i :: 0 <= i < |token| ==> token[i] != ' '
    ensures s[..FirstSpace(s)] == token
    ensures ArgumentsOf(s) == if rest == "" then "" else Trim(rest[1..])
  {
    FirstSpaceIs(token, rest);
    assert rest != "" ==> s[|token| + 1..] == rest[1..];
  }

  // ---- agreement of what is listed and what can be typed ------------------------------------------

  /** Whatever text is resolved, its command is listed for the caller, under that Action alone. */
  lemma ResolvedIsListed<Ctx>(r: Registry<Ctx>, raw: string, ctx: Ctx, h: Host, projection: Option<Projection>)
    requires Coherent(r) && projection in {None, Some(Slash)} && Resolve(r, raw, Some(ctx), h).Ok?
    ensures var b := Resolve(r, raw, Some(ctx), h).value.binding;
            && Shows(Catalog(r, ctx, None, projection), b.action, b.command)
            && forall other :: Shows(Catalog(r, ctx, None, projection), other, b.command) ==> other == b.action
  {
    var b := Resolve(r, raw, Some(ctx), h).value.binding;
    LookupIsNamed(r, ctx, Token(raw, h));
    ListedIffBound(r, ctx, None, projection, b.action, b.command);
    forall other | Shows(Catalog(r, ctx, None, projection), other, b.command) ensures other == b.action {
      ListedIffBound(r, ctx, None, projection, other, b.command);
    }
  }

  lemma LookupIsNamed<Ctx>(r: Registry<Ctx>, ctx: Ctx, name: string)
    requires Coherent(r) && Lookup(r, name, Some(ctx)).Some?
    ensures var b := Lookup(r, name, Some(ctx)).value; b.command.name == name && b.action in r.actions
  {
    if name !in r.static_ { DynamicNameIs(r, ctx, name); }
  }

  /** A listed command is found when its name is typed, with or without a handle, and is refused only
      for its arguments. */
  lemma ListedIsResolved<Ctx>(r: Registry<Ctx>, ctx: Ctx, h: Host, projection: Option<Projection>, id: string,
                              c: SlashCommand,
                              raw: string, mention: string, rest: string)
    requires Coherent(r) && Lawful(h) && projection in {None, Some(Slash)} &&
             Shows(Catalog(r, ctx, None, projection), id, c)
    requires Trim(raw) == c.name + mention + rest
    requires mention == "" || (mention[0] == '@' && IsHandle(mention[1..], h))
    requires rest == "" || rest[0] == ' '
    ensures var args := if rest == "" then "" else Trim(rest[1..]);
            if args != "" && !c.acceptsArgs then Resolve(r, raw, Some(ctx), h) == Err(ArgumentsNotAllowed)
            else match h.parse(c, args)
                 case Ok(parsed) => Resolve(r, raw, Some(ctx), h) == Ok(Resolved(Binding(id, c), args, parsed))
                 case Err(e) => Resolve(r, raw, Some(ctx), h) == Err(e)
  {
    TypedName(raw, c.name, mention, rest, h);
    ListedIffBound(r, ctx, None, projection, id, c);
    ResolveFound(r, raw, ctx, h, Binding(id, c), if rest == "" then "" else Trim(rest[1..]));
  }

  lemma ResolveFound<Ctx>(r: Registry<Ctx>, raw: string, ctx: Ctx, h: Host, b: Binding, args: string)
    requires Lookup(r, Token(raw, h), Some(ctx)) == Some(b) && Arguments(raw) == args
    ensures if args != "" && !b.command.acceptsArgs then Resolve(r, raw, Some(ctx), h) == Err(ArgumentsNotAllowed)
            else match h.parse(b.command, args)
                 case Ok(parsed) => Resolve(r, raw, Some(ctx), h) == Ok(Resolved(b, args, parsed))
                 case Err(e) => Resolve(r, raw, Some(ctx), h) == Err(e)
  {
  }

  // ---- the registry -----------------------------------------------------------------------------

  class ActionRegistry<!Ctx> {
    var actions: map<string, ActionSpec>
    var slashCommands: map<string, Binding>
    var dynamicSlash: map<string, Provider<Ctx>>

    ghost function State(): Registry<Ctx>
      reads this
    {
      Registry(actions, slashCommands, dynamicSlash)
    }

    constructor ()
      ensures State() == Registry(map[], map[], map[]) && Coherent(State())
    {
      actions, slashCommands, dynamicSlash := map[], map[], map[];
    }

    method Register(spec: ActionSpec, adapter: bool) returns (error: Option<RegistrationError>)
      requires Coherent(State()) && spec.Valid()
      modifies this
      ensures error == RegisterError(old(State()), spec, adapter)
      ensures State() == Registered(old(State()), spec, adapter) && Coherent(State())
    {
      RegisterKeepsCoherent(State(), spec, adapter);
      if spec.id in actions { return Some(AlreadyRegistered); }
      if spec.commands != [] && !adapter { return Some(AdapterRequired); }
      if spec.commands == [] && adapter { return Some(AdapterNotAllowed); }
      var duplicate := FirstTaken(spec.commands, slashCommands);
      if duplicate.Some? { return Some(CommandTaken(duplicate.value)); }
      actions := actions[spec.id := spec];
      BindCommands(spec.id, spec.commands);
      error := None;
    }

    method BindCommands(id: string, commands: seq<SlashCommand>)
      modifies `slashCommands
      ensures slashCommands == Bound(old(slashCommands), id, commands)
    {
      for i := 0 to |commands|
        invariant slashCommands == Bound(old(slashCommands), id, commands[..i])
      {
        assert commands[..i + 1][..i] == commands[..i];
        slashCommands := slashCommands[commands[i].name := Binding(id, commands[i])];
      }
      assert commands[..|commands|] == commands;
    }

    method RegisterDynamicSlash(id: string, provider: Provider<Ctx>) returns (error: Option<RegistrationError>)
      requires Coherent(State())
      modifies this
      ensures error == DynamicError(old(State()), id)
      ensures State() == DynamicRegistered(old(State()), id, provider) && Coherent(State())
    {
      if id !in actions { return Some(NoSuchAction); }
      if actions[id].commands != [] { return Some(MixedAliases); }
      if id in dynamicSlash { return Some(DynamicAlreadyRegistered); }
      dynamicSlash := dynamicSlash[id := provider];
      error := None;
    }

    /** Adds what one Action offers to the candidates, which are grouped by name. */
    method AddCandidates(candidates: map<string, seq<Binding>>, ghost done: seq<Binding>, id: string,
                         commands: seq<SlashCommand>)
      returns (more: map<string, seq<Binding>>, ghost all: seq<Binding>)
      requires Grouped(candidates, done)
      ensures Grouped(more, all) && all == done + Unreserved(id, commands, slashCommands)
    {
      more, all := candidates, done;
      for j := 0 to |commands|
        invariant Grouped(more, all) && all == done + Unreserved(id, commands[..j], slashCommands)
      {
        UnreservedNext(id, commands, j, slashCommands, done);
        var command := commands[j];
        if command.name !in slashCommands {
          ghost var more0, all0 := more, all;
          var group := if command.name in more then more[command.name] else [];
          more := more[command.name := group + [Binding(id, command)]];
          all := all + [Binding(id, command)];
          GroupedMore(more0, all0, Binding(id, command), more, all);
        }
      }
      assert commands[..|commands|] == commands;
    }

    /** A provider that fails offers nothing. */
    method DynamicCommandBindings(ctx: Ctx) returns (bindings: map<string, Binding>)
      ensures bindings == DynamicBindings(State(), ctx)
    {
      var candidates: map<string, seq<Binding>> := map[];
      ghost var done: seq<Binding> := [];
      var ids := Sorted(dynamicSlash.Keys);
      for i := 0 to |ids|
        invariant Grouped(candidates, done) && done == OfferedByEach(State(), ids[..i], ctx)
      {
        assert ids[..i + 1][..i] == ids[..i] && ids[i] in ids;
        var offered := dynamicSlash[ids[i]](ctx);
        if offered.Some? {
          candidates, done := AddCandidates(candidates, done, ids[i], offered.value);
        }
      }
      assert ids[..|ids|] == ids;
      GroupsGiveBindings(State(), ctx, candidates);
      bindings := map name | name in candidates && |candidates[name]| == 1 :: candidates[name][0];
    }

    method Catalog(ctx: Ctx, namespace: Option<string>, projection: Option<Projection>) returns (items: seq<Entry>)
      ensures items == ActionCatalog.Catalog(State(), ctx, namespace, projection)
    {
      var bindings: map<string, Binding> := map[];
      if projection == None || projection == Some(Slash) { bindings := DynamicCommandBindings(ctx); }
      items := ListEntries(Sorted(actions.Keys), bindings, namespace, projection);
    }

    method ListEntries(ids: seq<string>, bindings: map<string, Binding>, namespace: Option<string>,
                       projection: Option<Projection>)
      returns (items: seq<Entry>)
      requires forall id :: id in ids ==> id in actions
      ensures items == Entries(actions, ids, bindings, namespace, projection)
    {
      items := [];
      for i := 0 to |ids|
        invariant items == Entries(actions, ids[..i], bindings, namespace, projection)
      {
        NextEntry(actions, ids, i, bindings, namespace, projection);
        var spec := actions[ids[i]];
        var commands := DynamicCommands(bindings, ids[i]);
        if namespace.Some? && spec.namespace != namespace.value { continue; }
        if projection.Some? && projection.value !in spec.projections &&
            !(projection.value == Slash && commands != []) { continue; }
        items := items + [EntryFor(spec, commands)];
      }
      assert ids[..|ids|] == ids;
    }

    method ResolveSlash(raw: string, ctx: Option<Ctx>, h: Host) returns (resolved: Result<Resolved, SlashError>)
      ensures resolved == Resolve(State(), raw, ctx, h)
    {
      var token := Token(raw, h);
      var binding := if token in slashCommands then Some(slashCommands[token]) else None;
      if binding == None && ctx.Some? {
        var dynamic := DynamicCommandBindings(ctx.value);
        binding := if token in dynamic then Some(dynamic[token]) else None;
      }
      if binding == None { return Err(CommandNotFound); }
      var command, args := binding.value.command, Arguments(raw);
      if args != "" && !command.acceptsArgs { return Err(ArgumentsNotAllowed); }
      var parsed := h.parse(command, args);
      if parsed.Err? { return Err(parsed.error); }
      resolved := Ok(Resolved(binding.value, args, parsed.value));
    }
  }

  ghost predicate Grouped(candidates: map<string, seq<Binding>>, done: seq<Binding>) {
    candidates.Keys == Names(done) && forall n :: n in candidates ==> candidates[n] == OffersOf(done, n)
  }

  lemma NextEntry(actions: map<string, ActionSpec>, ids: seq<string>, i: nat, bindings: map<string, Binding>,
                  namespace: Option<string>, projection: Option<Projection>)
    requires i < |ids| && forall id :: id in ids ==> id in actions
    ensures ids[i] in ids
    ensures var commands := DynamicCommands(bindings, ids[i]);
            Entries(actions, ids[..i + 1], bindings, namespace, projection) ==
              Entries(actions, ids[..i], bindings, namespace, projection)
              + (if Included(actions[ids[i]], commands, namespace, projection)
                then [EntryFor(actions[ids[i]], commands)] else [])
  {
    assert ids[..i + 1][..i] == ids[..i];
  }

  lemma UnreservedNext(id: string, commands: seq<SlashCommand>, j: nat, taken: map<string, Binding>, done: seq<Binding>)
    requires j < |commands|
    ensures done + Unreserved(id, commands[..j + 1], taken) ==
              done + Unreserved(id, commands[..j], taken) +
                (if commands[j].name in taken then [] else [Binding(id, commands[j])])
  {
    assert commands[..j + 1][..j] == commands[..j];
  }

  lemma GroupsGiveBindings<Ctx>(r: Registry<Ctx>, ctx: Ctx, candidates: map<string, seq<Binding>>)
    requires Grouped(candidates, Offered(r, ctx))
    ensures DynamicBindings(r, ctx) == map name | name in candidates && |candidates[name]| == 1 :: candidates[name][0]
  {
  }

  lemma GroupedMore(candidates: map<string, seq<Binding>>, done: seq<Binding>, b: Binding,
                    more: map<string, seq<Binding>>, all: seq<Binding>)
    requires Grouped(candidates, done) && all == done + [b]
    requires more == candidates[b.command.name := (if b.command.name in candidates then candidates[b.command.name]
             else []) + [b]]
    ensures Grouped(more, all)
  {
    assert all[..|done|] == done;
    assert Names(all) == Names(done) + {b.command.name};
    OffersAre(done, b.command.name, b);
    forall n ensures OffersOf(all, n) == OffersOf(done, n) + (if b.command.name == n then [b] else []) {}
  }
}
