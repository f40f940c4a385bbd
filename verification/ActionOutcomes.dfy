/** What typed text reads as, what a registration answers, which dynamic names are bound and what a catalog says of
    each Action, in terms of characters, positions and declared fields. */
module ActionOutcomes {
  import opened Wrappers
  import opened Text
  import opened ActionCatalog
  import opened ActionAgreement
  import opened ActionResolver

  // ---- names and handles --------------------------------------------------------------------------

  /** A lower-case letter, then lower-case letters, digits and hyphens. */
  predicate NameWord(s: string) {
    && s != "" && 'a' <= s[0] <= 'z'
    && forall i :: 1 <= i < |s| ==> 'a' <= s[i] <= 'z' || '0' <= s[i] <= '9' || s[i] == '-'
  }

  lemma WordIs(s: string)
    ensures IsWord(s) <==> NameWord(s)
  {
    if s != "" {
      var tail := s[1..];
      assert forall i :: 1 <= i < |s| ==> s[i] == tail[i - 1];
      if NameWord(s) { assert forall i :: 0 <= i < |tail| ==> tail[i] == s[i + 1]; }
    }
  }

  /** The name of a command: a slash and one word, or two with a colon between. */
  lemma CommandNameIs(n: string)
    ensures IsCommandName(n) <==>
            || (exists a :: NameWord(a) && n == "/" + a)
            || (exists a, b :: NameWord(a) && NameWord(b) && n == "/" + a + ":" + b)
  {
    if IsCommandName(n) {
      if IsWord(n[1..]) {
        OneWord(n);
      } else {
        var i :| 1 <= i < |n| && n[i] == ':' && IsWord(n[1..i]) && IsWord(n[i + 1..]);
        TwoWords(n, i);
      }
    }
    if a :| NameWord(a) && n == "/" + a {
      WordIs(a);
      assert n[1..] == a;
    }
    if a, b :| NameWord(a) && NameWord(b) && n == "/" + a + ":" + b {
      WordIs(a);
      WordIs(b);
      assert n[1..|a| + 1] == a && n[|a| + 2..] == b && n[|a| + 1] == ':';
    }
  }

  lemma OneWord(n: string)
    requires n != "" && n[0] == '/' && IsWord(n[1..])
    ensures exists a :: NameWord(a) && n == "/" + a
  {
    WordIs(n[1..]);
    assert n == "/" + n[1..];
  }

  lemma TwoWords(n: string, i: int)
    requires 1 <= i < |n| && n[0] == '/' && n[i] == ':' && IsWord(n[1..i]) && IsWord(n[i + 1..])
    ensures exists a, b :: NameWord(a) && NameWord(b) && n == "/" + a + ":" + b
  {
    var a, b := n[1..i], n[i + 1..];
    WordIs(a);
    WordIs(b);
    assert n == "/" + a + ":" + b;
  }

  /** `text.replace("_", "")` */
  function Bare(s: string): string {
    if s == "" then "" else (if s[0] == '_' then "" else [s[0]]) + Bare(s[1..])
  }

  lemma {:induction false} BareHas(s: string, c: char)
    ensures c in Bare(s) <==> c in s && c != '_'
  {
    if s != "" {
      BareHas(s[1..], c);
      assert s == [s[0]] + s[1..];
    }
  }

  /** A handle is what is alphanumeric once its underscores are gone: it may have any of them, but not alone. */
  lemma HandleIs(s: string, h: Host)
    ensures IsHandle(s, h) <==> Bare(s) != "" && forall c :: c in Bare(s) ==> h.alnum(c)
  {
    forall c ensures c in Bare(s) <==> c in s && c != '_' { BareHas(s, c); }
    if IsHandle(s, h) {
      var i :| 0 <= i < |s| && s[i] != '_';
      assert s[i] in Bare(s);
    }
    if Bare(s) != "" {
      assert Bare(s)[0] in s && Bare(s)[0] != '_';
    }
    forall i | 0 <= i < |s| && s[i] != '_' ensures s[i] in Bare(s) {}
  }

  /** Text without a character. */
  predicate Without(s: string, c: char) {
    forall i :: 0 <= i < |s| ==> s[i] != c
  }

  lemma {:induction false} LastAt(base: string, suffix: string)
    requires Without(suffix, '@')
    ensures AfterLastAt(base + "@" + suffix) == |base| + 1
  {
    var s := base + "@" + suffix;
    if suffix == "" {
      assert s[|s| - 1] == '@';
    } else {
      assert s[..|s| - 1] == base + "@" + suffix[..|suffix| - 1];
      assert s[|s| - 1] == suffix[|suffix| - 1];
      LastAt(base, suffix[..|suffix| - 1]);
    }
  }

  /** The text up to the first space is the token, in lower case; the trimmed rest are the arguments. From the last `@`
      on the token loses a handle, if a slash begins what is left. */
  lemma TokenSays(raw: string, word: string, rest: string, base: string, suffix: string, h: Host)
    requires Trim(raw) == word + rest && Without(word, ' ') && (rest == "" || rest[0] == ' ')
    ensures Arguments(raw) == if rest == "" then "" else Trim(rest[1..])
    ensures Without(word, '@') ==> Token(raw, h) == h.lower(word)
    ensures word == base + "@" + suffix && Without(suffix, '@') ==>
              Token(raw, h) == h.lower(
                if base != "" && base[0] == '/' && Bare(suffix) != "" && forall c :: c in Bare(suffix) ==> h.alnum(c)
                then base else word)
  {
    TypedText(Trim(raw), word, rest, h);
    if Without(word, '@') { assert AfterLastAt(word) == 0; }
    if word == base + "@" + suffix && Without(suffix, '@') {
      LastAt(base, suffix);
      HandleIs(suffix, h);
      assert word[..|base|] == base && word[|base| + 1..] == suffix;
      assert "/" <= base <==> base != "" && base[0] == '/';
    }
  }

  // ---- registration -------------------------------------------------------------------------------

  /** The first command whose name is taken. */
  predicate FirstDouble(commands: seq<SlashCommand>, taken: map<string, Binding>, i: nat) {
    i < |commands| && commands[i].name in taken && forall j :: 0 <= j < i ==> commands[j].name !in taken
  }

  lemma {:induction false} TakenIs(commands: seq<SlashCommand>, taken: map<string, Binding>, i: nat)
    requires FirstDouble(commands, taken, i)
    ensures FirstTaken(commands, taken) == Some(commands[i].name)
  {
    if i > 0 {
      assert commands[0].name !in taken && commands[1..][i - 1] == commands[i];
      assert forall j :: 0 <= j < i - 1 ==> commands[1..][j] == commands[j + 1];
      TakenIs(commands[1..], taken, i - 1);
    }
  }

  /** A registration is refused for a known id, then for an adapter that is missing or out of place, then for the first
      name that is taken. */
  lemma RegisterAnswers<Ctx>(r: Registry<Ctx>, spec: ActionSpec, adapter: bool, i: nat)
    ensures var answer := RegisterError(r, spec, adapter);
            && (answer == Some(AlreadyRegistered) <==> spec.id in r.actions)
            && (answer == Some(AdapterRequired) <==> spec.id !in r.actions && |spec.commands| > 0 && !adapter)
            && (answer == Some(AdapterNotAllowed) <==> spec.id !in r.actions && |spec.commands| == 0 && adapter)
            && (spec.id !in r.actions && adapter && FirstDouble(spec.commands, r.static_, i) ==>
                  answer == Some(CommandTaken(spec.commands[i].name)))
            && (answer == None <==>
                  && spec.id !in r.actions && (adapter <==> |spec.commands| > 0)
                  && forall c :: c in spec.commands ==> c.name !in r.static_)
  {
    FirstTakenNone(spec.commands, r.static_);
    if FirstDouble(spec.commands, r.static_, i) { TakenIs(spec.commands, r.static_, i); }
  }

  /** An accepted one adds the Action and its names and nothing else; a refused one adds nothing. */
  lemma RegisterAdds<Ctx>(r: Registry<Ctx>, spec: ActionSpec, adapter: bool)
    requires spec.Valid()
    ensures var r' := Registered(r, spec, adapter);
            && r'.dynamic == r.dynamic
            && (RegisterError(r, spec, adapter).Some? ==> r' == r)
            && (RegisterError(r, spec, adapter).None? ==>
                  && r'.actions == r.actions[spec.id := spec]
                  && (forall n :: n in r'.static_ <==> n in r.static_ || exists c :: c in spec.commands && c.name == n)
                  && (forall n :: n in r.static_ ==> r'.static_[n] == r.static_[n])
                  && (forall c :: c in spec.commands ==> r'.static_[c.name] == Binding(spec.id, c)))
  {
    if RegisterError(r, spec, adapter).None? {
      FirstTakenNone(spec.commands, r.static_);
      BoundIs(r.static_, spec.id, spec.commands);
    }
  }

  /** A provider is refused for an unknown Action, then for one with names of its own, then for one that has a provider;
      otherwise it becomes the provider of that Action and nothing else changes. */
  lemma ProviderAnswers<Ctx>(r: Registry<Ctx>, id: string, provider: Provider<Ctx>)
    ensures var answer, r' := DynamicError(r, id), DynamicRegistered(r, id, provider);
            && (answer == Some(NoSuchAction) <==> id !in r.actions)
            && (answer == Some(MixedAliases) <==> id in r.actions && |r.actions[id].commands| > 0)
            && (answer == Some(DynamicAlreadyRegistered) <==>
                  id in r.actions && |r.actions[id].commands| == 0 && id in r.dynamic)
            && (answer == None <==> id in r.actions && |r.actions[id].commands| == 0 && id !in r.dynamic)
            && r'.actions == r.actions && r'.static_ == r.static_
            && r'.dynamic == if answer == None then r.dynamic[id := provider] else r.dynamic
  {
  }

  // ---- dynamic names ------------------------------------------------------------------------------

  /** The provider of an Action offers the name to this caller, at this position of its commands. */
  predicate OffersAt<Ctx>(r: Registry<Ctx>, ctx: Ctx, name: string, id: string, k: int) {
    id in r.dynamic && r.dynamic[id](ctx).Some? && 0 <= k < |r.dynamic[id](ctx).value| &&
    r.dynamic[id](ctx).value[k].name == name
  }

  predicate OnlyAt(commands: seq<SlashCommand>, name: string, k: nat) {
    k < |commands| && commands[k].name == name
    && forall j :: 0 <= j < |commands| && commands[j].name == name ==> j == k
  }

  lemma {:induction false} OnceGivesOne(id: string, commands: seq<SlashCommand>, taken: map<string, Binding>,
                                        name: string, k: nat)
    requires name !in taken && OnlyAt(commands, name, k)
    ensures OffersOf(Unreserved(id, commands, taken), name) == [Binding(id, commands[k])]
  {
    var init := commands[..|commands| - 1];
    UnreservedMore(id, commands, taken, name);
    if k == |init| {
      NoOffer(id, init, taken, name);
    } else {
      OnceGivesOne(id, init, taken, name, k);
    }
  }

  lemma {:induction false} TwiceGivesTwo(id: string, commands: seq<SlashCommand>, taken: map<string, Binding>,
                                         name: string, j: nat, k: nat)
    requires name !in taken && j < k < |commands| && commands[j].name == name && commands[k].name == name
    ensures |OffersOf(Unreserved(id, commands, taken), name)| >= 2
  {
    var init := commands[..|commands| - 1];
    UnreservedMore(id, commands, taken, name);
    if k == |init| {
      UnreservedAre(id, init, taken, Binding(id, commands[j]));
      assert init[j] == commands[j];
      OffersAre(Unreserved(id, init, taken), name, Binding(id, commands[j]));
    } else {
      TwiceGivesTwo(id, init, taken, name, j, k);
    }
  }

  lemma {:induction false} EachCounts<Ctx>(r: Registry<Ctx>, ids: seq<string>, ctx: Ctx, name: string, id: string)
    requires (forall i :: i in ids ==> i in r.dynamic) && id in ids
    ensures |OffersOf(OfferedByEach(r, ids, ctx), name)| >= |OffersOf(OfferedBy(r, id, ctx), name)|
  {
    var init, last := ids[..|ids| - 1], ids[|ids| - 1];
    OffersAppend(OfferedByEach(r, init, ctx), OfferedBy(r, last, ctx), name);
    assert ids == init + [last];
    if id != last { EachCounts(r, init, ctx, name, id); }
  }

  lemma OfferedOnceIsBound<Ctx>(r: Registry<Ctx>, ctx: Ctx, name: string, id: string, k: int)
    requires name !in r.static_ && OffersAt(r, ctx, name, id, k)
    requires forall x, j :: OffersAt(r, ctx, name, x, j) ==> x == id && j == k
    ensures Lookup(r, name, Some(ctx)) == Some(Binding(id, r.dynamic[id](ctx).value[k]))
  {
    var commands := r.dynamic[id](ctx).value;
    forall other, d | Offers(r, other, ctx, d) && d.name == name ensures other == id {
      var j :| 0 <= j < |r.dynamic[other](ctx).value| && r.dynamic[other](ctx).value[j] == d;
      assert OffersAt(r, ctx, name, other, j);
    }
    OneActionOffers(r, ctx, name, id);
    forall j | 0 <= j < |commands| && commands[j].name == name ensures j == k {
      assert OffersAt(r, ctx, name, id, j);
    }
    OnceGivesOne(id, commands, r.static_, name, k);
    OnlyOffer(r, ctx, Binding(id, commands[k]));
  }

  lemma OfferedTwiceIsNot<Ctx>(r: Registry<Ctx>, ctx: Ctx, name: string, id: string, j: int, other: string, k: int)
    requires name !in r.static_ && OffersAt(r, ctx, name, id, j) && OffersAt(r, ctx, name, other, k)
    requires id != other || j < k
    ensures Lookup(r, name, Some(ctx)) == None
  {
    var c, d := r.dynamic[id](ctx).value[j], r.dynamic[other](ctx).value[k];
    if id != other {
      TwoOffersHide(r, ctx, id, c, other, d);
    } else {
      TwiceGivesTwo(id, r.dynamic[id](ctx).value, r.static_, name, j, k);
      EachCounts(r, Sorted(r.dynamic.Keys), ctx, name, id);
    }
  }

  lemma BoundOffer<Ctx>(r: Registry<Ctx>, ctx: Ctx, name: string) returns (id: string, k: int)
    requires name !in r.static_ && Lookup(r, name, Some(ctx)).Some?
    ensures OffersAt(r, ctx, name, id, k) && forall x, j :: OffersAt(r, ctx, name, x, j) ==> x == id && j == k
    ensures Lookup(r, name, Some(ctx)).value == Binding(id, r.dynamic[id](ctx).value[k])
  {
    DynamicNameIs(r, ctx, name);
    var b := Lookup(r, name, Some(ctx)).value;
    id := b.action;
    k :| 0 <= k < |r.dynamic[id](ctx).value| && r.dynamic[id](ctx).value[k] == b.command;
    forall x, j | OffersAt(r, ctx, name, x, j) ensures x == id && j == k {
      if x != id || j < k { OfferedTwiceIsNot(r, ctx, name, x, j, id, k); }
      if x == id && k < j { OfferedTwiceIsNot(r, ctx, name, x, k, x, j); }
    }
  }

  /** A name that is not static is bound, for one caller, exactly if it is offered to that caller at one position of one
      provider; it is bound to what is there. */
  lemma BoundExactly<Ctx>(r: Registry<Ctx>, ctx: Ctx, name: string)
    requires name !in r.static_
    ensures Lookup(r, name, Some(ctx)).Some? <==>
            exists id, k :: OffersAt(r, ctx, name, id, k)
                            && forall x, j :: OffersAt(r, ctx, name, x, j) ==> x == id && j == k
    ensures forall id, k :: OffersAt(r, ctx, name, id, k) && Lookup(r, name, Some(ctx)).Some? ==>
              Lookup(r, name, Some(ctx)).value == Binding(id, r.dynamic[id](ctx).value[k])
  {
    if Lookup(r, name, Some(ctx)).Some? { var id, k := BoundOffer(r, ctx, name); }
    if id, k :| OffersAt(r, ctx, name, id, k) && (forall x, j :: OffersAt(r, ctx, name, x, j) ==> x == id && j == k) {
      OfferedOnceIsBound(r, ctx, name, id, k);
    }
  }

  /** A static name is bound to what it was registered for, with or without a caller; without one nothing else is. */
  lemma StaticFirst<Ctx>(r: Registry<Ctx>, name: string, ctx: Option<Ctx>)
    ensures name in r.static_ ==> Lookup(r, name, ctx) == Some(r.static_[name])
    ensures name !in r.static_ && ctx.None? ==> Lookup(r, name, ctx) == None
  {
  }

  // ---- the catalog --------------------------------------------------------------------------------

  predicate Lists(entries: seq<Entry>, id: string) {
    exists i :: 0 <= i < |entries| && entries[i].action == id
  }

  /** A name of this Action is bound for this caller, but not by registration. */
  ghost predicate HasDynamic<Ctx>(r: Registry<Ctx>, ctx: Ctx, id: string) {
    exists n :: n !in r.static_ && Lookup(r, n, Some(ctx)).Some? && Lookup(r, n, Some(ctx)).value.action == id
  }

  lemma {:induction false} EntriesList(actions: map<string, ActionSpec>, ids: seq<string>,
                                       bindings: map<string, Binding>, namespace: Option<string>,
                                       projection: Option<Projection>, id: string)
    requires ActionsValid(actions) && forall i :: i in ids ==> i in actions
    ensures Lists(Entries(actions, ids, bindings, namespace, projection), id) <==>
            id in ids && Included(actions[id], DynamicCommands(bindings, id), namespace, projection)
  {
    if ids != [] {
      var init, last := ids[..|ids| - 1], ids[|ids| - 1];
      EntriesList(actions, init, bindings, namespace, projection, id);
      InitAndLast(ids, id);
      ListsMore(actions, ids, bindings, namespace, projection, id);
    }
  }

  lemma InitAndLast(ids: seq<string>, id: string)
    requires ids != []
    ensures id in ids <==> id in ids[..|ids| - 1] || id == ids[|ids| - 1]
  {
    assert ids == ids[..|ids| - 1] + [ids[|ids| - 1]];
  }

  lemma ListsMore(actions: map<string, ActionSpec>, ids: seq<string>, bindings: map<string, Binding>,
                  namespace: Option<string>, projection: Option<Projection>, id: string)
    requires ids != [] && ActionsValid(actions) && forall i :: i in ids ==> i in actions
    ensures var init, last := ids[..|ids| - 1], ids[|ids| - 1];
            Lists(Entries(actions, ids, bindings, namespace, projection), id) <==>
            || Lists(Entries(actions, init, bindings, namespace, projection), id)
            || (id == last && Included(actions[last], DynamicCommands(bindings, last), namespace, projection))
  {
    var init, last := ids[..|ids| - 1], ids[|ids| - 1];
    var before, e := Entries(actions, init, bindings, namespace, projection),
        EntryFor(actions[last], DynamicCommands(bindings, last));
    if Included(actions[last], DynamicCommands(bindings, last), namespace, projection) {
      assert Entries(actions, ids, bindings, namespace, projection) == before + [e];
      ListsOneMore(before, e, id);
    } else {
      assert Entries(actions, ids, bindings, namespace, projection) == before;
    }
  }

  lemma {:induction false} EntriesAre(actions: map<string, ActionSpec>, ids: seq<string>,
                                      bindings: map<string, Binding>, namespace: Option<string>,
                                      projection: Option<Projection>, e: Entry)
    requires ActionsValid(actions) && forall i :: i in ids ==> i in actions
    requires e in Entries(actions, ids, bindings, namespace, projection)
    ensures e.action in ids && e == EntryFor(actions[e.action], DynamicCommands(bindings, e.action))
  {
    var init, last := ids[..|ids| - 1], ids[|ids| - 1];
    assert ids == init + [last];
    if e in Entries(actions, init, bindings, namespace, projection) {
      EntriesAre(actions, init, bindings, namespace, projection, e);
    }
  }

  lemma ListsOneMore(entries: seq<Entry>, e: Entry, id: string)
    ensures Lists(entries + [e], id) <==> Lists(entries, id) || e.action == id
  {
    if i :| 0 <= i < |entries| && entries[i].action == id { assert (entries + [e])[i] == entries[i]; }
    assert (entries + [e])[|entries|] == e;
  }

  lemma {:induction false} NoneOfIt(bindings: map<string, Binding>, names: seq<string>, id: string)
    requires forall n :: n in names ==> n in bindings
    ensures CommandsOf(bindings, names, id) == [] <==> forall n :: n in names ==> bindings[n].action != id
  {
    if names != [] {
      NoneOfIt(bindings, names[..|names| - 1], id);
      assert names == names[..|names| - 1] + [names[|names| - 1]];
    }
  }

  lemma DynamicIs<Ctx>(r: Registry<Ctx>, ctx: Ctx, id: string)
    ensures DynamicCommands(DynamicBindings(r, ctx), id) != [] <==> HasDynamic(r, ctx, id)
  {
    var bindings := DynamicBindings(r, ctx);
    NoneOfIt(bindings, Sorted(bindings.Keys), id);
    if DynamicCommands(bindings, id) != [] {
      var n :| n in Sorted(bindings.Keys) && bindings[n].action == id;
      DynamicNameIs(r, ctx, n);
      assert Lookup(r, n, Some(ctx)) == Some(bindings[n]);
    }
    if HasDynamic(r, ctx, id) {
      var n :| n !in r.static_ && Lookup(r, n, Some(ctx)).Some? && Lookup(r, n, Some(ctx)).value.action == id;
      assert n in bindings && bindings[n].action == id && n in Sorted(bindings.Keys);
    }
  }

  /** Which Actions are listed: those of the namespace, if one is asked for, that have the projection, if one is asked
      for; for slash, also those with a dynamic name. */
  lemma CatalogLists<Ctx>(r: Registry<Ctx>, ctx: Ctx, namespace: Option<string>, projection: Option<Projection>,
                          id: string)
    requires ActionsValid(r.actions)
    ensures Lists(Catalog(r, ctx, namespace, projection), id) <==>
            && id in r.actions && (namespace.None? || r.actions[id].namespace == namespace.value)
            && (projection.None? || projection.value in r.actions[id].projections
                || (projection == Some(Slash) && HasDynamic(r, ctx, id)))
  {
    EntriesList(r.actions, Sorted(r.actions.Keys), BindingsFor(r, ctx, projection), namespace, projection, id);
    DynamicIs(r, ctx, id);
  }

  predicate NamesAscend(commands: seq<SlashCommand>) {
    forall i, j :: 0 <= i < j < |commands| ==>
      Leq(commands[i].name, commands[j].name) && commands[i].name != commands[j].name
  }

  lemma {:induction false} CommandsAscend(bindings: map<string, Binding>, names: seq<string>, id: string)
    requires (forall n :: n in names ==> n in bindings && bindings[n].command.name == n) && Ascending(names)
    ensures var commands := CommandsOf(bindings, names, id);
            NamesAscend(commands) && forall c :: c in commands ==> c.name in names
  {
    if names != [] {
      var init, last := names[..|names| - 1], names[|names| - 1];
      AscendingInit(names, init, last);
      CommandsAscend(bindings, init, id);
    }
  }

  lemma DynamicAscend<Ctx>(r: Registry<Ctx>, ctx: Ctx, id: string)
    ensures NamesAscend(DynamicCommands(DynamicBindings(r, ctx), id))
  {
    var bindings := DynamicBindings(r, ctx);
    var names := Sorted(bindings.Keys);
    forall n | n in bindings ensures bindings[n].command.name == n { DynamicNameIs(r, ctx, n); }
    forall i, j | 0 <= i < j < |names| ensures Leq(names[i], names[j]) && names[i] != names[j] {
      SortedAscends(bindings.Keys, i, j);
    }
    CommandsAscend(bindings, names, id);
  }

  lemma DynamicListed<Ctx>(r: Registry<Ctx>, ctx: Ctx, id: string, c: SlashCommand)
    ensures c in DynamicCommands(DynamicBindings(r, ctx), id) <==>
            c.name !in r.static_ && Lookup(r, c.name, Some(ctx)) == Some(Binding(id, c))
  {
    DynamicCommandsAre(r, ctx, id, c);
    if c.name in DynamicBindings(r, ctx) { DynamicNameIs(r, ctx, c.name); }
  }

  /** What is listed of an Action: its own projections and commands, in the order in which they were declared; but if it
      has dynamic names and slash is looked at, slash as well, and the commands with those names in their order. */
  lemma EntrySays<Ctx>(r: Registry<Ctx>, ctx: Ctx, namespace: Option<string>, projection: Option<Projection>, e: Entry)
    requires ActionsValid(r.actions) && e in Catalog(r, ctx, namespace, projection)
    ensures e.action in r.actions
    ensures if (projection.None? || projection == Some(Slash)) && HasDynamic(r, ctx, e.action)
            then e.projections == r.actions[e.action].projections + [Slash] && NamesAscend(e.commands)
                 && forall c :: c in e.commands <==>
                                c.name !in r.static_ && Lookup(r, c.name, Some(ctx)) == Some(Binding(e.action, c))
            else e.projections == r.actions[e.action].projections && e.commands == r.actions[e.action].commands
  {
    var bindings := BindingsFor(r, ctx, projection);
    EntriesAre(r.actions, Sorted(r.actions.Keys), bindings, namespace, projection, e);
    DynamicIs(r, ctx, e.action);
    if (projection.None? || projection == Some(Slash)) && HasDynamic(r, ctx, e.action) {
      DynamicAscend(r, ctx, e.action);
      forall c { DynamicListed(r, ctx, e.action, c); }
    } else {
      var none: map<string, Binding> := map[];
      assert Sorted(none.Keys) == [];
    }
  }
}
