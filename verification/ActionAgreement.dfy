/** The catalog a caller sees and the commands the resolver finds for that caller are the same. */
module ActionAgreement {
  import opened Wrappers
  import opened Text
  import opened ActionCatalog

  // ---- dynamic names ----------------------------------------------------------------------------

  lemma {:induction false} OffersAre(bs: seq<Binding>, name: string, b: Binding)
    ensures b in OffersOf(bs, name) <==> b in bs && b.command.name == name
    ensures OffersOf(bs, name) != [] <==> name in Names(bs)
  {
    if bs != [] {
      var init, last := bs[..|bs| - 1], bs[|bs| - 1];
      OffersAre(init, name, b);
      assert bs == init + [last];
      assert Names(bs) == Names(init) + {last.command.name};
    }
  }

  lemma {:induction false} OffersAppend(a: seq<Binding>, b: seq<Binding>, name: string)
    ensures OffersOf(a + b, name) == OffersOf(a, name) + OffersOf(b, name)
  {
    if b == [] {
      assert a + b == a;
    } else {
      assert (a + b)[..|a + b| - 1] == a + b[..|b| - 1];
      OffersAppend(a, b[..|b| - 1], name);
    }
  }

  lemma {:induction false} UnreservedAre(id: string, commands: seq<SlashCommand>, taken: map<string, Binding>,
                                         b: Binding)
    ensures b in Unreserved(id, commands, taken)
            <==> b.action == id && b.command in commands && b.command.name !in taken
  {
    if commands != [] {
      UnreservedAre(id, commands[..|commands| - 1], taken, b);
      assert commands == commands[..|commands| - 1] + [commands[|commands| - 1]];
    }
  }

  /** A provider of this caller offers a command, and no static command has its name. */
  predicate Offers<Ctx>(r: Registry<Ctx>, id: string, ctx: Ctx, c: SlashCommand) {
    id in r.dynamic && r.dynamic[id](ctx).Some? && c in r.dynamic[id](ctx).value && c.name !in r.static_
  }

  lemma {:induction false} EachOffers<Ctx>(r: Registry<Ctx>, ids: seq<string>, ctx: Ctx, b: Binding)
    requires forall id :: id in ids ==> id in r.dynamic
    ensures b in OfferedByEach(r, ids, ctx) <==> b.action in ids && Offers(r, b.action, ctx, b.command)
  {
    if ids != [] {
      var init, last := ids[..|ids| - 1], ids[|ids| - 1];
      EachOffers(r, init, ctx, b);
      assert ids == init + [last];
      if r.dynamic[last](ctx).Some? { UnreservedAre(last, r.dynamic[last](ctx).value, r.static_, b); }
    }
  }

  lemma OfferedAre<Ctx>(r: Registry<Ctx>, ctx: Ctx, b: Binding)
    ensures b in Offered(r, ctx) <==> Offers(r, b.action, ctx, b.command)
  {
    EachOffers(r, Sorted(r.dynamic.Keys), ctx, b);
  }

  /** A bound dynamic name is offered, and by nobody else. */
  lemma DynamicNameIs<Ctx>(r: Registry<Ctx>, ctx: Ctx, name: string)
    requires name in DynamicBindings(r, ctx)
    ensures var b := DynamicBindings(r, ctx)[name];
            b.command.name == name && name !in r.static_ && Offers(r, b.action, ctx, b.command)
            && forall id, c :: Offers(r, id, ctx, c) && c.name == name ==> Binding(id, c) == b
  {
    var offers, b := OffersOf(Offered(r, ctx), name), DynamicBindings(r, ctx)[name];
    assert b in offers && offers == [b];
    OffersAre(Offered(r, ctx), name, b);
    OfferedAre(r, ctx, b);
    forall id, c | Offers(r, id, ctx, c) && c.name == name ensures Binding(id, c) == b {
      OfferedAre(r, ctx, Binding(id, c));
      OffersAre(Offered(r, ctx), name, Binding(id, c));
    }
  }

  /** Two Actions that offer the same name hide it from each other. */
  lemma TwoOffersHide<Ctx>(r: Registry<Ctx>, ctx: Ctx, id: string, c: SlashCommand, other: string, d: SlashCommand)
    requires Offers(r, id, ctx, c) && Offers(r, other, ctx, d) && id != other && c.name == d.name
    ensures Lookup(r, c.name, Some(ctx)) == None
  {
    if c.name in DynamicBindings(r, ctx) { DynamicNameIs(r, ctx, c.name); }
  }

  /** A static name is what it was registered as, whatever any provider offers. */
  lemma StaticNotShadowed<Ctx>(r: Registry<Ctx>, ctx: Ctx, id: string, c: SlashCommand)
    requires Coherent(r) && id in r.actions && c in r.actions[id].commands
    ensures Lookup(r, c.name, Some(ctx)) == Some(Binding(id, c)) && c.name !in DynamicBindings(r, ctx)
  {
    if c.name in DynamicBindings(r, ctx) { DynamicNameIs(r, ctx, c.name); }
  }

  lemma {:induction false} NoRepeat<Ctx>(r: Registry<Ctx>, ids: seq<string>, ctx: Ctx, name: string, id: string)
    requires (forall i :: i in ids ==> i in r.dynamic) && forall i, j :: 0 <= i < j < |ids| ==> ids[i] != ids[j]
    requires forall other, d :: Offers(r, other, ctx, d) && d.name == name ==> other == id
    ensures OffersOf(OfferedByEach(r, ids, ctx), name) ==
              if id in ids then OffersOf(OfferedBy(r, id, ctx), name) else []
  {
    if ids != [] {
      var init, last := ids[..|ids| - 1], ids[|ids| - 1];
      NoRepeat(r, init, ctx, name, id);
      OffersAppend(OfferedByEach(r, init, ctx), OfferedBy(r, last, ctx), name);
      assert ids == init + [last];
      if last != id { OthersOfferNot(r, last, ctx, name, id); }
    }
  }

  lemma OthersOfferNot<Ctx>(r: Registry<Ctx>, other: string, ctx: Ctx, name: string, id: string)
    requires other in r.dynamic && other != id
    requires forall x, d :: Offers(r, x, ctx, d) && d.name == name ==> x == id
    ensures OffersOf(OfferedBy(r, other, ctx), name) == []
  {
    if OffersOf(OfferedBy(r, other, ctx), name) != [] {
      var b := OffersOf(OfferedBy(r, other, ctx), name)[0];
      OffersAre(OfferedBy(r, other, ctx), name, b);
      UnreservedAre(other, r.dynamic[other](ctx).value, r.static_, b);
      assert Offers(r, other, ctx, b.command);
    }
  }

  lemma OnlyOffer<Ctx>(r: Registry<Ctx>, ctx: Ctx, b: Binding)
    requires OffersOf(Offered(r, ctx), b.command.name) == [b] && b.command.name !in r.static_
    ensures Lookup(r, b.command.name, Some(ctx)) == Some(b)
  {
    OffersAre(Offered(r, ctx), b.command.name, b);
  }

  lemma OneActionOffers<Ctx>(r: Registry<Ctx>, ctx: Ctx, name: string, id: string)
    requires id in r.dynamic && forall other, d :: Offers(r, other, ctx, d) && d.name == name ==> other == id
    ensures OffersOf(Offered(r, ctx), name) == OffersOf(OfferedBy(r, id, ctx), name)
  {
    var ids := Sorted(r.dynamic.Keys);
    forall i, j | 0 <= i < j < |ids| ensures ids[i] != ids[j] { SortedAscends(r.dynamic.Keys, i, j); }
    NoRepeat(r, ids, ctx, name, id);
  }

  /** A name that one Action offers once, and no other Action offers, is bound to it. */
  lemma SingleOfferIsBound<Ctx>(r: Registry<Ctx>, ctx: Ctx, id: string, c: SlashCommand)
    requires Offers(r, id, ctx, c)
    requires forall other, d :: Offers(r, other, ctx, d) && d.name == c.name ==> other == id
    requires var cs := r.dynamic[id](ctx).value; forall i, j :: 0 <= i < j < |cs| ==> cs[i].name != cs[j].name
    ensures Lookup(r, c.name, Some(ctx)) == Some(Binding(id, c))
  {
    OneActionOffers(r, ctx, c.name, id);
    OneOffer(id, r.dynamic[id](ctx).value, r.static_, c);
    OnlyOffer(r, ctx, Binding(id, c));
  }

  lemma UnreservedMore(id: string, commands: seq<SlashCommand>, taken: map<string, Binding>, name: string)
    requires commands != [] && name !in taken
    ensures var init, last := commands[..|commands| - 1], commands[|commands| - 1];
            OffersOf(Unreserved(id, commands, taken), name) ==
              OffersOf(Unreserved(id, init, taken), name) + (if last.name == name then [Binding(id, last)] else [])
  {
    var init, last := commands[..|commands| - 1], commands[|commands| - 1];
    var more := if last.name in taken then [] else [Binding(id, last)];
    OffersAppend(Unreserved(id, init, taken), more, name);
    if more != [] { assert more[..0] == [] && OffersOf(more, name) == OffersOf([], name) +
        (if last.name == name then more else []); }
  }

  lemma {:induction false} NoOffer(id: string, commands: seq<SlashCommand>, taken: map<string, Binding>, name: string)
    requires name !in taken && forall d :: d in commands ==> d.name != name
    ensures OffersOf(Unreserved(id, commands, taken), name) == []
  {
    if commands != [] {
      NoOffer(id, commands[..|commands| - 1], taken, name);
      UnreservedMore(id, commands, taken, name);
    }
  }

  lemma {:induction false} OneOffer(id: string, commands: seq<SlashCommand>, taken: map<string, Binding>,
                                    c: SlashCommand)
    requires c.name !in taken && c in commands
    requires forall i, j :: 0 <= i < j < |commands| ==> commands[i].name != commands[j].name
    ensures OffersOf(Unreserved(id, commands, taken), c.name) == [Binding(id, c)]
  {
    var init, last := commands[..|commands| - 1], commands[|commands| - 1];
    LastName(commands, init, last);
    UnreservedMore(id, commands, taken, c.name);
    if c == last {
      NoOffer(id, init, taken, c.name);
    } else {
      OneOffer(id, init, taken, c);
    }
  }

  lemma LastName(commands: seq<SlashCommand>, init: seq<SlashCommand>, last: SlashCommand)
    requires commands == init + [last] && forall i, j :: 0 <= i < j < |commands| ==>
             commands[i].name != commands[j].name
    ensures (forall d :: d in commands <==> d in init || d == last) && forall d :: d in init ==> d.name != last.name
  {
    forall d | d in init ensures d.name != last.name {
      var i :| 0 <= i < |init| && init[i] == d;
      assert commands[i] == d && commands[|init|] == last;
    }
  }

  // ---- the catalog ------------------------------------------------------------------------------

  lemma {:induction false} CommandsOfAre(bindings: map<string, Binding>, names: seq<string>, id: string,
                                         c: SlashCommand)
    requires forall n :: n in names ==> n in bindings
    ensures c in CommandsOf(bindings, names, id) <==> exists n :: n in names && bindings[n] == Binding(id, c)
  {
    if names != [] {
      var init, last := names[..|names| - 1], names[|names| - 1];
      CommandsOfAre(bindings, init, id, c);
      assert names == init + [last];
    }
  }

  lemma {:induction false} EntriesShow(actions: map<string, ActionSpec>, ids: seq<string>,
                                       bindings: map<string, Binding>,
                                       namespace: Option<string>, projection: Option<Projection>, id: string,
                                         c: SlashCommand)
    requires ActionsValid(actions) && forall i :: i in ids ==> i in actions
    ensures Shows(Entries(actions, ids, bindings, namespace, projection), id, c) <==>
              id in ids && var commands := DynamicCommands(bindings, id);
              Included(actions[id], commands, namespace, projection) && c in EntryFor(actions[id], commands).commands
  {
    if ids != [] {
      var init, last := ids[..|ids| - 1], ids[|ids| - 1];
      EntriesShow(actions, init, bindings, namespace, projection, id, c);
      assert ids == init + [last];
      var commands := DynamicCommands(bindings, last);
      var more := if Included(actions[last], commands, namespace, projection)
        then [EntryFor(actions[last], commands)] else [];
      ShowsAppend(Entries(actions, init, bindings, namespace, projection), more, id, c);
      ShowsOne(EntryFor(actions[last], commands), id, c);
    }
  }

  lemma ShowsOne(entry: Entry, id: string, c: SlashCommand)
    ensures Shows([entry], id, c) <==> entry.action == id && c in entry.commands
    ensures !Shows([], id, c)
  {
    if entry.action == id && c in entry.commands { assert [entry][0].action == id; }
  }

  lemma ShowsAppend(a: seq<Entry>, b: seq<Entry>, id: string, c: SlashCommand)
    ensures Shows(a + b, id, c) <==> Shows(a, id, c) || Shows(b, id, c)
  {
    if Shows(a, id, c) {
      var i :| 0 <= i < |a| && a[i].action == id && c in a[i].commands;
      assert (a + b)[i] == a[i];
    }
    if Shows(b, id, c) {
      var i :| 0 <= i < |b| && b[i].action == id && c in b[i].commands;
      assert (a + b)[|a| + i] == b[i];
    }
  }

  predicate Ascending(ids: seq<string>) {
    forall i, j :: 0 <= i < j < |ids| ==> Leq(ids[i], ids[j]) && ids[i] != ids[j]
  }

  function ActionIds(entries: seq<Entry>): (r: seq<string>)
    ensures |r| == |entries| && forall i :: 0 <= i < |r| ==> r[i] == entries[i].action
  {
    seq(|entries|, i requires 0 <= i < |entries| => entries[i].action)
  }

  lemma {:induction false} EntriesAscend(actions: map<string, ActionSpec>, ids: seq<string>,
                                         bindings: map<string, Binding>,
                                         namespace: Option<string>, projection: Option<Projection>)
    requires ActionsValid(actions) && (forall i :: i in ids ==> i in actions) && Ascending(ids)
    ensures var r := ActionIds(Entries(actions, ids, bindings, namespace, projection));
            Ascending(r) && forall i :: 0 <= i < |r| ==> r[i] in ids
  {
    if ids != [] {
      var init, last := ids[..|ids| - 1], ids[|ids| - 1];
      AscendingInit(ids, init, last);
      EntriesAscend(actions, init, bindings, namespace, projection);
      var before := Entries(actions, init, bindings, namespace, projection);
      var commands := DynamicCommands(bindings, last);
      if Included(actions[last], commands, namespace, projection) {
        AppendEntry(before, EntryFor(actions[last], commands), init, last);
      }
    }
  }

  lemma AppendEntry(before: seq<Entry>, entry: Entry, init: seq<string>, last: string)
    requires entry.action == last && Ascending(ActionIds(before))
    requires forall i :: 0 <= i < |ActionIds(before)| ==> ActionIds(before)[i] in init
    requires forall x :: x in init ==> Leq(x, last) && x != last
    ensures Ascending(ActionIds(before + [entry]))
    ensures forall i :: 0 <= i <= |before| ==> ActionIds(before + [entry])[i] in init + [last]
  {
    assert ActionIds(before + [entry]) == ActionIds(before) + [last];
  }

  lemma AscendingInit(ids: seq<string>, init: seq<string>, last: string)
    requires ids == init + [last] && Ascending(ids)
    ensures Ascending(init) && forall x :: x in init ==> x in ids && Leq(x, last) && x != last
  {
    forall x | x in init ensures x in ids && Leq(x, last) && x != last {
      var i :| 0 <= i < |init| && init[i] == x;
      assert ids[i] == x && ids[|init|] == last;
    }
    assert forall i :: 0 <= i < |init| ==> init[i] == ids[i];
  }

  /** A catalog lists Actions in the order of their ids, each once. */
  lemma CatalogAscends<Ctx>(r: Registry<Ctx>, ctx: Ctx, namespace: Option<string>, projection: Option<Projection>)
    requires Coherent(r)
    ensures Ascending(ActionIds(Catalog(r, ctx, namespace, projection)))
  {
    var ids := Sorted(r.actions.Keys);
    forall i, j | 0 <= i < j < |ids|
      ensures Leq(ids[i], ids[j]) && ids[i] != ids[j]
    {
      SortedAscends(r.actions.Keys, i, j);
    }
    EntriesAscend(r.actions, ids, BindingsFor(r, ctx, projection), namespace, projection);
  }

  lemma DynamicCommandsAre<Ctx>(r: Registry<Ctx>, ctx: Ctx, id: string, c: SlashCommand)
    ensures c in DynamicCommands(DynamicBindings(r, ctx), id) <==>
              c.name in DynamicBindings(r, ctx) && DynamicBindings(r, ctx)[c.name] == Binding(id, c)
    ensures DynamicCommands(DynamicBindings(r, ctx), id) != [] ==> id in r.dynamic
  {
    var bindings := DynamicBindings(r, ctx);
    CommandsOfAre(bindings, Sorted(bindings.Keys), id, c);
    forall n | n in bindings
      ensures bindings[n].command.name == n && bindings[n].action in r.dynamic
    {
      DynamicNameIs(r, ctx, n);
    }
    if DynamicCommands(bindings, id) != [] {
      CommandsOfAre(bindings, Sorted(bindings.Keys), id, DynamicCommands(bindings, id)[0]);
    }
  }

  /** For any registry that registrations lead to: a command is listed for a caller, under an Action,
      exactly when its name is bound for that caller, to that Action. So it is listed under one only. */
  lemma ListedIffBound<Ctx>(r: Registry<Ctx>, ctx: Ctx, namespace: Option<string>, projection: Option<Projection>,
                            id: string, c: SlashCommand)
    requires Coherent(r) && projection in {None, Some(Slash)}
    ensures Shows(Catalog(r, ctx, namespace, projection), id, c) <==>
              Lookup(r, c.name, Some(ctx)) == Some(Binding(id, c))
              && id in r.actions && (namespace.Some? ==> r.actions[id].namespace == namespace.value)
  {
    EntriesShow(r.actions, Sorted(r.actions.Keys), DynamicBindings(r, ctx), namespace, projection, id, c);
    DynamicCommandsAre(r, ctx, id, c);
    if id in r.actions { StaticOrDynamic(r, ctx, id, c); }
  }

  /** An Action has either static or dynamic commands. */
  lemma StaticHasNoDynamic<Ctx>(r: Registry<Ctx>, ctx: Ctx, id: string)
    requires Coherent(r) && id in r.actions && r.actions[id].commands != []
    ensures DynamicCommands(DynamicBindings(r, ctx), id) == []
  {
    DynamicCommandsAre(r, ctx, id, r.actions[id].commands[0]);
  }

  lemma BoundStatically<Ctx>(r: Registry<Ctx>, id: string, c: SlashCommand)
    requires Coherent(r) && id in r.actions
    ensures c.name in r.static_ && r.static_[c.name] == Binding(id, c) <==> c in r.actions[id].commands
  {
  }

  lemma StaticNotDynamic<Ctx>(r: Registry<Ctx>, ctx: Ctx, name: string)
    requires name in r.static_
    ensures name !in DynamicBindings(r, ctx)
  {
    if name in DynamicBindings(r, ctx) { DynamicNameIs(r, ctx, name); }
  }

  lemma StaticOrDynamic<Ctx>(r: Registry<Ctx>, ctx: Ctx, id: string, c: SlashCommand)
    requires Coherent(r) && id in r.actions
    ensures var commands := DynamicCommands(DynamicBindings(r, ctx), id);
            && (r.actions[id].commands != [] ==> commands == [])
            && (Lookup(r, c.name, Some(ctx)) == Some(Binding(id, c)) <==>
                  if commands == [] then c in r.actions[id].commands else c in commands)
  {
    if r.actions[id].commands != [] { StaticHasNoDynamic(r, ctx, id); }
    BoundStatically(r, id, c);
    if c.name in r.static_ { StaticNotDynamic(r, ctx, c.name); }
    DynamicCommandsAre(r, ctx, id, c);
  }

  /** Without a dynamic lookup, as for the other projections, a catalog shows static commands only,
      and the same ones for every caller. */
  lemma OtherProjections<Ctx>(r: Registry<Ctx>, ctx: Ctx, projection: Projection, id: string, c: SlashCommand)
    requires Coherent(r) && projection != Slash
    ensures Shows(Catalog(r, ctx, None, Some(projection)), id, c) <==>
              Lookup(r, c.name, None) == Some(Binding(id, c)) && projection in r.actions[id].projections
  {
    var none: map<string, Binding> := map[];
    EntriesShow(r.actions, Sorted(r.actions.Keys), none, None, Some(projection), id, c);
    assert Sorted(none.Keys) == [];
  }

  // ---- any registrations ------------------------------------------------------------------------

  datatype Registration<!Ctx> = Static(spec: ActionSpec, adapter: bool) | Dynamic(id: string, provider: Provider<Ctx>)

  function AfterAll<Ctx>(rs: seq<Registration<Ctx>>): Registry<Ctx> {
    if rs == [] then Registry(map[], map[], map[])
    else
      match rs[|rs| - 1]
      case Static(spec, adapter) => Registered(AfterAll(rs[..|rs| - 1]), spec, adapter)
      case Dynamic(id, provider) => DynamicRegistered(AfterAll(rs[..|rs| - 1]), id, provider)
  }

  /** Accepted or refused, in any order, registrations lead to a coherent registry. */
  lemma {:induction false} AnyRegistrations<Ctx>(rs: seq<Registration<Ctx>>)
    requires forall i :: 0 <= i < |rs| && rs[i].Static? ==> rs[i].spec.Valid()
    ensures Coherent(AfterAll(rs))
  {
    if rs != [] {
      AnyRegistrations(rs[..|rs| - 1]);
      match rs[|rs| - 1]
      case Static(spec, adapter) => RegisterKeepsCoherent(AfterAll(rs[..|rs| - 1]), spec, adapter);
      case Dynamic(id, provider) => DynamicKeepsCoherent(AfterAll(rs[..|rs| - 1]), id, provider);
    }
  }
}
