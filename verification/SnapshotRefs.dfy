/** Stable references for the elements of successive page snapshots. */
module SnapshotRefs {
  import opened Text

  /** A page entry as it is reported, and what is kept of it. */
  datatype Entry = Entry(selector: string, role: string, name: string)

  datatype Info = Info(role: string, name: string)

  datatype Taken = Taken(ref: string, selector: string, info: Info)

  // ---- references -------------------------------------------------------------------------------

  function Digit(d: nat): char
    requires d < 10
  {
    ('0' as int + d) as char
  }

  function Decimal(n: nat): (s: string)
    ensures s != ""
  {
    if n < 10 then [Digit(n)] else Decimal(n / 10) + [Digit(n % 10)]
  }

  function Ref(n: nat): string {
    "e" + Decimal(n)
  }

  predicate IsDigit(c: char) {
    '0' <= c <= '9'
  }

  /** The pattern of a reference: `e`, a digit that is not zero, digits. */
  predicate IsRef(s: string) {
    |s| >= 2 && s[0] == 'e' && IsDigit(s[1]) && s[1] != '0' && forall i :: 2 <= i < |s| ==> IsDigit(s[i])
  }

  lemma {:induction false} DecimalInjective(m: nat, n: nat)
    requires Decimal(m) == Decimal(n)
    ensures m == n
  {
    var a, b := Decimal(m), Decimal(n);
    assert a[|a| - 1] == Digit(m % 10) && b[|b| - 1] == Digit(n % 10);
    if m >= 10 && n >= 10 {
      assert a[..|a| - 1] == Decimal(m / 10) && b[..|b| - 1] == Decimal(n / 10);
      DecimalInjective(m / 10, n / 10);
    }
  }

  lemma RefInjective(m: nat, n: nat)
    requires Ref(m) == Ref(n)
    ensures m == n
  {
    assert Ref(m)[1..] == Decimal(m) && Ref(n)[1..] == Decimal(n);
    DecimalInjective(m, n);
  }

  lemma {:induction false} DecimalDigits(n: nat)
    requires n > 0
    ensures Decimal(n)[0] != '0' && forall i :: 0 <= i < |Decimal(n)| ==> IsDigit(Decimal(n)[i])
  {
    if n >= 10 { DecimalDigits(n / 10); }
  }

  lemma RefIsRef(n: nat)
    requires n > 0
    ensures IsRef(Ref(n))
  {
    DecimalDigits(n);
    assert forall i :: 1 <= i < |Ref(n)| ==> Ref(n)[i] == Decimal(n)[i - 1];
  }

  // ---- what is computed -------------------------------------------------------------------------

  /** The reference each selector had before. A selector with several keeps the last. */
  function Known(previous: seq<(string, string)>): map<string, string> {
    if previous == [] then map[]
    else
      var known, (ref, selector) := Known(previous[..|previous| - 1]), previous[|previous| - 1];
      if IsRef(ref) && !Blank(selector) then known[selector := ref] else known
  }

  /** The first number from `n` whose reference is not used. */
  function NextFree(used: set<string>, n: nat): (r: nat)
    ensures r >= n
    decreases |used|
  {
    if Ref(n) in used then NextFree(used - {Ref(n)}, n + 1) else n
  }

  lemma {:induction false} NextFreeIsFree(used: set<string>, n: nat)
    ensures Ref(NextFree(used, n)) !in used && forall m :: n <= m < NextFree(used, n) ==> Ref(m) in used
    decreases |used|
  {
    if Ref(n) in used {
      NextFreeIsFree(used - {Ref(n)}, n + 1);
      var r := NextFree(used - {Ref(n)}, n + 1);
      if Ref(r) == Ref(n) { RefInjective(r, n); }
    }
  }

  /** References handed out so far, and the counter for new ones. */
  datatype State = State(taken: seq<Taken>, next: nat)

  function Refs(taken: seq<Taken>): (s: set<string>)
    ensures forall i :: 0 <= i < |taken| ==> taken[i].ref in s
  {
    set t | t in taken :: t.ref
  }

  function InfoOf(e: Entry): Info {
    Info(if Trim(e.role) == "" then "element" else Trim(e.role), Trim(e.name))
  }

  function Take(s: State, e: Entry, known: map<string, string>, maxRefs: int): State {
    var selector := Trim(e.selector);
    if |s.taken| >= maxRefs || selector == "" then s
    else if selector in known && known[selector] !in Refs(s.taken) then
      s.(taken := s.taken + [Taken(known[selector], selector, InfoOf(e))])
    else
      var n := NextFree(Refs(s.taken), s.next);
      State(s.taken + [Taken(Ref(n), selector, InfoOf(e))], n + 1)
  }

  function Build(entries: seq<Entry>, known: map<string, string>, maxRefs: int): State {
    if entries == [] then State([], 1)
    else Take(Build(entries[..|entries| - 1], known, maxRefs), entries[|entries| - 1], known, maxRefs)
  }

  function PayloadOf(taken: seq<Taken>): (m: map<string, Info>)
    ensures m.Keys == Refs(taken)
  {
    if taken == [] then map[]
    else
      var t := taken[|taken| - 1];
      assert Refs(taken) == Refs(taken[..|taken| - 1]) + {t.ref} by {
        RefsMore(taken[..|taken| - 1], t);
        assert taken == taken[..|taken| - 1] + [t];
      }
      PayloadOf(taken[..|taken| - 1])[t.ref := t.info]
  }

  function SelectorsOf(taken: seq<Taken>): (m: map<string, string>)
    ensures m.Keys == Refs(taken)
  {
    if taken == [] then map[]
    else
      var t := taken[|taken| - 1];
      assert Refs(taken) == Refs(taken[..|taken| - 1]) + {t.ref} by {
        RefsMore(taken[..|taken| - 1], t);
        assert taken == taken[..|taken| - 1] + [t];
      }
      SelectorsOf(taken[..|taken| - 1])[t.ref := t.selector]
  }

  lemma RefsMore(taken: seq<Taken>, t: Taken)
    ensures Refs(taken + [t]) == Refs(taken) + {t.ref}
  {
  }

  // ---- distinctness and count -------------------------------------------------------------------

  predicate Distinct(taken: seq<Taken>) {
    forall i, j :: 0 <= i < j < |taken| ==> taken[i].ref != taken[j].ref
  }

  lemma TakeDoes(s: State, e: Entry, known: map<string, string>, maxRefs: int)
    requires Distinct(s.taken) && s.next > 0
    ensures var s' := Take(s, e, known, maxRefs);
            && Distinct(s'.taken) && s'.next > 0
            && (s' == s || (s'.taken == s.taken + [s'.taken[|s.taken|]] && s'.taken[|s.taken|].ref !in Refs(s.taken)
                            && s'.taken[|s.taken|].selector == Trim(e.selector) &&
                              s'.taken[|s.taken|].info == InfoOf(e)))
            && (s' == s <==> |s.taken| >= maxRefs || Trim(e.selector) == "")
  {
    NextFreeIsFree(Refs(s.taken), s.next);
  }

  /** No reference is given twice. */
  lemma {:induction false} RefsDistinct(entries: seq<Entry>, known: map<string, string>, maxRefs: int)
    ensures Distinct(Build(entries, known, maxRefs).taken) && Build(entries, known, maxRefs).next > 0
  {
    if entries != [] {
      RefsDistinct(entries[..|entries| - 1], known, maxRefs);
      TakeDoes(Build(entries[..|entries| - 1], known, maxRefs), entries[|entries| - 1], known, maxRefs);
    }
  }

  /** The entries that have a selector, in order. */
  function Usable(entries: seq<Entry>): seq<Entry> {
    if entries == [] then []
    else
      Usable(entries[..|entries| - 1])
      + (if Trim(entries[|entries| - 1].selector) == "" then [] else [entries[|entries| - 1]])
  }

  function Selectors(entries: seq<Entry>): (r: seq<string>)
    ensures |r| == |Usable(entries)| && forall i :: 0 <= i < |r| ==> r[i] == Trim(Usable(entries)[i].selector)
  {
    seq(|Usable(entries)|, i requires 0 <= i < |Usable(entries)| => Trim(Usable(entries)[i].selector))
  }

  /** The first entries that have a selector are taken, up to the limit, each with its own role and name. */
  lemma {:induction false} TakesTheFirst(entries: seq<Entry>, known: map<string, string>, maxRefs: int)
    ensures var taken, all := Build(entries, known, maxRefs).taken, Usable(entries);
            && |taken| == (if maxRefs < 0 then 0 else if |all| < maxRefs then |all| else maxRefs)
            && forall i :: 0 <= i < |taken| ==>
              taken[i].selector == Trim(all[i].selector) && taken[i].info == InfoOf(all[i])
  {
    if entries != [] {
      var init := entries[..|entries| - 1];
      TakesTheFirst(init, known, maxRefs);
      RefsDistinct(init, known, maxRefs);
      TakeDoes(Build(init, known, maxRefs), entries[|entries| - 1], known, maxRefs);
    }
  }

  lemma {:induction false} PayloadCount(taken: seq<Taken>)
    requires Distinct(taken)
    ensures |Refs(taken)| == |taken|
  {
    if taken != [] {
      var init, t := taken[..|taken| - 1], taken[|taken| - 1];
      PayloadCount(init);
      LastIsNew(taken, init, t);
    }
  }

  lemma LastIsNew(taken: seq<Taken>, init: seq<Taken>, t: Taken)
    requires Distinct(taken) && taken == init + [t]
    ensures Refs(taken) == Refs(init) + {t.ref} && t.ref !in Refs(init)
  {
    RefsMore(init, t);
    assert forall i :: 0 <= i < |init| ==> taken[i] == init[i] && taken[|init|] == t;
  }

  /** Both results have the same references, one for each element taken. */
  lemma MapsShareRefs(entries: seq<Entry>, known: map<string, string>, maxRefs: int)
    ensures var taken := Build(entries, known, maxRefs).taken;
            && PayloadOf(taken).Keys == SelectorsOf(taken).Keys
            && |PayloadOf(taken)| == |SelectorsOf(taken)| == |taken|
  {
    var taken := Build(entries, known, maxRefs).taken;
    RefsDistinct(entries, known, maxRefs);
    PayloadCount(taken);
    assert |PayloadOf(taken)| == |PayloadOf(taken).Keys| && |SelectorsOf(taken)| == |SelectorsOf(taken).Keys|;
  }

  // ---- the loop ---------------------------------------------------------------------------------

  method NextRef(used: set<string>, counter: nat) returns (ref: string, next: nat)
    ensures ref == Ref(NextFree(used, counter)) && next == NextFree(used, counter) + 1
  {
    var n := counter;
    ghost var left := used;
    while Ref(n) in used
      invariant NextFree(left, n) == NextFree(used, counter)
      invariant forall m :: m >= n ==> (Ref(m) in left <==> Ref(m) in used)
      decreases |left|
    {
      forall m | m > n ensures Ref(m) != Ref(n) { if Ref(m) == Ref(n) { RefInjective(m, n); } }
      left := left - {Ref(n)};
      n := n + 1;
    }
    ref, next := Ref(n), n + 1;
  }

  lemma BlankTrims(s: string)
    ensures Trim(s) == "" <==> Blank(s)
  {
    var lo, hi := TrimCuts(s);
  }

  lemma FullTakes(s: State, e: Entry, known: map<string, string>, maxRefs: int)
    requires |s.taken| >= maxRefs
    ensures Take(s, e, known, maxRefs) == s
  {
  }

  /** Once the limit is reached nothing changes. */
  lemma {:induction false} StopsAtLimit(entries: seq<Entry>, i: nat, k: nat, known: map<string, string>, maxRefs: int)
    requires i <= k <= |entries| && |Build(entries[..i], known, maxRefs).taken| >= maxRefs
    ensures Build(entries[..k], known, maxRefs) == Build(entries[..i], known, maxRefs)
    decreases k
  {
    if i < k {
      StopsAtLimit(entries, i, k - 1, known, maxRefs);
      BuildMore(entries, k - 1, known, maxRefs);
      FullTakes(Build(entries[..k - 1], known, maxRefs), entries[k - 1], known, maxRefs);
    }
  }

  lemma MapsMore(taken: seq<Taken>, t: Taken)
    ensures PayloadOf(taken + [t]) == PayloadOf(taken)[t.ref := t.info]
    ensures SelectorsOf(taken + [t]) == SelectorsOf(taken)[t.ref := t.selector]
    ensures Refs(taken + [t]) == Refs(taken) + {t.ref}
  {
    RefsMore(taken, t);
    assert (taken + [t])[..|taken|] == taken;
  }

  lemma BuildMore(entries: seq<Entry>, i: nat, known: map<string, string>, maxRefs: int)
    requires i < |entries|
    ensures Build(entries[..i + 1], known, maxRefs) == Take(Build(entries[..i], known, maxRefs), entries[i], known,
            maxRefs)
  {
    assert entries[..i + 1][..i] == entries[..i];
  }

  method ReadPrevious(previous: seq<(string, string)>) returns (known: map<string, string>)
    ensures known == Known(previous)
  {
    known := map[];
    for i := 0 to |previous|
      invariant known == Known(previous[..i])
    {
      assert previous[..i + 1][..i] == previous[..i];
      var (ref, selector) := previous[i];
      BlankTrims(selector);
      if IsRef(ref) && Trim(selector) != "" { known := known[selector := ref]; }
    }
    assert previous[..|previous|] == previous;
  }

  /** The reference of one entry, and the counter after it. */
  method ChooseRef(selector: string, known: map<string, string>, used: set<string>, counter: nat)
    returns (ref: string, next: nat)
    ensures if selector in known && known[selector] !in used then ref == known[selector] && next == counter
            else ref == Ref(NextFree(used, counter)) && next == NextFree(used, counter) + 1
  {
    if selector in known && known[selector] !in used {
      ref, next := known[selector], counter;
    } else {
      ref, next := NextRef(used, counter);
    }
  }

  method BuildSnapshotRefs(entries: seq<Entry>, previous: seq<(string, string)>, maxRefs: int)
    returns (refsPayload: map<string, Info>, refSelectors: map<string, string>)
    ensures var taken := Build(entries, Known(previous), maxRefs).taken;
            refsPayload == PayloadOf(taken) && refSelectors == SelectorsOf(taken)
  {
    var known := ReadPrevious(previous);
    refsPayload, refSelectors := map[], map[];
    var used: set<string> := {};
    var counter := 1;
    ghost var s := State([], 1);
    for i := 0 to |entries|
      invariant s == Build(entries[..i], known, maxRefs) && counter == s.next && used == Refs(s.taken)
      invariant refsPayload == PayloadOf(s.taken) && refSelectors == SelectorsOf(s.taken)
    {
      MapsShareRefs(entries[..i], known, maxRefs);
      if |refsPayload| >= maxRefs {
        StopsAtLimit(entries, i, |entries|, known, maxRefs);
        assert entries[..|entries|] == entries;
        return;
      }
      BuildMore(entries, i, known, maxRefs);
      var e := entries[i];
      var selector := Trim(e.selector);
      if selector != "" {
        var ref, next := ChooseRef(selector, known, used, counter);
        used := used + {ref};
        refsPayload := refsPayload[ref := InfoOf(e)];
        refSelectors := refSelectors[ref := selector];
        counter := next;
        TakeIs(s, e, known, maxRefs, Taken(ref, selector, InfoOf(e)), next);
        MapsMore(s.taken, Taken(ref, selector, InfoOf(e)));
      }
      s := Take(s, e, known, maxRefs);
    }
    assert entries[..|entries|] == entries;
  }

  lemma TakeIs(s: State, e: Entry, known: map<string, string>, maxRefs: int, t: Taken, next: nat)
    requires |s.taken| < maxRefs && t.selector == Trim(e.selector) != "" && t.info == InfoOf(e)
    requires if t.selector in known && known[t.selector] !in Refs(s.taken) then t.ref == known[t.selector] &&
             next == s.next
             else t.ref == Ref(NextFree(Refs(s.taken), s.next)) && next == NextFree(Refs(s.taken), s.next) + 1
    ensures Take(s, e, known, maxRefs) == State(s.taken + [t], next)
  {
  }

  // ---- stability --------------------------------------------------------------------------------

  /** The selectors up to `i` are all known, and no two of them are the same. */
  predicate KnownSoFar(taken: seq<Taken>, known: map<string, string>, i: nat)
    requires i < |taken|
  {
    && (forall j :: 0 <= j <= i ==> taken[j].selector in known)
    && (forall j, k :: 0 <= j < k <= i ==> taken[j].selector != taken[k].selector)
  }

  predicate OneSelectorEach(known: map<string, string>) {
    forall a, b :: a in known && b in known && known[a] == known[b] ==> a == b
  }

  /** Each reference is a key of the previous mapping only once, so it had one selector. */
  lemma {:induction false} KnownIsOneToOne(previous: seq<(string, string)>)
    requires forall i, j :: 0 <= i < j < |previous| ==> previous[i].0 != previous[j].0
    ensures OneSelectorEach(Known(previous))
    ensures forall s :: s in Known(previous) ==>
            exists i :: 0 <= i < |previous| && previous[i] == (Known(previous)[s], s)
  {
    if previous != [] {
      var init := previous[..|previous| - 1];
      KnownIsOneToOne(init);
      forall s | s in Known(previous)
        ensures exists i :: 0 <= i < |previous| && previous[i] == (Known(previous)[s], s)
      {
        if s in Known(init) && Known(previous)[s] == Known(init)[s] {
          var i :| 0 <= i < |init| && init[i] == (Known(init)[s], s);
          assert previous[i] == init[i];
        } else {
          assert previous[|previous| - 1] == (Known(previous)[s], s);
        }
      }
    }
  }

  predicate KeepsAt(taken: seq<Taken>, known: map<string, string>, i: nat)
    requires i < |taken|
  {
    KnownSoFar(taken, known, i) ==> taken[i].ref == known[taken[i].selector]
  }

  /** A known selector keeps its reference as long as no unseen and no repeated selector came before. */
  lemma {:induction false} KnownKeepsRef(entries: seq<Entry>, known: map<string, string>, maxRefs: int, i: nat)
    requires i < |Build(entries, known, maxRefs).taken| && OneSelectorEach(known)
    ensures KeepsAt(Build(entries, known, maxRefs).taken, known, i)
  {
    var init := entries[..|entries| - 1];
    var s := Build(init, known, maxRefs);
    RefsDistinct(init, known, maxRefs);
    forall j | 0 <= j < |s.taken| ensures KeepsAt(s.taken, known, j) { KnownKeepsRef(init, known, maxRefs, j); }
    TakeKeeps(s, entries[|entries| - 1], known, maxRefs, i);
  }

  lemma TakeKeeps(s: State, e: Entry, known: map<string, string>, maxRefs: int, i: nat)
    requires Distinct(s.taken) && s.next > 0 && OneSelectorEach(known) && i < |Take(s, e, known, maxRefs).taken|
    requires forall j :: 0 <= j < |s.taken| ==> KeepsAt(s.taken, known, j)
    ensures KeepsAt(Take(s, e, known, maxRefs).taken, known, i)
  {
    var s' := Take(s, e, known, maxRefs);
    TakeDoes(s, e, known, maxRefs);
    if KnownSoFar(s'.taken, known, i) {
      forall j | 0 <= j < |s.taken| && j <= i
        ensures s'.taken[j] == s.taken[j] && s.taken[j].selector in known &&
                s.taken[j].ref == known[s.taken[j].selector]
        ensures j < i ==> s.taken[j].selector != s'.taken[i].selector
      {
        KnownPrefix(s.taken, s'.taken, known, i, j);
        assert KeepsAt(s.taken, known, j);
      }
      if i >= |s.taken| {
        assert i == |s.taken| && s'.taken[i].selector == Trim(e.selector);
        KeptHere(s, e, known, maxRefs);
      }
    }
  }

  lemma KnownPrefix(a: seq<Taken>, b: seq<Taken>, known: map<string, string>, i: nat, j: nat)
    requires j <= i < |b| && j < |a| <= |b| && b[..|a|] == a && KnownSoFar(b, known, i)
    ensures KnownSoFar(a, known, j) && b[j] == a[j]
  {
    assert forall n :: 0 <= n < |a| ==> a[n] == b[..|a|][n] == b[n];
  }

  lemma KeptHere(s: State, e: Entry, known: map<string, string>, maxRefs: int)
    requires OneSelectorEach(known) && Trim(e.selector) in known && Trim(e.selector) != "" && |s.taken| < maxRefs
    requires forall j :: 0 <= j < |s.taken| ==>
               s.taken[j].selector in known && s.taken[j].ref == known[s.taken[j].selector] &&
                 s.taken[j].selector != Trim(e.selector)
    ensures Take(s, e, known, maxRefs).taken == s.taken + [Taken(known[Trim(e.selector)], Trim(e.selector), InfoOf(e))]
  {
    assert known[Trim(e.selector)] !in Refs(s.taken);
  }

  // ---- exactly when a reference is kept -----------------------------------------------------------

  /** The element at some place has its known reference if and only if no earlier element has it. */
  lemma {:induction false} KeptUnlessTaken(entries: seq<Entry>, known: map<string, string>, maxRefs: int, i: nat)
    requires i < |Build(entries, known, maxRefs).taken| && Build(entries, known, maxRefs).taken[i].selector in known
    ensures var taken := Build(entries, known, maxRefs).taken;
            taken[i].ref == known[taken[i].selector] <==> known[taken[i].selector] !in Refs(taken[..i])
  {
    var init, e := entries[..|entries| - 1], entries[|entries| - 1];
    var s := Build(init, known, maxRefs);
    RefsDistinct(init, known, maxRefs);
    TakeDoes(s, e, known, maxRefs);
    var taken := Build(entries, known, maxRefs).taken;
    if i < |s.taken| {
      KeptUnlessTaken(init, known, maxRefs, i);
      assert taken[..i] == s.taken[..i];
    } else {
      assert taken[..i] == s.taken;
      NextFreeIsFree(Refs(s.taken), s.next);
    }
  }

  /** Every number below the counter stands for a reference that was given, and every reference given
      is the known one of its selector or has such a number. */
  ghost predicate Numbered(s: State, known: map<string, string>) {
    && (forall m: nat :: 1 <= m < s.next ==> Ref(m) in Refs(s.taken))
    && (forall t :: t in s.taken ==> Origin(t, s.next, known))
  }

  ghost predicate Below(ref: string, n: nat) {
    exists m: nat :: 1 <= m < n && ref == Ref(m)
  }

  /** A reference with its selector, or a number below the counter. */
  ghost predicate Origin(t: Taken, next: nat, known: map<string, string>) {
    (t.selector in known && t.ref == known[t.selector]) || Below(t.ref, next)
  }

  lemma OriginLater(t: Taken, m: nat, n: nat, known: map<string, string>)
    requires Origin(t, m, known) && m <= n
    ensures Origin(t, n, known)
  {
    if k: nat :| 1 <= k < m && t.ref == Ref(k) { assert Below(t.ref, n); }
  }

  lemma TakenOrigin(s: State, e: Entry, known: map<string, string>, maxRefs: int)
    requires s.next > 0 && Take(s, e, known, maxRefs) != s
    ensures var s' := Take(s, e, known, maxRefs);
            && s'.next >= s.next && s'.taken == s.taken + [s'.taken[|s.taken|]]
            && Origin(s'.taken[|s.taken|], s'.next, known)
            && (forall m: nat :: s.next <= m < s'.next ==> Ref(m) in Refs(s.taken) + {s'.taken[|s.taken|].ref})
  {
    var s' := Take(s, e, known, maxRefs);
    NextFreeIsFree(Refs(s.taken), s.next);
    assert s'.next > s.next ==> Below(s'.taken[|s.taken|].ref, s'.next);
  }

  lemma TakeNumbered(s: State, e: Entry, known: map<string, string>, maxRefs: int)
    requires Numbered(s, known) && s.next > 0
    ensures Numbered(Take(s, e, known, maxRefs), known)
  {
    var s' := Take(s, e, known, maxRefs);
    if s' != s {
      TakenOrigin(s, e, known, maxRefs);
      RefsMore(s.taken, s'.taken[|s.taken|]);
      forall t | t in s'.taken ensures Origin(t, s'.next, known) {
        if t in s.taken { OriginLater(t, s.next, s'.next, known); }
      }
    }
  }

  lemma {:induction false} AlwaysNumbered(entries: seq<Entry>, known: map<string, string>, maxRefs: int)
    ensures Numbered(Build(entries, known, maxRefs), known)
  {
    if entries != [] {
      AlwaysNumbered(entries[..|entries| - 1], known, maxRefs);
      RefsDistinct(entries[..|entries| - 1], known, maxRefs);
      TakeNumbered(Build(entries[..|entries| - 1], known, maxRefs), entries[|entries| - 1], known, maxRefs);
    }
  }

  /** The first element of a known selector keeps its reference if and only if the counter for new
      references has not passed it: unseen and repeated elements before it count upwards. */
  lemma KnownKeepsExactly(before: seq<Entry>, e: Entry, known: map<string, string>, maxRefs: int)
    requires OneSelectorEach(known) && Trim(e.selector) in known && Trim(e.selector) != ""
    requires |Build(before, known, maxRefs).taken| < maxRefs
    requires forall t :: t in Build(before, known, maxRefs).taken ==> t.selector != Trim(e.selector)
    ensures var s, taken := Build(before, known, maxRefs), Build(before + [e], known, maxRefs).taken;
            && |taken| == |s.taken| + 1 && taken[|s.taken|].selector == Trim(e.selector)
            && (taken[|s.taken|].ref == known[Trim(e.selector)] <==> !Below(known[Trim(e.selector)], s.next))
  {
    var s, selector := Build(before, known, maxRefs), Trim(e.selector);
    assert (before + [e])[..|before|] == before;
    RefsDistinct(before, known, maxRefs);
    AlwaysNumbered(before, known, maxRefs);
    NextFreeIsFree(Refs(s.taken), s.next);
    assert known[selector] in Refs(s.taken) <==> Below(known[selector], s.next) by {
      if known[selector] in Refs(s.taken) {
        var t :| t in s.taken && t.ref == known[selector];
        assert t.selector in known && t.ref == known[t.selector] ==> t.selector == selector;
      }
    }
  }

  /** An unseen selector that comes first can take a known one's reference. */
  lemma UnseenTakesRef(seen: Entry, unseen: Entry, maxRefs: int)
    requires maxRefs >= 2 && Trim(seen.selector) != "" && Trim(unseen.selector) !in {"", Trim(seen.selector)}
    ensures var taken := Build([unseen, seen], map[Trim(seen.selector) := Ref(1)], maxRefs).taken;
            |taken| == 2 && taken[0].ref == Ref(1) && taken[1].selector == Trim(seen.selector) && taken[1].ref == Ref(2)
  {
    var known := map[Trim(seen.selector) := Ref(1)];
    var es := [unseen, seen];
    BuildMore(es, 0, known, maxRefs);
    BuildMore(es, 1, known, maxRefs);
    assert es[..2] == es && es[..0] == [];
    var t := Taken(Ref(1), Trim(unseen.selector), InfoOf(unseen));
    assert NextFree(Refs([]), 1) == 1;
    TakeIs(State([], 1), unseen, known, maxRefs, t, 2);
    SecondRef([t]);
    TakeIs(State([t], 2), seen, known, maxRefs, Taken(Ref(2), Trim(seen.selector), InfoOf(seen)), 3);
  }

  lemma SecondRef(taken: seq<Taken>)
    requires |taken| == 1 && taken[0].ref == Ref(1)
    ensures Ref(1) in Refs(taken) && NextFree(Refs(taken), 2) == 2
  {
    assert Refs(taken) == {Ref(1)};
    if Ref(2) == Ref(1) { RefInjective(2, 1); }
  }

  // ---- a second snapshot of the same page -------------------------------------------------------

  predicate SelectorsDiffer(taken: seq<Taken>) {
    forall i, j :: 0 <= i < j < |taken| ==> taken[i].selector != taken[j].selector
  }

  lemma {:induction false} TakenAreWellFormed(entries: seq<Entry>, known: map<string, string>, maxRefs: int, i: nat)
    requires i < |Build(entries, known, maxRefs).taken|
    requires forall s :: s in known ==> IsRef(known[s])
    ensures var t := Build(entries, known, maxRefs).taken[i]; IsRef(t.ref) && t.selector != "" && !Blank(t.selector)
  {
    var init, e := entries[..|entries| - 1], entries[|entries| - 1];
    var s := Build(init, known, maxRefs);
    RefsDistinct(init, known, maxRefs);
    if i < |s.taken| {
      TakeDoes(s, e, known, maxRefs);
      TakenAreWellFormed(init, known, maxRefs, i);
    } else {
      RefIsRef(NextFree(Refs(s.taken), s.next));
      var lo, hi := TrimCuts(e.selector);
      assert !IsSpace(Trim(e.selector)[0]);
    }
  }

  lemma {:induction false} KnownOf(previous: seq<(string, string)>, k: nat)
    requires forall i, j :: 0 <= i < j < |previous| ==> previous[i].1 != previous[j].1
    requires k < |previous| && IsRef(previous[k].0) && !Blank(previous[k].1)
    ensures previous[k].1 in Known(previous) && Known(previous)[previous[k].1] == previous[k].0
  {
    if k < |previous| - 1 { KnownOf(previous[..|previous| - 1], k); }
  }

  function Pairs(taken: seq<Taken>): (r: seq<(string, string)>)
    ensures |r| == |taken| && forall i :: 0 <= i < |r| ==> r[i] == (taken[i].ref, taken[i].selector)
  {
    seq(|taken|, i requires 0 <= i < |taken| => (taken[i].ref, taken[i].selector))
  }

  function SelectorList(taken: seq<Taken>): (r: seq<string>)
    ensures |r| == |taken| && forall i :: 0 <= i < |r| ==> r[i] == taken[i].selector
  {
    seq(|taken|, i requires 0 <= i < |taken| => taken[i].selector)
  }

  lemma {:induction false} OnceEach<T>(a: seq<T>, x: T)
    requires forall i, j :: 0 <= i < j < |a| ==> a[i] != a[j]
    ensures multiset(a)[x] <= 1
  {
    if a != [] {
      OnceEach(a[1..], x);
      assert a == [a[0]] + a[1..];
      if a[0] == x { assert x !in a[1..]; }
    }
  }

  lemma CountedTwice<T>(b: seq<T>, i: nat, j: nat)
    requires i < j < |b| && b[i] == b[j]
    ensures multiset(b)[b[i]] >= 2
  {
    assert b == b[..i] + [b[i]] + b[i + 1..j] + [b[j]] + b[j + 1..];
  }

  /** A rearrangement of a sequence without repetitions has the same elements, once each. */
  lemma Rearranged<T>(a: seq<T>, b: seq<T>)
    requires multiset(a) == multiset(b) && forall i, j :: 0 <= i < j < |a| ==> a[i] != a[j]
    ensures |a| == |b| && (forall x :: x in a <==> x in b) && forall i, j :: 0 <= i < j < |b| ==> b[i] != b[j]
  {
    assert |a| == |multiset(a)| && |b| == |multiset(b)|;
    forall x ensures x in a <==> x in b { assert x in multiset(a) <==> x in multiset(b); }
    forall i, j | 0 <= i < j < |b| ensures b[i] != b[j] {
      OnceEach(a, b[i]);
      if b[i] == b[j] { CountedTwice(b, i, j); }
    }
  }

  lemma {:induction false} SelectorsAt(taken: seq<Taken>, i: nat)
    requires Distinct(taken) && i < |taken|
    ensures SelectorsOf(taken)[taken[i].ref] == taken[i].selector
  {
    if i < |taken| - 1 { SelectorsAt(taken[..|taken| - 1], i); }
  }

  /** Read back in any order, a result gives every element it names its reference again. */
  lemma RereadKeeps(first: seq<Taken>, previous: seq<(string, string)>, again: seq<Entry>, maxRefs: int, i: nat)
    requires Distinct(first) && SelectorsDiffer(first) && multiset(previous) == multiset(Pairs(first))
    requires forall t :: t in first ==> IsRef(t.ref) && !Blank(t.selector)
    requires var taken := Build(again, Known(previous), maxRefs).taken;
             i < |taken| && SelectorsDiffer(taken) && forall j :: 0 <= j < |taken| ==>
               taken[j].selector in SelectorList(first)
    ensures var t := Build(again, Known(previous), maxRefs).taken[i]; (t.ref, t.selector) in Pairs(first)
  {
    var known, taken := Known(previous), Build(again, Known(previous), maxRefs).taken;
    Rearranged(Pairs(first), previous);
    PairsDiffer(first, previous);
    KnownIsOneToOne(previous);
    forall j | 0 <= j < |taken|
      ensures taken[j].selector in known && (known[taken[j].selector], taken[j].selector) in Pairs(first)
    {
      SelectorIsKnown(first, previous, taken[j].selector);
    }
    KnownKeepsRef(again, known, maxRefs, i);
    assert KnownSoFar(taken, known, i);
  }

  lemma PairsDiffer(first: seq<Taken>, previous: seq<(string, string)>)
    requires Distinct(first) && SelectorsDiffer(first)
    requires (forall x :: x in Pairs(first) <==> x in previous) && forall i, j :: 0 <= i < j < |previous| ==>
             previous[i] != previous[j]
    ensures forall i, j :: 0 <= i < j < |previous| ==> previous[i].0 != previous[j].0 && previous[i].1 != previous[j].1
  {
    forall i, j | 0 <= i < j < |previous| ensures previous[i].0 != previous[j].0 && previous[i].1 != previous[j].1 {
      assert previous[i] in Pairs(first) && previous[j] in Pairs(first);
      var k :| 0 <= k < |first| && Pairs(first)[k] == previous[i];
      var l :| 0 <= l < |first| && Pairs(first)[l] == previous[j];
      assert k != l;
    }
  }

  lemma SelectorIsKnown(first: seq<Taken>, previous: seq<(string, string)>, selector: string)
    requires forall x :: x in Pairs(first) <==> x in previous
    requires forall i, j :: 0 <= i < j < |previous| ==> previous[i].1 != previous[j].1
    requires forall t :: t in first ==> IsRef(t.ref) && !Blank(t.selector)
    requires selector in SelectorList(first)
    ensures selector in Known(previous) && (Known(previous)[selector], selector) in Pairs(first)
  {
    var k :| 0 <= k < |first| && SelectorList(first)[k] == selector;
    assert Pairs(first)[k] in previous && first[k] in first;
    var n :| 0 <= n < |previous| && previous[n] == Pairs(first)[k];
    KnownOf(previous, n);
  }

  /** A snapshot of the same elements, in any order, with the previous mapping in any order, returns
      the same mapping. */
  lemma RerunReturnsTheSame(entries: seq<Entry>, known: map<string, string>, maxRefs: int,
                            previous: seq<(string, string)>, again: seq<Entry>)
    requires forall s :: s in known ==> IsRef(known[s])
    requires var first := Build(entries, known, maxRefs).taken;
             && SelectorsDiffer(first) && multiset(previous) == multiset(Pairs(first))
             && multiset(Selectors(again)) == multiset(SelectorList(first))
    ensures SelectorsOf(Build(again, Known(previous), maxRefs).taken) ==
            SelectorsOf(Build(entries, known, maxRefs).taken)
  {
    var first, second := Build(entries, known, maxRefs).taken, Build(again, Known(previous), maxRefs).taken;
    RefsDistinct(entries, known, maxRefs);
    RefsDistinct(again, Known(previous), maxRefs);
    FirstIsWellFormed(entries, known, maxRefs);
    SecondTakesAll(first, entries, known, again, Known(previous), maxRefs);
    forall i | 0 <= i < |second| ensures (second[i].ref, second[i].selector) in Pairs(first) {
      RereadKeeps(first, previous, again, maxRefs, i);
    }
    SameMapping(first, second);
  }

  lemma FirstIsWellFormed(entries: seq<Entry>, known: map<string, string>, maxRefs: int)
    requires forall s :: s in known ==> IsRef(known[s])
    ensures forall t :: t in Build(entries, known, maxRefs).taken ==> IsRef(t.ref) && !Blank(t.selector)
  {
    var first := Build(entries, known, maxRefs).taken;
    forall t | t in first ensures IsRef(t.ref) && !Blank(t.selector) {
      var i :| 0 <= i < |first| && first[i] == t;
      TakenAreWellFormed(entries, known, maxRefs, i);
    }
  }

  /** As many elements as the first time, all of them known. */
  lemma SecondTakesAll(first: seq<Taken>, entries: seq<Entry>, known: map<string, string>,
                       again: seq<Entry>, known': map<string, string>, maxRefs: int)
    requires first == Build(entries, known, maxRefs).taken && SelectorsDiffer(first)
    requires multiset(Selectors(again)) == multiset(SelectorList(first))
    ensures var second := Build(again, known', maxRefs).taken;
            && |second| == |first| && SelectorsDiffer(second)
            && forall i :: 0 <= i < |second| ==> second[i].selector in SelectorList(first)
  {
    TakesTheFirst(entries, known, maxRefs);
    TakesTheFirst(again, known', maxRefs);
    Rearranged(SelectorList(first), Selectors(again));
    var second := Build(again, known', maxRefs).taken;
    forall i | 0 <= i < |second| ensures second[i].selector in SelectorList(first) {
      assert Selectors(again)[i] in Selectors(again);
    }
  }

  lemma SameMapping(first: seq<Taken>, second: seq<Taken>)
    requires Distinct(first) && Distinct(second) && |first| == |second|
    requires forall i :: 0 <= i < |second| ==> (second[i].ref, second[i].selector) in Pairs(first)
    ensures SelectorsOf(second) == SelectorsOf(first)
  {
    SameRefs(first, second);
    forall r | r in Refs(second) ensures SelectorsOf(second)[r] == SelectorsOf(first)[r] {
      var i := IndexOf(second, r);
      SameAt(first, second, i);
    }
    SameMaps(SelectorsOf(second), SelectorsOf(first));
  }

  lemma IndexOf(taken: seq<Taken>, r: string) returns (i: nat)
    requires r in Refs(taken)
    ensures i < |taken| && taken[i].ref == r
  {
    i :| 0 <= i < |taken| && taken[i].ref == r;
  }

  lemma SameMaps(a: map<string, string>, b: map<string, string>)
    requires a.Keys == b.Keys && forall r :: r in a.Keys ==> a[r] == b[r]
    ensures a == b
  {
  }

  lemma SameRefs(first: seq<Taken>, second: seq<Taken>)
    requires Distinct(first) && Distinct(second) && |first| == |second|
    requires forall i :: 0 <= i < |second| ==> (second[i].ref, second[i].selector) in Pairs(first)
    ensures Refs(second) == Refs(first)
  {
    forall r | r in Refs(second) ensures r in Refs(first) {
      var i := IndexOf(second, r);
      var k :| 0 <= k < |first| && Pairs(first)[k] == (second[i].ref, second[i].selector);
    }
    PayloadCount(first);
    PayloadCount(second);
    SubsetOfSameSize(Refs(second), Refs(first));
  }

  lemma SameAt(first: seq<Taken>, second: seq<Taken>, i: nat)
    requires Distinct(first) && Distinct(second) && i < |second| && (second[i].ref, second[i].selector) in Pairs(first)
    ensures second[i].ref in Refs(first) && SelectorsOf(second)[second[i].ref] == SelectorsOf(first)[second[i].ref]
  {
    var k :| 0 <= k < |first| && Pairs(first)[k] == (second[i].ref, second[i].selector);
    SelectorsAt(second, i);
    SelectorsAt(first, k);
  }

  lemma SubsetOfSameSize(a: set<string>, b: set<string>)
    requires a <= b && |a| == |b|
    ensures a == b
  {
    assert |b - a| == |b| - |a|;
    if x :| x in b && x !in a { assert x in b - a; }
  }
}
