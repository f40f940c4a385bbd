/** What the references look like, what is remembered of the previous ones, which entries count,
    and which reference each element is given. */
module SnapshotOutcomes {
  import opened Text
  import opened SnapshotRefs

  // ---- references are numbers ---------------------------------------------------------------------

  /** The number that digits write. */
  function Number(digits: string): int {
    if digits == "" then 0
    else 10 * Number(digits[..|digits| - 1]) + (digits[|digits| - 1] as int - '0' as int)
  }

  lemma {:induction false} DecimalMeans(n: nat)
    ensures Number(Decimal(n)) == n
  {
    var s := Decimal(n);
    if n >= 10 {
      DecimalMeans(n / 10);
      assert s[..|s| - 1] == Decimal(n / 10);
    } else {
      assert s[..|s| - 1] == "" && Number("") == 0;
    }
  }

  /** No leading zero, and digits. */
  predicate Plain(s: string) {
    s != "" && s[0] != '0' && forall i :: 0 <= i < |s| ==> '0' <= s[i] <= '9'
  }

  lemma {:induction false} PlainIsDecimal(s: string)
    requires Plain(s)
    ensures Number(s) > 0 && Decimal(Number(s)) == s
  {
    var init, last := s[..|s| - 1], s[|s| - 1];
    assert s == init + [last];
    if init == "" {
      assert Number(init) == 0;
    } else {
      assert Plain(init);
      PlainIsDecimal(init);
      assert Number(s) / 10 == Number(init);
    }
    assert Digit(Number(s) % 10) == last;
  }

  /** The references that are accepted from before are exactly those that can be given: an `e` and the digits of a
      number from one on. */
  lemma RefsAreNumbers(s: string)
    ensures IsRef(s) <==> exists n :: n > 0 && s == "e" + Decimal(n)
    ensures IsRef(s) ==> s[0] == 'e' && Number(s[1..]) > 0 && s == Ref(Number(s[1..]))
  {
    if IsRef(s) {
      assert forall i :: 0 <= i < |s| - 1 ==> s[1..][i] == s[i + 1];
      PlainIsDecimal(s[1..]);
      assert s == "e" + s[1..];
    }
    if n :| n > 0 && s == "e" + Decimal(n) { RefIsRef(n); }
  }

  // ---- what counts --------------------------------------------------------------------------------

  /** A previous pair counts if its reference has the pattern and its selector is not blank. */
  predicate Counts(pair: (string, string)) {
    IsRef(pair.0) && !Blank(pair.1)
  }

  /** The last pair that counts for a selector. */
  predicate LastFor(previous: seq<(string, string)>, selector: string, i: nat) {
    && i < |previous| && previous[i].1 == selector && Counts(previous[i])
    && forall j :: i < j < |previous| && previous[j].1 == selector ==> !Counts(previous[j])
  }

  /** Some pair counts for the selector. */
  predicate HasPair(previous: seq<(string, string)>, selector: string) {
    exists i :: 0 <= i < |previous| && previous[i].1 == selector && Counts(previous[i])
  }

  lemma HasPairMore(init: seq<(string, string)>, last: (string, string), selector: string)
    ensures HasPair(init + [last], selector) <==> HasPair(init, selector) || (last.1 == selector && Counts(last))
  {
    var all := init + [last];
    if i :| 0 <= i < |init| && init[i].1 == selector && Counts(init[i]) { assert all[i] == init[i]; }
    assert all[|init|] == last;
  }

  lemma LastForMore(init: seq<(string, string)>, last: (string, string), selector: string, i: nat)
    requires LastFor(init + [last], selector, i)
    ensures if i < |init| then LastFor(init, selector, i) && !(last.1 == selector && Counts(last))
            else i == |init| && last.1 == selector && Counts(last)
  {
    var all := init + [last];
    assert all[|init|] == last && forall j :: 0 <= j < |init| ==> all[j] == init[j];
  }

  /** A selector is known exactly if some pair counts for it, and it has the reference of the last one. */
  lemma {:induction false} KnownIs(previous: seq<(string, string)>, selector: string)
    ensures selector in Known(previous) <==> HasPair(previous, selector)
    ensures forall i: nat :: LastFor(previous, selector, i) ==>
              selector in Known(previous) && Known(previous)[selector] == previous[i].0
  {
    if previous != [] {
      var init, last := previous[..|previous| - 1], previous[|previous| - 1];
      KnownIs(init, selector);
      assert previous == init + [last];
      HasPairMore(init, last, selector);
      forall i: nat | LastFor(previous, selector, i)
        ensures selector in Known(previous) && Known(previous)[selector] == previous[i].0
      {
        LastForMore(init, last, selector, i);
      }
    }
  }

  /** An entry counts if its selector is not blank; the entries that count stay in their order. */
  lemma UsableNext(entries: seq<Entry>, e: Entry)
    ensures Usable([]) == [] && Usable(entries + [e]) == Usable(entries) + (if Blank(e.selector) then [] else [e])
  {
    var lo, hi := TrimCuts(e.selector);
    assert (entries + [e])[..|entries|] == entries;
  }

  /** What is kept of an entry: its role, or that it is an element, and its name, both trimmed. */
  lemma InfoSays(e: Entry)
    ensures InfoOf(e).name == Trim(e.name)
    ensures InfoOf(e).role == if Blank(e.role) then "element" else Trim(e.role)
  {
    var lo, hi := TrimCuts(e.role);
  }

  // ---- which reference is given -------------------------------------------------------------------

  /** The least number whose reference is free. */
  ghost predicate LeastFree(used: set<string>, n: nat) {
    n > 0 && Ref(n) !in used && forall m :: 1 <= m < n ==> Ref(m) in used
  }

  /** A known reference that no earlier element has, and otherwise the least number that no earlier element has. */
  ghost predicate GivenAt(taken: seq<Taken>, known: map<string, string>, i: nat)
    requires i < |taken|
  {
    var used := Refs(taken[..i]);
    if taken[i].selector in known && known[taken[i].selector] !in used
    then taken[i].ref == known[taken[i].selector]
    else exists n :: LeastFree(used, n) && taken[i].ref == Ref(n)
  }

  /** Every number that the counter has passed is in use. */
  ghost predicate PassedAreUsed(s: State) {
    s.next > 0 && forall m :: 1 <= m < s.next ==> Ref(m) in Refs(s.taken)
  }

  lemma TakeGives(s: State, e: Entry, known: map<string, string>, maxRefs: int)
    requires PassedAreUsed(s)
    ensures var s' := Take(s, e, known, maxRefs);
            PassedAreUsed(s') && (s' == s || (|s'.taken| == |s.taken| + 1 && s'.taken[..|s.taken|] == s.taken
                                              && GivenAt(s'.taken, known, |s.taken|)))
  {
    var s' := Take(s, e, known, maxRefs);
    NextFreeIsFree(Refs(s.taken), s.next);
    if s' != s {
      var t := s'.taken[|s.taken|];
      assert s'.taken == s.taken + [t];
      RefsMore(s.taken, t);
      if s'.next != s.next {
        var n := NextFree(Refs(s.taken), s.next);
        assert LeastFree(Refs(s.taken), n) && t.ref == Ref(n);
      }
    }
  }

  lemma {:induction false} GivenInOrder(entries: seq<Entry>, known: map<string, string>, maxRefs: int)
    ensures var s := Build(entries, known, maxRefs);
            PassedAreUsed(s) && forall i :: 0 <= i < |s.taken| ==> GivenAt(s.taken, known, i)
  {
    if entries != [] {
      var init := entries[..|entries| - 1];
      GivenInOrder(init, known, maxRefs);
      var s := Build(init, known, maxRefs);
      var s' := Build(entries, known, maxRefs);
      TakeGives(s, entries[|entries| - 1], known, maxRefs);
      forall i | 0 <= i < |s'.taken| ensures GivenAt(s'.taken, known, i) {
        if i < |s.taken| { SameBefore(s, s', known, i); }
      }
    }
  }

  lemma SameBefore(s: State, s': State, known: map<string, string>, i: nat)
    requires i < |s.taken| <= |s'.taken| && s'.taken[..|s.taken|] == s.taken && GivenAt(s.taken, known, i)
    ensures GivenAt(s'.taken, known, i)
  {
    assert s'.taken[..i] == s.taken[..i] && s'.taken[i] == s'.taken[..|s.taken|][i];
  }

  /** The two results say, under its reference, what each element taken is and how it is found. */
  lemma {:induction false} MapsSay(taken: seq<Taken>, i: nat)
    requires Distinct(taken) && i < |taken|
    ensures taken[i].ref in PayloadOf(taken) && PayloadOf(taken)[taken[i].ref] == taken[i].info
    ensures taken[i].ref in SelectorsOf(taken) && SelectorsOf(taken)[taken[i].ref] == taken[i].selector
  {
    if i < |taken| - 1 { MapsSay(taken[..|taken| - 1], i); }
  }
}
