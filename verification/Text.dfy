/** Strings: white space and trimming, and the order in which keys are sorted. */
module Text {

  /** What `str.strip` removes. */
  predicate IsSpace(c: char) {
    || '\t' <= c <= '\r' || '\U{1c}' <= c <= ' ' || c == '\U{85}' || c == '\U{a0}' || c == '\U{1680}'
    || '\U{2000}' <= c <= '\U{200a}' || c in {'\U{2028}', '\U{2029}', '\U{202f}', '\U{205f}', '\U{3000}'}
  }

  predicate Blank(s: string) {
    forall i :: 0 <= i < |s| ==> IsSpace(s[i])
  }

  function TrimLeft(s: string): string {
    if s != [] && IsSpace(s[0]) then TrimLeft(s[1..]) else s
  }

  function TrimRight(s: string): string {
    if s != [] && IsSpace(s[|s| - 1]) then TrimRight(s[..|s| - 1]) else s
  }

  function Trim(s: string): string {
    TrimRight(TrimLeft(s))
  }

  /** Neither end is white space. */
  predicate Trimmed(s: string) {
    s != [] ==> !IsSpace(s[0]) && !IsSpace(s[|s| - 1])
  }

  lemma {:induction false} TrimLeftCuts(s: string) returns (k: nat)
    ensures k <= |s| && TrimLeft(s) == s[k..] && Blank(s[..k])
    ensures k < |s| ==> !IsSpace(s[k])
  {
    if s != [] && IsSpace(s[0]) {
      var j := TrimLeftCuts(s[1..]);
      k := j + 1;
      assert s[k..] == s[1..][j..];
      assert s[..k] == [s[0]] + s[1..][..j];
    } else {
      k := 0;
    }
  }

  lemma {:induction false} TrimRightCuts(s: string) returns (k: nat)
    ensures k <= |s| && TrimRight(s) == s[..k] && Blank(s[k..])
    ensures k > 0 ==> !IsSpace(s[k - 1])
  {
    if s != [] && IsSpace(s[|s| - 1]) {
      k := TrimRightCuts(s[..|s| - 1]);
      assert s[..k] == s[..|s| - 1][..k];
      assert s[k..] == s[..|s| - 1][k..] + [s[|s| - 1]];
    } else {
      k := |s|;
      assert s[..k] == s;
    }
  }

  /** Trimming cuts a blank prefix and a blank suffix and leaves trimmed text. */
  lemma TrimCuts(s: string) returns (lo: nat, hi: nat)
    ensures lo <= hi <= |s| && Trim(s) == s[lo..hi] && Trimmed(Trim(s))
    ensures Blank(s[..lo]) && Blank(s[hi..])
    ensures Trim(s) == "" <==> Blank(s)
  {
    lo := TrimLeftCuts(s);
    var k := TrimRightCuts(s[lo..]);
    hi := lo + k;
    assert s[lo..][..k] == s[lo..hi] && s[lo..][k..] == s[hi..];
    if lo == hi {
      assert s == s[..lo] + s[hi..];
    } else {
      assert Trim(s)[0] == s[lo] && Trim(s)[|Trim(s)| - 1] == s[hi - 1];
      assert !IsSpace(s[lo]);
    }
  }

  /** Code-point order, as `sorted` uses it. */
  predicate Leq(a: string, b: string) {
    a == [] || (b != [] && (a[0] < b[0] || (a[0] == b[0] && Leq(a[1..], b[1..]))))
  }

  lemma {:induction false} LeqTotal(a: string, b: string)
    ensures Leq(a, b) || Leq(b, a)
    ensures Leq(a, b) && Leq(b, a) ==> a == b
  {
    if a != [] && b != [] && a[0] == b[0] {
      LeqTotal(a[1..], b[1..]);
      assert a == [a[0]] + a[1..] && b == [b[0]] + b[1..];
    }
  }

  lemma {:induction false} LeqTransitive(a: string, b: string, c: string)
    requires Leq(a, b) && Leq(b, c)
    ensures Leq(a, c)
  {
    if a != [] && a[0] == b[0] && b[0] == c[0] {
      LeqTransitive(a[1..], b[1..], c[1..]);
    }
  }

  predicate IsLeast(keys: set<string>, x: string) {
    x in keys && forall y :: y in keys ==> Leq(x, y)
  }

  lemma LeastExists(keys: set<string>)
    requires keys != {}
    ensures exists x :: IsLeast(keys, x)
  {
    var y :| y in keys;
    LeqTotal(y, y);
    if keys == {y} {
      assert IsLeast(keys, y);
    } else {
      LeastExists(keys - {y});
      var x :| IsLeast(keys - {y}, x);
      LeqTotal(x, y);
      var z := if Leq(x, y) then x else y;
      forall w | w in keys ensures Leq(z, w) {
        if w != y {
          assert w in keys - {y};
          if z == y { LeqTransitive(y, x, w); }
        }
      }
      assert IsLeast(keys, z);
    }
  }

  lemma LeastUnique(keys: set<string>, x: string, y: string)
    requires IsLeast(keys, x) && IsLeast(keys, y)
    ensures x == y
  {
    LeqTotal(x, y);
  }

  function Least(keys: set<string>): (x: string)
    requires keys != {}
    ensures IsLeast(keys, x)
  {
    LeastExists(keys);
    assert forall x, y :: IsLeast(keys, x) && IsLeast(keys, y) ==> x == y by {
      forall x, y | IsLeast(keys, x) && IsLeast(keys, y) ensures x == y { LeastUnique(keys, x, y); }
    }
    var x :| IsLeast(keys, x);
    x
  }

  /** `sorted(keys)`: every key once, in ascending order. */
  function Sorted(keys: set<string>): (s: seq<string>)
    ensures |s| == |keys| && forall k :: k in s <==> k in keys
    decreases keys
  {
    if keys == {} then [] else
    var x := Least(keys);
    [x] + Sorted(keys - {x})
  }

  lemma {:induction false} SortedAscends(keys: set<string>, i: nat, j: nat)
    requires i < j < |Sorted(keys)|
    ensures Leq(Sorted(keys)[i], Sorted(keys)[j]) && Sorted(keys)[i] != Sorted(keys)[j]
    decreases keys
  {
    var x := Least(keys);
    var s, t := Sorted(keys), Sorted(keys - {x});
    assert s == [x] + t && s[j] == t[j - 1] && t[j - 1] in t;
    if i == 0 {
      assert s[i] == x && t[j - 1] in keys - {x};
    } else {
      assert s[i] == t[i - 1];
      SortedAscends(keys - {x}, i - 1, j - 1);
    }
  }

  // ---- the rules, said without recursion --------------------------------------------------------------

  /** The code points that are white space. */
  lemma Spaces(c: char)
    ensures IsSpace(c) <==>
            var n := c as int;
            || 9 <= n <= 13 || 28 <= n <= 32 || n == 133 || n == 160 || n == 5760 || 8192 <= n <= 8202
            || n == 8232 || n == 8233 || n == 8239 || n == 8287 || n == 12288
  {
  }

  /** Two texts part at a position: the first one ends there, or has the smaller character. */
  predicate PartAt(a: string, b: string, k: nat) {
    k <= |a| && k <= |b| && a[..k] == b[..k] && (k == |a| || (k < |b| && a[k] < b[k]))
  }

  /** The order of keys: a text is not after another exactly if it is a beginning of it, or has the smaller character
      where they first differ. */
  lemma {:induction false} LeqIs(a: string, b: string)
    ensures Leq(a, b) <==> exists k :: PartAt(a, b, k)
  {
    if a == [] {
      assert PartAt(a, b, 0);
    } else if b != [] && a[0] == b[0] {
      LeqIs(a[1..], b[1..]);
      if k :| PartAt(a[1..], b[1..], k) { OneFurther(a, b, k); }
      if k :| PartAt(a, b, k) { OneNearer(a, b, k); }
    } else if b != [] && a[0] < b[0] {
      assert PartAt(a, b, 0);
    } else if k: nat :| PartAt(a, b, k) {
      SameHead(a, b, k);
    }
  }

  lemma SameHead(a: string, b: string, k: nat)
    requires a != [] && PartAt(a, b, k)
    ensures b != [] && if k == 0 then a[0] < b[0] else a[0] == b[0]
  {
    if k > 0 { assert a[..k][0] == a[0] && b[..k][0] == b[0]; }
  }

  lemma OneFurther(a: string, b: string, k: nat)
    requires a != [] && b != [] && a[0] == b[0] && PartAt(a[1..], b[1..], k)
    ensures PartAt(a, b, k + 1)
  {
    assert a[..k + 1] == [a[0]] + a[1..][..k] && b[..k + 1] == [b[0]] + b[1..][..k];
  }

  lemma OneNearer(a: string, b: string, k: nat)
    requires a != [] && b != [] && a[0] == b[0] && PartAt(a, b, k)
    ensures k > 0 && PartAt(a[1..], b[1..], k - 1)
  {
    assert a[1..][..k - 1] == a[..k][1..] && b[1..][..k - 1] == b[..k][1..];
  }

  /** Sorted keys ascend: of two of them the earlier is a proper beginning of the later, or has the smaller character
      where they first differ. */
  lemma SortedParts(keys: set<string>, i: nat, j: nat)
    requires i < j < |Sorted(keys)|
    ensures Sorted(keys)[i] != Sorted(keys)[j] && exists k :: PartAt(Sorted(keys)[i], Sorted(keys)[j], k)
  {
    SortedAscends(keys, i, j);
    LeqIs(Sorted(keys)[i], Sorted(keys)[j]);
  }
}
