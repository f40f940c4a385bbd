/** The structural difference of two configuration documents. */
module StructuralDiff {
  import opened Wrappers
  import opened Text
  import opened JsonValues

  datatype ChangeKind = Added | Removed | Changed

  datatype Change = Change(path: Path, kind: ChangeKind)

  function Flatten(parts: seq<seq<Change>>): seq<Change> {
    if parts == [] then [] else parts[0] + Flatten(parts[1..])
  }

  /** An added or removed object is reported leaf by leaf; an empty one is a leaf. */
  function LeafChanges(value: Json, path: Path, kind: ChangeKind): seq<Change>
    decreases value, 1
  {
    if value.Obj? then
      var changes := LeavesBelow(value, Sorted(value.fields.Keys), path, kind);
      if changes == [] then [Change(path, kind)] else changes
    else [Change(path, kind)]
  }

  function LeavesBelow(value: Json, keys: seq<string>, path: Path, kind: ChangeKind): seq<Change>
    requires value.Obj? && forall k :: k in keys ==> k in value.fields
    decreases value, 0
  {
    Flatten(seq(|keys|, i requires 0 <= i < |keys| =>
      assert keys[i] in keys; LeafChanges(value.fields[keys[i]], path + [keys[i]], kind)))
  }

  /** Removed keys first, then added ones, then the changes below keys that both have. */
  function Diff(before: Json, after: Json, path: Path): seq<Change>
    decreases before, 1
  {
    if before.Obj? && after.Obj? then
      LeavesBelow(before, Sorted(before.fields.Keys - after.fields.Keys), path, Removed)
      + LeavesBelow(after, Sorted(after.fields.Keys - before.fields.Keys), path, Added)
      + DiffBelow(before, after, Sorted(before.fields.Keys * after.fields.Keys), path)
    else if before == after then [] else [Change(path, Changed)]
  }

  function DiffBelow(before: Json, after: Json, keys: seq<string>, path: Path): seq<Change>
    requires before.Obj? && after.Obj? && forall k :: k in keys ==> k in before.fields && k in after.fields
    decreases before, 0
  {
    Flatten(seq(|keys|, i requires 0 <= i < |keys| =>
      assert keys[i] in keys; Diff(before.fields[keys[i]], after.fields[keys[i]], path + [keys[i]])))
  }

  // ---- which paths are reported -----------------------------------------------------------------

  predicate Leaf(value: Json) {
    value.Obj? ==> value.fields == map[]
  }

  predicate LeafAt(value: Json, q: Path) {
    var v := Get(value, q); v.Some? && Leaf(v.value)
  }

  /** The reported paths, by descent along the path and without any order. */
  predicate Reported(before: Json, after: Json, q: Path, kind: ChangeKind) {
    if before.Obj? && after.Obj? then
      q != [] &&
      (if q[0] in before.fields && q[0] in after.fields
        then Reported(before.fields[q[0]], after.fields[q[0]], q[1..], kind)
       else if q[0] in before.fields then kind == Removed && LeafAt(before.fields[q[0]], q[1..])
       else q[0] in after.fields && kind == Added && LeafAt(after.fields[q[0]], q[1..]))
    else q == [] && kind == Changed && before != after
  }

  lemma {:induction false} FlattenMembers(parts: seq<seq<Change>>, c: Change)
    ensures c in Flatten(parts) <==> exists i :: 0 <= i < |parts| && c in parts[i]
  {
    if parts != [] {
      FlattenMembers(parts[1..], c);
      if c in Flatten(parts[1..]) {
        var i :| 0 <= i < |parts[1..]| && c in parts[1..][i];
        assert c in parts[i + 1];
      }
      if i :| 0 <= i < |parts| && c in parts[i] && i > 0 {
        assert c in parts[1..][i - 1];
      }
    }
  }

  /** A path below `path + [key]`, cut at `path`. */
  lemma CutPath(p: Path, path: Path, key: string)
    ensures path + [key] <= p <==> path <= p && |path| < |p| && p[|path|] == key
    ensures path + [key] <= p ==> p[|path|..] == [key] + p[|path| + 1..] && |path + [key]| == |path| + 1
  {
    if path <= p && |path| < |p| && p[|path|] == key {
      assert p[..|path| + 1] == path + [key];
    }
  }

  /** `p` goes from `path` through one of the keys. */
  predicate Below(p: Path, path: Path, keys: seq<string>) {
    path <= p && |path| < |p| && p[|path|] in keys
  }

  lemma {:induction false} LeafMembers(value: Json, path: Path, kind: ChangeKind, c: Change)
    ensures c in LeafChanges(value, path, kind) <==> c.kind == kind && path <= c.path && LeafAt(value, c.path[|path|..])
    ensures LeafChanges(value, path, kind) != []
    decreases value, 1
  {
    if path <= c.path && c.path[|path|..] == [] {
      assert c.path == path;
    }
    if value.Obj? && value.fields != map[] {
      LeavesMembers(value, Sorted(value.fields.Keys), path, kind, c);
    }
  }

  lemma {:induction false} LeavesMembers(value: Json, keys: seq<string>, path: Path, kind: ChangeKind, c: Change)
    requires value.Obj? && forall k :: k in keys ==> k in value.fields
    ensures c in LeavesBelow(value, keys, path, kind) <==>
              Below(c.path, path, keys) && c.kind == kind && LeafAt(value, c.path[|path|..])
    ensures keys != [] ==> LeavesBelow(value, keys, path, kind) != []
    decreases value, 0
  {
    var parts := seq(|keys|, i requires 0 <= i < |keys| =>
      assert keys[i] in keys; LeafChanges(value.fields[keys[i]], path + [keys[i]], kind));
    FlattenMembers(parts, c);
    forall i | 0 <= i < |keys|
      ensures parts[i] != []
      ensures c in parts[i] <==> Below(c.path, path, [keys[i]]) && c.kind == kind && LeafAt(value, c.path[|path|..])
    {
      assert keys[i] in keys;
      LeafMembers(value.fields[keys[i]], path + [keys[i]], kind, c);
      CutPath(c.path, path, keys[i]);
    }
  }

  /** The three groups of keys are all there are. */
  lemma ReportedSplit(before: Json, after: Json, q: Path, kind: ChangeKind)
    requires before.Obj? && after.Obj?
    ensures Reported(before, after, q, kind) <==>
              q != [] &&
              ((q[0] in before.fields.Keys - after.fields.Keys && kind == Removed && LeafAt(before, q))
               || (q[0] in after.fields.Keys - before.fields.Keys && kind == Added && LeafAt(after, q))
               || (q[0] in before.fields.Keys * after.fields.Keys && Reported(before, after, q, kind)))
  {
  }

  lemma {:induction false} DiffMembers(before: Json, after: Json, path: Path, c: Change)
    ensures c in Diff(before, after, path) <==> path <= c.path && Reported(before, after, c.path[|path|..], c.kind)
    decreases before, 1
  {
    if before.Obj? && after.Obj? {
      LeavesMembers(before, Sorted(before.fields.Keys - after.fields.Keys), path, Removed, c);
      LeavesMembers(after, Sorted(after.fields.Keys - before.fields.Keys), path, Added, c);
      DiffBelowMembers(before, after, Sorted(before.fields.Keys * after.fields.Keys), path, c);
      if path <= c.path { ReportedSplit(before, after, c.path[|path|..], c.kind); }
    } else if path <= c.path && c.path[|path|..] == [] {
      assert c.path == path;
    }
  }

  lemma {:induction false} DiffBelowMembers(before: Json, after: Json, keys: seq<string>, path: Path, c: Change)
    requires before.Obj? && after.Obj? && forall k :: k in keys ==> k in before.fields && k in after.fields
    ensures c in DiffBelow(before, after, keys, path) <==>
              Below(c.path, path, keys) && Reported(before, after, c.path[|path|..], c.kind)
    decreases before, 0
  {
    var parts := seq(|keys|, i requires 0 <= i < |keys| =>
      assert keys[i] in keys; Diff(before.fields[keys[i]], after.fields[keys[i]], path + [keys[i]]));
    FlattenMembers(parts, c);
    forall i | 0 <= i < |keys|
      ensures c in parts[i] <==> Below(c.path, path, [keys[i]]) && Reported(before, after, c.path[|path|..], c.kind)
    {
      assert keys[i] in keys;
      DiffMembers(before.fields[keys[i]], after.fields[keys[i]], path + [keys[i]], c);
      CutPath(c.path, path, keys[i]);
    }
  }

  // ---- soundness and completeness ---------------------------------------------------------------

  /** What a kind of change says about the values at its path. */
  predicate Says(kind: ChangeKind, before: Option<Json>, after: Option<Json>) {
    match kind
    case Added => before.None? && after.Some? && Leaf(after.value)
    case Removed => before.Some? && after.None? && Leaf(before.value)
    case Changed =>
      before.Some? && after.Some? && before.value != after.value && !(before.value.Obj? && after.value.Obj?)
  }

  lemma {:induction false} ReportedSound(before: Json, after: Json, q: Path, kind: ChangeKind)
    requires Reported(before, after, q, kind)
    ensures Says(kind, Get(before, q), Get(after, q))
  {
    if before.Obj? && after.Obj? && q[0] in before.fields && q[0] in after.fields {
      ReportedSound(before.fields[q[0]], after.fields[q[0]], q[1..], kind);
    }
  }

  /** Every reported path is a place where the documents differ, in the reported way. */
  lemma DiffSound(before: Json, after: Json, c: Change)
    requires c in Diff(before, after, [])
    ensures Says(c.kind, Get(before, c.path), Get(after, c.path))
  {
    DiffMembers(before, after, [], c);
    assert c.path[0..] == c.path;
    ReportedSound(before, after, c.path, c.kind);
  }

  predicate Comparable(p: Path, q: Path) {
    p <= q || q <= p
  }

  lemma {:induction false} LeafExists(value: Json) returns (r: Path)
    ensures LeafAt(value, r)
    decreases value
  {
    if Leaf(value) {
      r := [];
    } else {
      var k :| k in value.fields;
      var t := LeafExists(value.fields[k]);
      r := [k] + t;
    }
  }

  lemma {:induction false} DifferenceReported(before: Json, after: Json) returns (r: Path, kind: ChangeKind)
    requires before != after
    ensures Reported(before, after, r, kind)
    decreases before
  {
    if before.Obj? && after.Obj? {
      if k :| k in before.fields && k !in after.fields {
        var t := LeafExists(before.fields[k]);
        r, kind := [k] + t, Removed;
      } else if k :| k in after.fields && k !in before.fields {
        var t := LeafExists(after.fields[k]);
        r, kind := [k] + t, Added;
      } else {
        assert before.fields.Keys == after.fields.Keys;
        var k :| k in before.fields && before.fields[k] != after.fields[k];
        var t, u := DifferenceReported(before.fields[k], after.fields[k]);
        r, kind := [k] + t, u;
        assert r[0] == k && r[1..] == t;
      }
    } else {
      r, kind := [], Changed;
    }
  }

  /** Wherever the documents differ, some comparable path is reported. */
  lemma {:induction false} DifferenceNear(before: Json, after: Json, q: Path) returns (r: Path, kind: ChangeKind)
    requires Get(before, q) != Get(after, q)
    ensures Reported(before, after, r, kind) && Comparable(q, r)
  {
    if q == [] || !(before.Obj? && after.Obj?) {
      r, kind := DifferenceReported(before, after);
    } else if q[0] in before.fields && q[0] in after.fields {
      var t, u := DifferenceNear(before.fields[q[0]], after.fields[q[0]], q[1..]);
      r, kind := [q[0]] + t, u;
      assert q == [q[0]] + q[1..] && r[0] == q[0] && r[1..] == t;
    } else {
      var t := LeafOnWay(if q[0] in before.fields then before.fields[q[0]] else after.fields[q[0]], q[1..]);
      r, kind := [q[0]] + t, if q[0] in before.fields then Removed else Added;
      assert q == [q[0]] + q[1..] && r[0] == q[0] && r[1..] == t;
    }
  }

  /** Below or on the way to any place that exists there is a leaf. */
  lemma {:induction false} LeafOnWay(value: Json, q: Path) returns (r: Path)
    requires Get(value, q).Some?
    ensures LeafAt(value, r) && Comparable(q, r)
  {
    if q == [] {
      r := LeafExists(value);
    } else {
      var t := LeafOnWay(value.fields[q[0]], q[1..]);
      r := [q[0]] + t;
      assert q == [q[0]] + q[1..] && r[1..] == t;
    }
  }

  /** At a path incomparable with all reported ones the documents agree. */
  lemma DiffComplete(before: Json, after: Json, q: Path)
    requires forall c :: c in Diff(before, after, []) ==> !Comparable(q, c.path)
    ensures Get(before, q) == Get(after, q)
  {
    if Get(before, q) != Get(after, q) {
      var r, kind := DifferenceNear(before, after, q);
      assert r[0..] == r;
      DiffMembers(before, after, [], Change(r, kind));
    }
  }

  lemma DiffEmpty(before: Json, after: Json)
    ensures Diff(before, after, []) == [] <==> before == after
  {
    if before != after {
      var r, kind := DifferenceReported(before, after);
      DiffMembers(before, after, [], Change(r, kind));
      assert r[0..] == r;
    } else if Diff(before, after, []) != [] {
      DiffSound(before, after, Diff(before, after, [])[0]);
    }
  }

  // ---- no path twice, none inside another -------------------------------------------------------

  ghost predicate Incomparable(cs: seq<Change>) {
    forall i, j :: 0 <= i < j < |cs| ==> !Comparable(cs[i].path, cs[j].path)
  }

  ghost predicate AllBelow(cs: seq<Change>, path: Path, keys: seq<string>) {
    forall i :: 0 <= i < |cs| ==> Below(cs[i].path, path, keys)
  }

  predicate NoKeyTwice(keys: seq<string>) {
    forall i, j :: 0 <= i < j < |keys| ==> keys[i] != keys[j]
  }

  lemma Apart(p: Path, q: Path, path: Path, keys: seq<string>, others: seq<string>)
    requires Below(p, path, keys) && Below(q, path, others)
    requires forall k :: k in keys ==> k !in others
    ensures !Comparable(p, q)
  {
    assert p[|path|] in keys && q[|path|] !in keys;
  }

  lemma JoinIncomparable(a: seq<Change>, b: seq<Change>, path: Path, keys: seq<string>, others: seq<string>)
    requires Incomparable(a) && Incomparable(b) && AllBelow(a, path, keys) && AllBelow(b, path, others)
    requires forall k :: k in keys ==> k !in others
    ensures Incomparable(a + b) && AllBelow(a + b, path, keys + others)
  {
    forall i, j | 0 <= i < j < |a + b| ensures !Comparable((a + b)[i].path, (a + b)[j].path) {
      if i < |a| && |a| <= j { Apart(a[i].path, b[j - |a|].path, path, keys, others); }
    }
  }

  lemma {:induction false} FlattenIncomparable(parts: seq<seq<Change>>, path: Path, keys: seq<string>)
    requires |parts| == |keys| && NoKeyTwice(keys)
    requires forall i :: 0 <= i < |parts| ==> Incomparable(parts[i]) && AllBelow(parts[i], path, [keys[i]])
    ensures Incomparable(Flatten(parts)) && AllBelow(Flatten(parts), path, keys)
  {
    if parts != [] {
      FlattenIncomparable(parts[1..], path, keys[1..]);
      JoinIncomparable(parts[0], Flatten(parts[1..]), path, [keys[0]], keys[1..]);
      assert [keys[0]] + keys[1..] == keys;
    }
  }

  lemma SortedNoKeyTwice(keys: set<string>)
    ensures NoKeyTwice(Sorted(keys))
  {
    forall i, j | 0 <= i < j < |Sorted(keys)| ensures Sorted(keys)[i] != Sorted(keys)[j] { SortedAscends(keys, i, j); }
  }

  ghost predicate AllUnder(cs: seq<Change>, path: Path) {
    forall i :: 0 <= i < |cs| ==> path <= cs[i].path
  }

  lemma UnderKey(cs: seq<Change>, path: Path, key: string)
    requires AllUnder(cs, path + [key])
    ensures AllBelow(cs, path, [key])
  {
    forall i | 0 <= i < |cs| ensures Below(cs[i].path, path, [key]) { CutPath(cs[i].path, path, key); }
  }

  lemma {:induction false} LeafIncomparable(value: Json, path: Path, kind: ChangeKind)
    ensures Incomparable(LeafChanges(value, path, kind)) && AllUnder(LeafChanges(value, path, kind), path)
    decreases value, 1
  {
    if value.Obj? {
      SortedNoKeyTwice(value.fields.Keys);
      LeavesIncomparable(value, Sorted(value.fields.Keys), path, kind);
    }
  }

  lemma {:induction false} LeavesIncomparable(value: Json, keys: seq<string>, path: Path, kind: ChangeKind)
    requires value.Obj? && (forall k :: k in keys ==> k in value.fields) && NoKeyTwice(keys)
    ensures Incomparable(LeavesBelow(value, keys, path, kind)) &&
            AllBelow(LeavesBelow(value, keys, path, kind), path, keys)
    decreases value, 0
  {
    var parts := seq(|keys|, i requires 0 <= i < |keys| =>
      assert keys[i] in keys; LeafChanges(value.fields[keys[i]], path + [keys[i]], kind));
    forall i | 0 <= i < |parts| ensures Incomparable(parts[i]) && AllBelow(parts[i], path, [keys[i]]) {
      assert keys[i] in keys;
      LeafIncomparable(value.fields[keys[i]], path + [keys[i]], kind);
      UnderKey(parts[i], path, keys[i]);
    }
    FlattenIncomparable(parts, path, keys);
  }

  lemma {:induction false} DiffIncomparable(before: Json, after: Json, path: Path)
    ensures Incomparable(Diff(before, after, path)) && AllUnder(Diff(before, after, path), path)
    decreases before, 1
  {
    if before.Obj? && after.Obj? {
      var gone := Sorted(before.fields.Keys - after.fields.Keys);
      var come := Sorted(after.fields.Keys - before.fields.Keys);
      var both := Sorted(before.fields.Keys * after.fields.Keys);
      SortedNoKeyTwice(before.fields.Keys - after.fields.Keys);
      SortedNoKeyTwice(after.fields.Keys - before.fields.Keys);
      SortedNoKeyTwice(before.fields.Keys * after.fields.Keys);
      LeavesIncomparable(before, gone, path, Removed);
      LeavesIncomparable(after, come, path, Added);
      DiffBelowIncomparable(before, after, both, path);
      JoinThree(LeavesBelow(before, gone, path, Removed), LeavesBelow(after, come, path, Added),
                DiffBelow(before, after, both, path), path, gone, come, both);
    }
  }

  lemma JoinThree(a: seq<Change>, b: seq<Change>, c: seq<Change>, path: Path, ka: seq<string>, kb: seq<string>,
                  kc: seq<string>)
    requires Incomparable(a) && Incomparable(b) && Incomparable(c)
    requires AllBelow(a, path, ka) && AllBelow(b, path, kb) && AllBelow(c, path, kc)
    requires (forall k :: k in ka ==> k !in kb && k !in kc) && forall k :: k in kb ==> k !in kc
    ensures Incomparable(a + b + c) && AllUnder(a + b + c, path)
  {
    JoinIncomparable(a, b, path, ka, kb);
    JoinIncomparable(a + b, c, path, ka + kb, kc);
  }

  lemma {:induction false} DiffBelowIncomparable(before: Json, after: Json, keys: seq<string>, path: Path)
    requires before.Obj? && after.Obj? && (forall k :: k in keys ==> k in before.fields && k in after.fields) &&
             NoKeyTwice(keys)
    ensures Incomparable(DiffBelow(before, after, keys, path)) &&
            AllBelow(DiffBelow(before, after, keys, path), path, keys)
    decreases before, 0
  {
    var parts := seq(|keys|, i requires 0 <= i < |keys| =>
      assert keys[i] in keys; Diff(before.fields[keys[i]], after.fields[keys[i]], path + [keys[i]]));
    forall i | 0 <= i < |parts| ensures Incomparable(parts[i]) && AllBelow(parts[i], path, [keys[i]]) {
      assert keys[i] in keys;
      DiffIncomparable(before.fields[keys[i]], after.fields[keys[i]], path + [keys[i]]);
      UnderKey(parts[i], path, keys[i]);
    }
    FlattenIncomparable(parts, path, keys);
  }
}
