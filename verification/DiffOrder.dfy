/** The order in which a difference is reported: at every object the removed keys come first, then the added ones, then
    those that both have, and within each group the keys ascend. */
module DiffOrder {
  import opened Wrappers
  import opened Text
  import opened JsonValues
  import opened StructuralDiff

  /** What is under a key, if there is an object and it has the key. */
  function Child(j: Option<Json>, key: string): Option<Json> {
    if j.Some? && HasKey(j.value, key) then Some(j.value.fields[key]) else None
  }

  datatype Group = Gone | New | Common {
    function Number(): nat { match this case Gone => 0 case New => 1 case Common => 2 }
  }

  function GroupOf(before: Option<Json>, after: Option<Json>, key: string): Group {
    if Child(after, key).None? then Gone else if Child(before, key).None? then New else Common
  }

  /** One path before another: where they part, its key is of an earlier group, or of the same one and smaller. */
  predicate Earlier(before: Option<Json>, after: Option<Json>, p: Path, q: Path)
    decreases |p|
  {
    p != [] && q != [] &&
    if p[0] == q[0] then Earlier(Child(before, p[0]), Child(after, p[0]), p[1..], q[1..])
    else
      var m, n := GroupOf(before, after, p[0]).Number(), GroupOf(before, after, q[0]).Number();
      m < n || (m == n && Leq(p[0], q[0]))
  }

  /** The same for what follows the first `n` keys. */
  predicate EarlierAt(before: Option<Json>, after: Option<Json>, n: nat, p: Path, q: Path) {
    n <= |p| && n <= |q| && Earlier(before, after, p[n..], q[n..])
  }

  ghost predicate InOrder(before: Option<Json>, after: Option<Json>, n: nat, s: seq<Change>) {
    forall i, j :: 0 <= i < j < |s| ==> EarlierAt(before, after, n, s[i].path, s[j].path)
  }

  ghost predicate AllEarlier(before: Option<Json>, after: Option<Json>, n: nat, s: seq<Change>, t: seq<Change>) {
    forall c, d :: c in s && d in t ==> EarlierAt(before, after, n, c.path, d.path)
  }

  lemma Concatenated(before: Option<Json>, after: Option<Json>, n: nat, s: seq<Change>, t: seq<Change>)
    requires InOrder(before, after, n, s) && InOrder(before, after, n, t) && AllEarlier(before, after, n, s, t)
    ensures InOrder(before, after, n, s + t)
  {
  }

  lemma {:induction false} Flattened(before: Option<Json>, after: Option<Json>, n: nat, parts: seq<seq<Change>>)
    requires forall i :: 0 <= i < |parts| ==> InOrder(before, after, n, parts[i])
    requires forall i, j :: 0 <= i < j < |parts| ==> AllEarlier(before, after, n, parts[i], parts[j])
    ensures InOrder(before, after, n, Flatten(parts))
  {
    if parts != [] {
      var rest := parts[1..];
      forall i | 0 <= i < |rest| ensures InOrder(before, after, n, rest[i]) { assert rest[i] == parts[i + 1]; }
      forall i, j | 0 <= i < j < |rest| ensures AllEarlier(before, after, n, rest[i], rest[j]) {
        assert rest[i] == parts[i + 1] && rest[j] == parts[j + 1];
      }
      Flattened(before, after, n, rest);
      forall c, d | c in parts[0] && d in Flatten(rest) ensures EarlierAt(before, after, n, c.path, d.path) {
        FlattenMembers(rest, d);
        var i :| 0 <= i < |rest| && d in rest[i];
        assert rest[i] == parts[i + 1] && AllEarlier(before, after, n, parts[0], parts[i + 1]);
      }
      Concatenated(before, after, n, parts[0], Flatten(rest));
    }
  }

  /** Every path goes from `path` through the key. */
  ghost predicate Through(path: Path, key: string, s: seq<Change>) {
    forall c :: c in s ==> path + [key] <= c.path
  }

  /** Below one key the order is that of what is under the key. */
  lemma Lifted(before: Option<Json>, after: Option<Json>, path: Path, key: string, s: seq<Change>)
    requires Through(path, key, s) && InOrder(Child(before, key), Child(after, key), |path| + 1, s)
    ensures InOrder(before, after, |path|, s)
  {
    forall i, j | 0 <= i < j < |s| ensures EarlierAt(before, after, |path|, s[i].path, s[j].path) {
      var p, q := s[i].path, s[j].path;
      assert s[i] in s && s[j] in s;
      CutPath(p, path, key);
      CutPath(q, path, key);
      assert EarlierAt(Child(before, key), Child(after, key), |path| + 1, p, q);
      assert p[|path|..][1..] == p[|path| + 1..] && q[|path|..][1..] == q[|path| + 1..];
    }
  }

  /** Paths through different keys are in the order of the keys. */
  lemma Parted(before: Option<Json>, after: Option<Json>, path: Path, key: string, other: string, s: seq<Change>,
               t: seq<Change>)
    requires Through(path, key, s) && Through(path, other, t) && key != other
    requires var m, n := GroupOf(before, after, key).Number(), GroupOf(before, after, other).Number();
             m < n || (m == n && Leq(key, other))
    ensures AllEarlier(before, after, |path|, s, t)
  {
    forall c, d | c in s && d in t ensures EarlierAt(before, after, |path|, c.path, d.path) {
      CutPath(c.path, path, key);
      CutPath(d.path, path, other);
    }
  }

  /** Parts in the order of ascending keys of one group. */
  lemma OneGroup(before: Option<Json>, after: Option<Json>, path: Path, keys: seq<string>, group: Group,
                 parts: seq<seq<Change>>)
    requires |parts| == |keys| && forall i, j :: 0 <= i < j < |keys| ==> Leq(keys[i], keys[j]) && keys[i] != keys[j]
    requires forall i :: 0 <= i < |keys| ==>
               && GroupOf(before, after, keys[i]) == group && Through(path, keys[i], parts[i])
               && InOrder(Child(before, keys[i]), Child(after, keys[i]), |path| + 1, parts[i])
    ensures InOrder(before, after, |path|, Flatten(parts))
  {
    forall i | 0 <= i < |parts| ensures InOrder(before, after, |path|, parts[i]) {
      Lifted(before, after, path, keys[i], parts[i]);
    }
    forall i, j | 0 <= i < j < |parts| ensures AllEarlier(before, after, |path|, parts[i], parts[j]) {
      Parted(before, after, path, keys[i], keys[j], parts[i], parts[j]);
    }
    Flattened(before, after, |path|, parts);
  }

  lemma KeysAscend(keys: set<string>)
    ensures forall i, j :: 0 <= i < j < |Sorted(keys)| ==>
              Leq(Sorted(keys)[i], Sorted(keys)[j]) && Sorted(keys)[i] != Sorted(keys)[j]
  {
    forall i, j | 0 <= i < j < |Sorted(keys)|
      ensures Leq(Sorted(keys)[i], Sorted(keys)[j]) && Sorted(keys)[i] != Sorted(keys)[j]
    {
      SortedAscends(keys, i, j);
    }
  }

  // ---- leaves -------------------------------------------------------------------------------------

  /** A removed value is there before only, an added one after only. */
  predicate OnlyOne(before: Option<Json>, after: Option<Json>, value: Json) {
    (before == Some(value) && after == None) || (before == None && after == Some(value))
  }

  lemma {:induction false} LeavesInOrder(before: Option<Json>, after: Option<Json>, value: Json, path: Path,
                                         kind: ChangeKind)
    requires OnlyOne(before, after, value)
    ensures InOrder(before, after, |path|, LeafChanges(value, path, kind))
    decreases value, 1
  {
    if value.Obj? {
      var keys := Sorted(value.fields.Keys);
      KeysAscend(value.fields.Keys);
      forall k | k in keys ensures GroupOf(before, after, k) == if after == None then Gone else New {}
      forall k | k in keys ensures OnlyOne(Child(before, k), Child(after, k), value.fields[k]) {}
      LeavesBelowInOrder(before, after, value, keys, path, kind, if after == None then Gone else New);
    }
  }

  lemma {:induction false} LeavesBelowInOrder(before: Option<Json>, after: Option<Json>, value: Json,
                                              keys: seq<string>, path: Path, kind: ChangeKind, group: Group)
    requires value.Obj? && forall k :: k in keys ==> k in value.fields
    requires forall i, j :: 0 <= i < j < |keys| ==> Leq(keys[i], keys[j]) && keys[i] != keys[j]
    requires forall k :: k in keys ==> GroupOf(before, after, k) == group
    requires forall k :: k in keys ==> OnlyOne(Child(before, k), Child(after, k), value.fields[k])
    ensures InOrder(before, after, |path|, LeavesBelow(value, keys, path, kind))
    decreases value, 0
  {
    var parts := seq(|keys|, i requires 0 <= i < |keys| =>
      assert keys[i] in keys; LeafChanges(value.fields[keys[i]], path + [keys[i]], kind));
    forall i | 0 <= i < |keys|
      ensures InOrder(Child(before, keys[i]), Child(after, keys[i]), |path| + 1, parts[i])
      ensures Through(path, keys[i], parts[i]) && GroupOf(before, after, keys[i]) == group
    {
      assert keys[i] in keys;
      var k := keys[i];
      LeavesInOrder(Child(before, k), Child(after, k), value.fields[k], path + [k], kind);
      forall c: Change | c in parts[i] ensures path + [k] <= c.path {
        LeafMembers(value.fields[k], path + [k], kind, c);
      }
    }
    OneGroup(before, after, path, keys, group, parts);
  }

  // ---- the difference -----------------------------------------------------------------------------

  /** Every path of a part goes through one of its keys. */
  ghost predicate ThroughSome(path: Path, keys: set<string>, s: seq<Change>) {
    forall c :: c in s ==> Below(c.path, path, Sorted(keys))
  }

  lemma GroupsParted(before: Option<Json>, after: Option<Json>, path: Path, keys: set<string>, others: set<string>,
                     s: seq<Change>, t: seq<Change>)
    requires ThroughSome(path, keys, s) && ThroughSome(path, others, t)
    requires GroupFirst(before, after, keys, others)
    ensures AllEarlier(before, after, |path|, s, t)
  {
    forall c, d | c in s && d in t ensures EarlierAt(before, after, |path|, c.path, d.path) {
      var p, q := c.path[|path|..], d.path[|path|..];
      assert p[0] in keys && q[0] in others;
    }
  }

  lemma DiffThrough(before: Json, after: Json, path: Path, key: string)
    ensures Through(path, key, Diff(before, after, path + [key]))
  {
    forall c | c in Diff(before, after, path + [key]) ensures path + [key] <= c.path {
      DiffMembers(before, after, path + [key], c);
    }
  }

  lemma {:induction false} CommonInOrder(before: Json, after: Json, keys: seq<string>, path: Path)
    requires before.Obj? && after.Obj? && forall k :: k in keys ==> k in before.fields && k in after.fields
    requires forall i, j :: 0 <= i < j < |keys| ==> Leq(keys[i], keys[j]) && keys[i] != keys[j]
    ensures InOrder(Some(before), Some(after), |path|, DiffBelow(before, after, keys, path))
    decreases before, 0
  {
    var parts := seq(|keys|, i requires 0 <= i < |keys| =>
      assert keys[i] in keys; Diff(before.fields[keys[i]], after.fields[keys[i]], path + [keys[i]]));
    forall i | 0 <= i < |keys|
      ensures InOrder(Child(Some(before), keys[i]), Child(Some(after), keys[i]), |path| + 1, parts[i])
      ensures Through(path, keys[i], parts[i]) && GroupOf(Some(before), Some(after), keys[i]) == Common
    {
      assert keys[i] in keys;
      var k := keys[i];
      DiffInOrder(before.fields[k], after.fields[k], path + [k]);
      DiffThrough(before.fields[k], after.fields[k], path, k);
    }
    OneGroup(Some(before), Some(after), path, keys, Common, parts);
  }

  lemma CommonKeys(before: Json, after: Json, keys: set<string>, path: Path)
    requires before.Obj? && after.Obj? && keys <= before.fields.Keys * after.fields.Keys
    ensures ThroughSome(path, keys, DiffBelow(before, after, Sorted(keys), path))
  {
    forall c | c in DiffBelow(before, after, Sorted(keys), path) ensures Below(c.path, path, Sorted(keys)) {
      DiffBelowMembers(before, after, Sorted(keys), path, c);
    }
  }

  lemma OneSided(before: Option<Json>, after: Option<Json>, value: Json, keys: set<string>, path: Path,
                 kind: ChangeKind, group: Group)
    requires value.Obj? && keys <= value.fields.Keys
    requires forall k :: k in keys ==> GroupOf(before, after, k) == group
    requires forall k :: k in keys ==> OnlyOne(Child(before, k), Child(after, k), value.fields[k])
    ensures InOrder(before, after, |path|, LeavesBelow(value, Sorted(keys), path, kind))
    ensures ThroughSome(path, keys, LeavesBelow(value, Sorted(keys), path, kind))
  {
    KeysAscend(keys);
    LeavesBelowInOrder(before, after, value, Sorted(keys), path, kind, group);
    forall c | c in LeavesBelow(value, Sorted(keys), path, kind) ensures Below(c.path, path, Sorted(keys)) {
      LeavesMembers(value, Sorted(keys), path, kind, c);
    }
  }

  ghost predicate GroupFirst(before: Option<Json>, after: Option<Json>, keys: set<string>, others: set<string>) {
    forall k, l :: k in keys && l in others ==>
      GroupOf(before, after, k).Number() < GroupOf(before, after, l).Number()
  }

  lemma ThreeGroups(before: Option<Json>, after: Option<Json>, path: Path, gone: set<string>, new_: set<string>,
                    both: set<string>, a: seq<Change>, b: seq<Change>, c: seq<Change>)
    requires InOrder(before, after, |path|, a) && ThroughSome(path, gone, a)
    requires InOrder(before, after, |path|, b) && ThroughSome(path, new_, b)
    requires InOrder(before, after, |path|, c) && ThroughSome(path, both, c)
    requires GroupFirst(before, after, gone, new_) && GroupFirst(before, after, gone, both)
    requires GroupFirst(before, after, new_, both)
    ensures InOrder(before, after, |path|, a + b + c)
  {
    GroupsParted(before, after, path, gone, new_, a, b);
    GroupsParted(before, after, path, gone, both, a, c);
    GroupsParted(before, after, path, new_, both, b, c);
    Concatenated(before, after, |path|, a, b);
    Concatenated(before, after, |path|, a + b, c);
  }

  lemma GoneInOrder(before: Json, after: Json, path: Path, gone: set<string>)
    requires before.Obj? && after.Obj? && gone == before.fields.Keys - after.fields.Keys
    ensures InOrder(Some(before), Some(after), |path|, LeavesBelow(before, Sorted(gone), path, Removed))
    ensures ThroughSome(path, gone, LeavesBelow(before, Sorted(gone), path, Removed))
  {
    OneSided(Some(before), Some(after), before, gone, path, Removed, Gone);
  }

  lemma NewInOrder(before: Json, after: Json, path: Path, new_: set<string>)
    requires before.Obj? && after.Obj? && new_ == after.fields.Keys - before.fields.Keys
    ensures InOrder(Some(before), Some(after), |path|, LeavesBelow(after, Sorted(new_), path, Added))
    ensures ThroughSome(path, new_, LeavesBelow(after, Sorted(new_), path, Added))
  {
    OneSided(Some(before), Some(after), after, new_, path, Added, New);
  }

  lemma GroupsFirst(before: Json, after: Json, gone: set<string>, new_: set<string>, both: set<string>)
    requires before.Obj? && after.Obj? && gone == before.fields.Keys - after.fields.Keys
    requires new_ == after.fields.Keys - before.fields.Keys && both == before.fields.Keys * after.fields.Keys
    ensures GroupFirst(Some(before), Some(after), gone, new_) && GroupFirst(Some(before), Some(after), gone, both)
    ensures GroupFirst(Some(before), Some(after), new_, both)
  {
  }

  lemma GroupsInOrder(before: Json, after: Json, path: Path, gone: set<string>, new_: set<string>, both: set<string>)
    requires before.Obj? && after.Obj? && gone == before.fields.Keys - after.fields.Keys
    requires new_ == after.fields.Keys - before.fields.Keys && both == before.fields.Keys * after.fields.Keys
    requires InOrder(Some(before), Some(after), |path|, DiffBelow(before, after, Sorted(both), path))
    ensures InOrder(Some(before), Some(after), |path|, LeavesBelow(before, Sorted(gone), path, Removed)
                      + LeavesBelow(after, Sorted(new_), path, Added) + DiffBelow(before, after, Sorted(both), path))
  {
    GoneInOrder(before, after, path, gone);
    NewInOrder(before, after, path, new_);
    CommonKeys(before, after, both, path);
    GroupsFirst(before, after, gone, new_, both);
    ThreeGroups(Some(before), Some(after), path, gone, new_, both, LeavesBelow(before, Sorted(gone), path, Removed),
                LeavesBelow(after, Sorted(new_), path, Added), DiffBelow(before, after, Sorted(both), path));
  }

  lemma {:induction false} DiffInOrder(before: Json, after: Json, path: Path)
    ensures InOrder(Some(before), Some(after), |path|, Diff(before, after, path))
    decreases before, 1
  {
    if before.Obj? && after.Obj? {
      var both := before.fields.Keys * after.fields.Keys;
      KeysAscend(both);
      CommonInOrder(before, after, Sorted(both), path);
      GroupsInOrder(before, after, path, before.fields.Keys - after.fields.Keys, after.fields.Keys - before.fields.Keys,
                    both);
    }
  }

  /** So a difference has one order only, whatever the documents: of two reported changes the first is the earlier. */
  lemma ReportedInOrder(before: Json, after: Json, i: nat, j: nat)
    requires i < j < |Diff(before, after, [])|
    ensures var d := Diff(before, after, []); Earlier(Some(before), Some(after), d[i].path, d[j].path)
  {
    DiffInOrder(before, after, []);
    var d := Diff(before, after, []);
    assert EarlierAt(Some(before), Some(after), 0, d[i].path, d[j].path);
    assert d[i].path[0..] == d[i].path && d[j].path[0..] == d[j].path;
  }
}
