/** What the parts of a chain are, and joining them again. */
module ChainJoin {
  import opened Wrappers
  import opened Text
  import opened ChainLexer
  import opened ChainSplit
  import opened ChainModes

  /** What a part can be: trimmed, not empty, without an operator outside quotes and escapes. */
  predicate Part(p: string) {
    p != "" && Trimmed(p) && OpFree(p)
  }

  lemma PieceBlanks(s: string, lo: nat, hi: nat, l: nat, h: nat)
    requires lo <= l <= h <= hi <= |s| && Blank(s[lo..l]) && Blank(s[h..hi])
    ensures BlankBetween(s, lo, l) && BlankBetween(s, h, hi)
  {
    assert forall k :: lo <= k < l ==> s[k] == s[lo..l][k - lo];
    assert forall k :: h <= k < hi ==> s[k] == s[h..hi][k - h];
  }

  lemma SliceOf(s: string, lo: nat, hi: nat, i: nat, j: nat)
    requires lo <= hi <= |s| && i <= j <= hi - lo
    ensures s[lo..hi][i..j] == s[lo + i..lo + j]
  {
    assert forall k :: 0 <= k < j - i ==> s[lo..hi][i..j][k] == s[lo..hi][i + k] == s[lo + (i + k)];
  }

  /** A trimmed piece is a window of the command, with white space around it. */
  lemma TrimmedPiece(s: string, lo: nat, hi: nat) returns (l: nat, h: nat)
    requires lo <= hi <= |s|
    ensures lo <= l <= h <= hi && Trim(s[lo..hi]) == s[l..h]
    ensures BlankBetween(s, lo, l) && BlankBetween(s, h, hi)
  {
    var i, j := TrimCuts(s[lo..hi]);
    l, h := lo + i, lo + j;
    SliceOf(s, lo, hi, i, j);
    SliceOf(s, lo, hi, 0, i);
    SliceOf(s, lo, hi, j, hi - lo);
    PieceBlanks(s, lo, hi, l, h);
  }

  /** A window of a piece with only white space around it. */
  lemma WindowReads(s: string, lo: nat, l: nat, h: nat)
    requires BlankBetween(s, lo, l) && l <= h && BlankBetween(s, h, FirstOp(s, lo))
    ensures OpFree(s[l..h]) && (FirstOp(s, lo) < |s| ==> EndsOutside(s[l..h]))
  {
    var c := s[l..h];
    assert Window(c, s, l);
    SkipBlank(s, lo, l);
    OpFreeIn(c, s, l, 0);
    if FirstOp(s, lo) < |s| {
      OutsideBeforeOp(s, lo);
      CutOutside(c, s, l, 0);
    }
  }

  lemma TrimIsTrimmed(c: string)
    ensures Trimmed(Trim(c))
  {
    var i, j := TrimCuts(c);
  }

  lemma PieceIsPart(s: string, lo: nat, t: string)
    requires lo <= |s| && t == Trim(s[lo..FirstOp(s, lo)]) && t != ""
    ensures Part(t) && (FirstOp(s, lo) < |s| ==> EndsOutside(t))
  {
    var l, h := TrimmedPiece(s, lo, FirstOp(s, lo));
    WindowReads(s, lo, l, h);
    TrimIsTrimmed(s[lo..FirstOp(s, lo)]);
  }

  lemma OpFreeIsNoChain(p: string)
    requires OpFree(p)
    ensures Chunks(p, 0) == [p] && Split(p) == None
  {
    assert p[0..] == p;
  }

  /** Every part is trimmed, not blank, and not itself a chain. */
  lemma PartsAreWhole(s: string, i: nat)
    requires Split(s).Some? && i < |Split(s).value|
    ensures Part(Split(s).value[i]) && Split(Split(s).value[i]) == None
    ensures i + 1 < |Split(s).value| ==> EndsOutside(Split(s).value[i])
  {
    var lo := ChunkAt(s, 0, i);
    PieceIsPart(s, lo, Split(s).value[i]);
    OpFreeIsNoChain(Split(s).value[i]);
  }

  /** A chain has at least two parts, one more than it has operators. */
  lemma PartsCount(s: string)
    requires Split(s).Some?
    ensures |Split(s).value| == |Operators(s, 0)| + 1 >= 2
  {
    OperatorsAre(s, 0);
  }

  // ---- joining ----------------------------------------------------------------------------------

  predicate IsOperator(op: string) {
    op == "&&" || op == "||" || op == ";"
  }

  ghost predicate Operate(ops: seq<string>) {
    forall i :: 0 <= i < |ops| ==> IsOperator(ops[i])
  }

  /** Parts with operators between them, and a blank on either side of each. */
  function Join(parts: seq<string>, ops: seq<string>): string
    requires |parts| == |ops| + 1
  {
    if ops == [] then parts[0] else parts[0] + " " + ops[0] + " " + Join(parts[1..], ops[1..])
  }

  ghost predicate Parts(parts: seq<string>) {
    forall i :: 0 <= i < |parts| ==> Part(parts[i])
  }

  ghost predicate AllOutside(parts: seq<string>) {
    forall i :: 0 <= i < |parts| - 1 ==> EndsOutside(parts[i])
  }

  lemma {:induction false} TrimAfter(p: string, after: string)
    requires Blank(after) && p != "" && Trimmed(p)
    ensures TrimRight(p + after) == p
  {
    if after != "" {
      assert (p + after)[..|p + after| - 1] == p + after[..|after| - 1];
      TrimAfter(p, after[..|after| - 1]);
    } else {
      assert p + after == p;
    }
  }

  lemma {:induction false} TrimBefore(pad: string, t: string)
    requires Blank(pad) && t != "" && !IsSpace(t[0])
    ensures TrimLeft(pad + t) == t
  {
    if pad != "" {
      assert (pad + t)[1..] == pad[1..] + t;
      TrimBefore(pad[1..], t);
    } else {
      assert pad + t == t;
    }
  }

  lemma TrimPad(pad: string, p: string, after: string)
    requires Blank(pad) && Blank(after) && p != "" && Trimmed(p)
    ensures Trim(pad + p + after) == p
  {
    assert pad + p + after == pad + (p + after);
    TrimBefore(pad, p + after);
    TrimAfter(p, after);
  }

  predicate Pad(pad: string) {
    pad == "" || pad == " "
  }

  /** `text` is what stands in `u` from position `d` to the end. */
  predicate Rest(text: string, u: string, d: nat) {
    Window(text, u, d) && |u| == d + |text|
  }

  function Joined(pad: string, p: string, op: string, t: string): string {
    pad + p + " " + op + " " + t
  }

  /** Its characters, one stretch after the other. */
  lemma JoinedCharacters(pad: string, p: string, op: string, t: string)
    ensures var v, e, n := Joined(pad, p, op, t), |pad| + |p|, |op|;
            && |v| == e + n + 2 + |t| && v[e] == ' ' && v[e + n + 1] == ' '
            && Window(p, v, |pad|) && Window(pad, v, 0) && Window(op, v, e + 1) && Window(t, v, e + n + 2)
  {
  }

  lemma WindowInWindow(c: string, v: string, i: nat, u: string, d: nat)
    requires Window(c, v, i) && Window(v, u, d)
    ensures Window(c, u, d + i)
  {
    forall j | 0 <= j < |c| ensures c[j] == u[d + i + j] { assert v[i + j] == u[d + (i + j)]; }
  }

  /** Where everything is when a padded part and an operator come before more text. */
  lemma Placed(u: string, d: nat, pad: string, p: string, op: string, t: string)
    requires Pad(pad) && IsOperator(op) && Rest(Joined(pad, p, op, t), u, d)
    ensures var e, n := d + |pad| + |p|, |op|;
            && Window(p, u, d + |pad|) && BlankBetween(u, d, d + |pad|)
            && e + n + 2 <= |u| && u[e] == ' ' && Window(op, u, e + 1) && u[e + n + 1] == ' '
  {
    var v, e, n := Joined(pad, p, op, t), |pad| + |p|, |op|;
    JoinedCharacters(pad, p, op, t);
    WindowInWindow(p, v, |pad|, u, d);
    WindowInWindow(pad, v, 0, u, d);
    WindowInWindow(op, v, e + 1, u, d);
    assert u[d + e] == v[e] && u[d + (e + n + 1)] == v[e + n + 1];
  }

  lemma PlacedRest(u: string, d: nat, pad: string, p: string, op: string, t: string)
    requires Rest(Joined(pad, p, op, t), u, d)
    ensures var e := d + |pad| + |p| + |op| + 1; e <= |u| && Rest(" " + t, u, e)
  {
    JoinedCharacters(pad, p, op, t);
    BlankBefore(Joined(pad, p, op, t), |pad| + |p| + |op| + 1, t);
    WindowInWindow(" " + t, Joined(pad, p, op, t), |pad| + |p| + |op| + 1, u, d);
  }

  lemma BlankBefore(v: string, e: nat, t: string)
    requires e < |v| && v[e] == ' ' && Window(t, v, e + 1)
    ensures Window(" " + t, v, e)
  {
    var w := " " + t;
    forall j | 0 <= j < |w| ensures w[j] == v[e + j] { if j > 0 { assert w[j] == t[j - 1] == v[e + 1 + (j - 1)]; } }
  }

  lemma PlacedPiece(u: string, d: nat, pad: string, p: string, op: string, t: string)
    requires Rest(Joined(pad, p, op, t), u, d)
    ensures d + |pad| + |p| + 1 <= |u| && u[d..d + |pad| + |p| + 1] == pad + p + " "
  {
    var v, c := Joined(pad, p, op, t), pad + p + " ";
    assert |v| == |c| + |op| + 1 + |t|;
    forall j | 0 <= j < |c| ensures u[d..d + |c|][j] == c[j] { assert v[j] == u[d + j]; }
  }

  lemma OperatorHere(u: string, k: nat, op: string)
    requires IsOperator(op) && Window(op, u, k)
    ensures OpLen(u, k) == |op| && FirstOp(u, k) == k
  {
    assert op[0] == u[k + 0];
    if |op| == 2 { assert op[1] == u[k + 1]; }
  }

  /** A part that ends outside quotes is read up to the blank after it. */
  lemma ReadOver(u: string, b: nat, p: string, op: string)
    requires Window(p, u, b) && b + |p| < |u| && u[b + |p|] == ' ' && IsOperator(op) && Window(op, u, b + |p| + 1)
    requires OpFree(p) && EndsOutside(p)
    ensures FirstOp(u, b) == b + |p| + 1 && OpLen(u, b + |p| + 1) == |op|
  {
    BlankAfter(p, u, b, 0);
    OperatorHere(u, b + |p| + 1, op);
  }

  /** So it is split off exactly, at the operator that was put after it. */
  lemma SplitOff(u: string, d: nat, pad: string, p: string, op: string, t: string)
    requires Pad(pad) && IsOperator(op) && Rest(Joined(pad, p, op, t), u, d) && OpFree(p) && EndsOutside(p)
    ensures var k := d + |pad| + |p| + 1; k <= |u| && FirstOp(u, d) == k && OpLen(u, k) == |op|
  {
    Placed(u, d, pad, p, op, t);
    SkipBlank(u, d, d + |pad|);
    ReadOver(u, d + |pad|, p, op);
  }

  lemma SplitOffChunks(u: string, d: nat, pad: string, p: string, op: string, t: string)
    requires Pad(pad) && IsOperator(op) && Rest(Joined(pad, p, op, t), u, d) && OpFree(p) && EndsOutside(p)
    ensures var k := d + |pad| + |p| + 1; k + |op| <= |u| && Chunks(u, d) == [pad + p + " "] + Chunks(u, k + |op|)
  {
    SplitOff(u, d, pad, p, op, t);
    PlacedPiece(u, d, pad, p, op, t);
  }

  lemma TrimSpans(c: string, i: nat, j: nat)
    requires i <= j < |c| && !IsSpace(c[i]) && !IsSpace(c[j])
    ensures |Trim(c)| >= j - i + 1
  {
    var lo, hi := TrimCuts(c);
    assert forall k :: 0 <= k < lo ==> c[..lo][k] == c[k];
    assert forall k :: hi <= k < |c| ==> c[hi..][k - hi] == c[k];
  }

  lemma OpenQuoteReaches(u: string, d: nat, pad: string, p: string, op: string, t: string)
    requires Pad(pad) && IsOperator(op) && Rest(Joined(pad, p, op, t), u, d) && OpFree(p) && !EndsOutside(p)
    ensures FirstOp(u, d) >= d + |pad| + |p| + |op| + 2
  {
    var e, n := d + |pad| + |p|, |op|;
    Placed(u, d, pad, p, op, t);
    SkipBlank(u, d, d + |pad|);
    forall k | e <= k < e + n + 2 ensures !Mark(u[k]) {
      if e < k < e + n + 1 { assert u[e + 1 + (k - e - 1)] == op[k - e - 1]; }
    }
    OpenQuoteSwallows(p, u, d + |pad|, n + 2, 0);
  }

  /** A part with an open quote swallows what follows it. */
  lemma NotSplitOff(u: string, d: nat, pad: string, p: string, op: string, t: string)
    requires Pad(pad) && IsOperator(op) && Rest(Joined(pad, p, op, t), u, d) && Part(p) && !EndsOutside(p)
    ensures Trim(Chunks(u, d)[0]) != p
  {
    OpenQuoteReaches(u, d, pad, p, op, t);
    Placed(u, d, pad, p, op, t);
    FirstChunk(u, d);
    var c, i, j := u[d..FirstOp(u, d)], |pad|, |pad| + |p| + 1;
    assert c[i] == u[d + i] == p[0] && c[j] == u[d + j] == op[0];
    TrimSpans(c, i, j);
  }

  lemma PlacedLast(u: string, d: nat, pad: string, p: string)
    requires Pad(pad) && Rest(pad + p, u, d)
    ensures Window(p, u, d + |pad|) && |u| == d + |pad| + |p| && BlankBetween(u, d, d + |pad|) && u[d..] == pad + p
  {
    var v := pad + p;
    forall j | 0 <= j < |p| ensures p[j] == u[d + |pad| + j] { assert v[|pad| + j] == u[d + (|pad| + j)]; }
    forall j | 0 <= j < |pad| ensures pad[j] == u[d + j] { assert v[j] == u[d + j]; }
    forall j | 0 <= j < |v| ensures u[d..][j] == v[j] {}
  }

  lemma LastIsOpFree(u: string, d: nat, pad: string, p: string)
    requires Pad(pad) && Rest(pad + p, u, d) && OpFree(p)
    ensures FirstOp(u, d) == |u|
  {
    PlacedLast(u, d, pad, p);
    SkipBlank(u, d, d + |pad|);
    FirstOpInRest(p, u, d + |pad|, 0);
  }

  lemma TrimPadded(pad: string, p: string)
    requires Pad(pad) && Part(p)
    ensures Trim(pad + p) == p
  {
    assert pad + p == pad + p + "";
    TrimPad(pad, p, "");
  }

  lemma JoinedOne(u: string, d: nat, pad: string, p: string)
    requires Pad(pad) && Rest(pad + p, u, d) && Part(p)
    ensures Trims(Chunks(u, d)) == [p]
  {
    LastIsOpFree(u, d, pad, p);
    PlacedLast(u, d, pad, p);
    TrimPadded(pad, p);
    assert Chunks(u, d) == [pad + p];
  }

  lemma TrimsHead(head: string, p: string, tail: seq<string>, rest: seq<string>)
    requires Trim(head) == p
    ensures Trims([head] + tail) == [p] + rest <==> Trims(tail) == rest
  {
    assert Trims([head] + tail) == [p] + Trims(tail);
    assert ([p] + Trims(tail))[1..] == Trims(tail) && ([p] + rest)[1..] == rest;
  }

  lemma JoinedMore(u: string, d: nat, pad: string, p: string, op: string, t: string, rest: seq<string>)
    requires Pad(pad) && IsOperator(op) && Rest(Joined(pad, p, op, t), u, d) && Part(p)
    ensures var e := d + |pad| + |p| + |op| + 1;
            && e <= |u|
            && (EndsOutside(p) ==> (Trims(Chunks(u, d)) == [p] + rest <==> Trims(Chunks(u, e)) == rest))
            && (!EndsOutside(p) ==> Trims(Chunks(u, d)) != [p] + rest)
  {
    if EndsOutside(p) {
      SplitOffChunks(u, d, pad, p, op, t);
      TrimPad(pad, p, " ");
      TrimsHead(pad + p + " ", p, Chunks(u, d + |pad| + |p| + |op| + 1), rest);
    } else {
      NotSplitOff(u, d, pad, p, op, t);
      assert Trims(Chunks(u, d))[0] != p;
    }
  }

  lemma AllOutsideTail(parts: seq<string>)
    requires |parts| >= 2 && EndsOutside(parts[0])
    ensures AllOutside(parts) <==> AllOutside(parts[1..])
  {
    assert forall i :: 1 <= i < |parts| ==> parts[i] == parts[1..][i - 1];
  }

  lemma JoinParts(pad: string, parts: seq<string>, ops: seq<string>)
    requires |parts| == |ops| + 1 && ops != []
    ensures pad + Join(parts, ops) == Joined(pad, parts[0], ops[0], Join(parts[1..], ops[1..]))
  {
  }

  lemma HeadAndRest(parts: seq<string>)
    requires |parts| >= 2
    ensures parts == [parts[0]] + parts[1..] && forall i :: 0 <= i < |parts[1..]| ==> parts[1..][i] == parts[i + 1]
  {
  }

  /** The head joins what is already known of the rest: `first` and `later` are what is read. */
  lemma HeadJoins(parts: seq<string>, first: seq<string>, later: seq<string>)
    requires |parts| >= 2
    requires EndsOutside(parts[0]) ==> (first == [parts[0]] + parts[1..] <==> later == parts[1..])
    requires !EndsOutside(parts[0]) ==> first != [parts[0]] + parts[1..]
    requires later == parts[1..] <==> AllOutside(parts[1..])
    ensures first == parts <==> AllOutside(parts)
  {
    HeadAndRest(parts);
    if EndsOutside(parts[0]) { AllOutsideTail(parts); }
  }

  lemma PartsTail(parts: seq<string>, ops: seq<string>)
    requires |parts| == |ops| + 1 && ops != [] && Parts(parts) && Operate(ops)
    ensures Part(parts[0]) && Parts(parts[1..]) && IsOperator(ops[0]) && Operate(ops[1..])
  {
    HeadAndRest(parts);
  }

  /** Where the next part begins, and what reading this one takes. */
  lemma JoinedStep(u: string, d: nat, pad: string, parts: seq<string>, ops: seq<string>)
    requires |parts| == |ops| + 1 && ops != [] && Parts(parts) && Operate(ops)
    requires Pad(pad) && Rest(pad + Join(parts, ops), u, d)
    ensures Part(parts[0]) && Parts(parts[1..]) && Operate(ops[1..])
    ensures var p, e := parts[0], d + |pad| + |parts[0]| + |ops[0]| + 1;
            && e <= |u| && Rest(" " + Join(parts[1..], ops[1..]), u, e)
            && (EndsOutside(p) ==>
                  (Trims(Chunks(u, d)) == [p] + parts[1..] <==> Trims(Chunks(u, e)) == parts[1..]))
            && (!EndsOutside(p) ==> Trims(Chunks(u, d)) != [p] + parts[1..])
  {
    JoinParts(pad, parts, ops);
    PartsTail(parts, ops);
    PlacedRest(u, d, pad, parts[0], ops[0], Join(parts[1..], ops[1..]));
    JoinedMore(u, d, pad, parts[0], ops[0], Join(parts[1..], ops[1..]), parts[1..]);
  }

  /** Joined parts, read back, are the parts exactly when every part but the last ends outside quotes. */
  lemma {:induction false} JoinedChunks(u: string, d: nat, pad: string, parts: seq<string>, ops: seq<string>)
    requires |parts| == |ops| + 1 && Parts(parts) && Operate(ops)
    requires Pad(pad) && Rest(pad + Join(parts, ops), u, d)
    ensures Trims(Chunks(u, d)) == parts <==> AllOutside(parts)
    decreases |parts|
  {
    if ops == [] {
      JoinedLast(u, d, pad, parts);
    } else {
      var e := NextPart(u, d, pad, parts, ops);
      JoinedChunks(u, e, " ", parts[1..], ops[1..]);
      HeadJoins(parts, Trims(Chunks(u, d)), Trims(Chunks(u, e)));
    }
  }

  lemma NextPart(u: string, d: nat, pad: string, parts: seq<string>, ops: seq<string>) returns (e: nat)
    requires |parts| == |ops| + 1 && ops != [] && Parts(parts) && Operate(ops)
    requires Pad(pad) && Rest(pad + Join(parts, ops), u, d)
    ensures Parts(parts[1..]) && Operate(ops[1..]) && e <= |u| && Rest(" " + Join(parts[1..], ops[1..]), u, e)
    ensures EndsOutside(parts[0]) ==>
              (Trims(Chunks(u, d)) == [parts[0]] + parts[1..] <==> Trims(Chunks(u, e)) == parts[1..])
    ensures !EndsOutside(parts[0]) ==> Trims(Chunks(u, d)) != [parts[0]] + parts[1..]
  {
    e := d + |pad| + |parts[0]| + |ops[0]| + 1;
    JoinedStep(u, d, pad, parts, ops);
  }

  lemma JoinedLast(u: string, d: nat, pad: string, parts: seq<string>)
    requires Pad(pad) && |parts| == 1 && Parts(parts) && Rest(pad + Join(parts, []), u, d)
    ensures Trims(Chunks(u, d)) == parts && AllOutside(parts)
  {
    JoinedOne(u, d, pad, parts[0]);
    assert parts == [parts[0]];
  }

  lemma PartsNotBlank(c: seq<string>, parts: seq<string>)
    requires Trims(c) == parts && Parts(parts)
    ensures NoneBlank(c) && |c| == |parts|
  {
    forall i | 0 <= i < |c| ensures Trim(c[i]) != "" { assert Trim(c[i]) == parts[i]; }
  }

  /** A part: not blank at either end, and no operator in it stands outside quotes and not escaped. */
  predicate IsPart(p: string) {
    && p != "" && !IsSpace(p[0]) && !IsSpace(p[|p| - 1])
    && forall i :: 0 <= i < |p| ==> !OperatorAt(p, i)
  }

  lemma PartIs(p: string)
    ensures IsPart(p) <==> Part(p)
    ensures IsPart(p) ==> (EndsOutside(p) <==> !Quoted(ModeAt(p, |p|)))
  {
    OpFreeIs(p);
    if OpFree(p) { EndsOutsideIs(p); }
  }

  /** Splitting undoes joining, whatever operators join, exactly when no part but the last leaves a quote open. */
  lemma SplitUndoesJoin(parts: seq<string>, ops: seq<string>)
    requires |parts| == |ops| + 1 >= 2 && Operate(ops) && forall i :: 0 <= i < |parts| ==> IsPart(parts[i])
    ensures Split(Join(parts, ops)) == Some(parts) <==>
            forall i :: 0 <= i < |ops| ==> !Quoted(ModeAt(parts[i], |parts[i]|))
  {
    var u := Join(parts, ops);
    forall i | 0 <= i < |parts|
      ensures Part(parts[i]) && (EndsOutside(parts[i]) <==> !Quoted(ModeAt(parts[i], |parts[i]|)))
    {
      PartIs(parts[i]);
    }
    assert "" + u == u;
    JoinedChunks(u, 0, "", parts, ops);
    if Trims(Chunks(u, 0)) == parts { PartsNotBlank(Chunks(u, 0), parts); }
  }

  /** So joining what was split, with whatever operators, gives a command that splits the same way. */
  lemma NormalForm(s: string, ops: seq<string>)
    requires Split(s).Some? && Operate(ops) && |Split(s).value| == |ops| + 1
    ensures Split(Join(Split(s).value, ops)) == Split(s)
  {
    var parts := Split(s).value;
    forall i | 0 <= i < |parts|
      ensures IsPart(parts[i]) && (i + 1 < |parts| ==> !Quoted(ModeAt(parts[i], |parts[i]|)))
    {
      PartsAreWhole(s, i);
      PartIs(parts[i]);
    }
    SplitUndoesJoin(parts, ops);
  }
}
