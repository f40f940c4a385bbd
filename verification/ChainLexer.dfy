/** How a shell command reads: escaped pairs, quoted regions and chain operators. All positions are
    positions in the whole command. */
module ChainLexer {
  import opened Text

  /** Length of the chain operator at a position, or 0. */
  function OpLen(s: string, i: nat): (n: nat)
    requires i <= |s|
    ensures i + n <= |s|
  {
    if i + 1 < |s| && s[i] == s[i + 1] && s[i] in {'&', '|'} then 2
    else if i < |s| && s[i] == ';' then 1
    else 0
  }

  /** Where a single-quoted region ends, past its closing quote: at the end if there is none. */
  function SingleEnd(s: string, i: nat): (e: nat)
    requires i <= |s|
    ensures i <= e <= |s|
    decreases |s| - i
  {
    if i == |s| then i else if s[i] == '\'' then i + 1 else SingleEnd(s, i + 1)
  }

  predicate SingleClosed(s: string, i: nat)
    requires i <= |s|
    decreases |s| - i
  {
    i < |s| && (s[i] == '\'' || SingleClosed(s, i + 1))
  }

  /** In double quotes a backslash takes the next character with it. */
  function DoubleEnd(s: string, i: nat): (e: nat)
    requires i <= |s|
    ensures i <= e <= |s|
    decreases |s| - i
  {
    if i == |s| then i
    else if s[i] == '"' then i + 1
    else if s[i] != '\\' then DoubleEnd(s, i + 1)
    else if i + 1 == |s| then i + 1
    else DoubleEnd(s, i + 2)
  }

  predicate DoubleClosed(s: string, i: nat)
    requires i <= |s|
    decreases |s| - i
  {
    i < |s| && (s[i] == '"' || (if s[i] != '\\' then DoubleClosed(s, i + 1) else i + 1 < |s| && DoubleClosed(s, i + 2)))
  }

  /** Where the lexeme at a position ends, if it is not an operator. */
  function TextEnd(s: string, i: nat): (e: nat)
    requires i < |s|
    ensures i < e <= |s|
  {
    if s[i] == '\\' then (if i + 1 == |s| then i + 1 else i + 2)
    else if s[i] == '\'' then SingleEnd(s, i + 1)
    else if s[i] == '"' then DoubleEnd(s, i + 1)
    else i + 1
  }

  /** Where the first chain operator from a position on is, or the length of the command. */
  function FirstOp(s: string, i: nat): (p: nat)
    requires i <= |s|
    ensures i <= p <= |s| && (p < |s| ==> OpLen(s, p) > 0)
    decreases |s| - i
  {
    if i == |s| || OpLen(s, i) > 0 then i else FirstOp(s, TextEnd(s, i))
  }

  predicate OpFree(s: string) {
    FirstOp(s, 0) == |s|
  }

  /** Every quoted region from a position to the first operator is closed. */
  predicate ClosedFrom(s: string, i: nat)
    requires i <= |s|
    decreases |s| - i
  {
    i == |s| || OpLen(s, i) > 0
    || ((s[i] == '\'' ==> SingleClosed(s, i + 1)) && (s[i] == '"' ==> DoubleClosed(s, i + 1))
        && ClosedFrom(s, TextEnd(s, i)))
  }

  predicate EndsOutside(s: string) {
    ClosedFrom(s, 0)
  }

  /** The pieces between the operators, from a position on. */
  function Chunks(s: string, b: nat): (c: seq<string>)
    requires b <= |s|
    ensures |c| >= 1
    decreases |s| - b
  {
    var p := FirstOp(s, b);
    if p == |s| then [s[b..]] else [s[b..p]] + Chunks(s, p + OpLen(s, p))
  }

  function Operators(s: string, b: nat): (o: seq<string>)
    requires b <= |s|
    decreases |s| - b
  {
    var p := FirstOp(s, b);
    if p == |s| then [] else [s[p..p + OpLen(s, p)]] + Operators(s, p + OpLen(s, p))
  }

  function Trims(chunks: seq<string>): (r: seq<string>)
    ensures |r| == |chunks| && forall i :: 0 <= i < |r| ==> r[i] == Trim(chunks[i])
  {
    seq(|chunks|, i requires 0 <= i < |chunks| => Trim(chunks[i]))
  }

  predicate NoneBlank(chunks: seq<string>) {
    forall i :: 0 <= i < |chunks| ==> Trim(chunks[i]) != ""
  }

  // ---- conservation -----------------------------------------------------------------------------

  function Weave(chunks: seq<string>, operators: seq<string>): string
    requires |chunks| == |operators| + 1
  {
    if operators == [] then chunks[0] else chunks[0] + operators[0] + Weave(chunks[1..], operators[1..])
  }

  lemma WeaveOne(c: string, o: string, chunks: seq<string>, operators: seq<string>)
    requires |chunks| == |operators| + 1
    ensures Weave([c] + chunks, [o] + operators) == c + o + Weave(chunks, operators)
  {
    assert ([c] + chunks)[1..] == chunks && ([o] + operators)[1..] == operators;
  }

  lemma CutTwice(s: string, b: nat, p: nat, q: nat)
    requires b <= p <= q <= |s|
    ensures s[b..] == s[b..p] + s[p..q] + s[q..]
  {
  }

  lemma OperatorText(s: string, p: nat)
    requires p <= |s| && OpLen(s, p) > 0
    ensures s[p..p + OpLen(s, p)] in {"&&", "||", ";"}
  {
    var o := s[p..p + OpLen(s, p)];
    if s[p] == ';' { assert o == ";"; } else if s[p] == '&' { assert o == "&&"; } else { assert o == "||"; }
  }

  lemma {:induction false} OperatorsAre(s: string, b: nat)
    requires b <= |s|
    ensures |Chunks(s, b)| == |Operators(s, b)| + 1 && forall o :: o in Operators(s, b) ==> o in {"&&", "||", ";"}
    decreases |s| - b
  {
    var p := FirstOp(s, b);
    if p < |s| {
      OperatorsAre(s, p + OpLen(s, p));
      OperatorText(s, p);
    }
  }

  /** Nothing is lost: the pieces and the operators, in turn, are the command. */
  lemma {:induction false} ChunksAndOperators(s: string, b: nat)
    requires b <= |s|
    ensures |Chunks(s, b)| == |Operators(s, b)| + 1 && Weave(Chunks(s, b), Operators(s, b)) == s[b..]
    decreases |s| - b
  {
    OperatorsAre(s, b);
    var p := FirstOp(s, b);
    if p < |s| {
      var q := p + OpLen(s, p);
      ChunksAndOperators(s, q);
      CutTwice(s, b, p, q);
      WeaveOne(s[b..p], s[p..q], Chunks(s, q), Operators(s, q));
    }
  }

  lemma FirstChunk(s: string, b: nat)
    requires b <= |s|
    ensures Chunks(s, b)[0] == s[b..FirstOp(s, b)] && (FirstOp(s, b) == |s| <==> |Chunks(s, b)| == 1)
  {
    assert s[b..|s|] == s[b..];
  }

  /** Each piece reaches from some position to the next operator, or, the last one, to the end. */
  lemma {:induction false} ChunkAt(s: string, b: nat, i: nat) returns (lo: nat)
    requires b <= |s| && i < |Chunks(s, b)|
    ensures b <= lo <= |s| && Chunks(s, b)[i] == s[lo..FirstOp(s, lo)]
    ensures FirstOp(s, lo) < |s| <==> i + 1 < |Chunks(s, b)|
    decreases |s| - b
  {
    if i == 0 {
      lo := b;
      FirstChunk(s, b);
    } else {
      lo := ChunkAt(s, FirstOp(s, b) + OpLen(s, FirstOp(s, b)), i - 1);
    }
  }

  // ---- reading a part of a command on its own -----------------------------------------------------

  /** `c` is what stands in `s` from position `b` on. */
  predicate Window(c: string, s: string, b: nat) {
    b + |c| <= |s| && forall j :: 0 <= j < |c| ==> c[j] == s[b + j]
  }

  function Min(a: nat, b: nat): nat { if a < b then a else b }

  lemma {:induction false} SingleIn(c: string, s: string, b: nat, i: nat)
    requires Window(c, s, b) && i <= |c|
    ensures b + SingleEnd(c, i) == Min(SingleEnd(s, b + i), b + |c|)
    ensures SingleClosed(c, i) ==> SingleClosed(s, b + i) && SingleEnd(s, b + i) == b + SingleEnd(c, i)
    ensures SingleClosed(s, b + i) && SingleEnd(s, b + i) <= b + |c| ==> SingleClosed(c, i)
    ensures !SingleClosed(c, i) ==> SingleEnd(s, b + i) == SingleEnd(s, b + |c|)
    decreases |c| - i
  {
    if i < |c| && c[i] != '\'' { SingleIn(c, s, b, i + 1); }
  }

  lemma {:induction false} DoubleIn(c: string, s: string, b: nat, i: nat)
    requires Window(c, s, b) && i <= |c|
    ensures b + DoubleEnd(c, i) == Min(DoubleEnd(s, b + i), b + |c|)
    ensures DoubleClosed(c, i) ==> DoubleClosed(s, b + i) && DoubleEnd(s, b + i) == b + DoubleEnd(c, i)
    ensures DoubleClosed(s, b + i) && DoubleEnd(s, b + i) <= b + |c| ==> DoubleClosed(c, i)
    ensures !DoubleClosed(c, i) ==>
              DoubleEnd(s, b + i) == DoubleEnd(s, b + |c|) ||
                (b + |c| < |s| && DoubleEnd(s, b + i) == DoubleEnd(s, b + |c| + 1))
    decreases |c| - i
  {
    if i < |c| && c[i] == '\\' {
      if i + 1 < |c| { DoubleIn(c, s, b, i + 2); }
    } else if i < |c| && c[i] != '"' {
      DoubleIn(c, s, b, i + 1);
    }
  }

  lemma TextEndIn(c: string, s: string, b: nat, i: nat)
    requires Window(c, s, b) && i < |c|
    ensures b + TextEnd(c, i) == Min(TextEnd(s, b + i), b + |c|)
  {
    assert c[i] == s[b + i];
    SingleIn(c, s, b, i + 1);
    DoubleIn(c, s, b, i + 1);
  }

  lemma NoOpIn(c: string, s: string, b: nat, i: nat)
    requires Window(c, s, b) && i < |c| && OpLen(s, b + i) == 0
    ensures OpLen(c, i) == 0
  {
    assert c[i] == s[b + i];
    if i + 1 < |c| { assert c[i + 1] == s[b + (i + 1)]; }
  }

  /** A part that stops at or before the first operator has none. */
  lemma {:induction false} OpFreeIn(c: string, s: string, b: nat, i: nat)
    requires Window(c, s, b) && i <= |c| && b + |c| <= FirstOp(s, b + i)
    ensures FirstOp(c, i) == |c|
    decreases |c| - i
  {
    if i < |c| {
      NoOpIn(c, s, b, i);
      TextEndIn(c, s, b, i);
      if TextEnd(s, b + i) <= b + |c| { OpFreeIn(c, s, b, TextEnd(c, i)); }
    }
  }

  /** The rest of a command reads as it does there. */
  lemma {:induction false} FirstOpInRest(t: string, s: string, d: nat, i: nat)
    requires Window(t, s, d) && |s| == d + |t| && i <= |t|
    ensures FirstOp(s, d + i) == d + FirstOp(t, i)
    decreases |t| - i
  {
    if i < |t| {
      OpInRest(t, s, d, i);
      TextEndIn(t, s, d, i);
      if OpLen(t, i) == 0 { FirstOpInRest(t, s, d, TextEnd(t, i)); }
    }
  }

  lemma OpInRest(t: string, s: string, d: nat, i: nat)
    requires Window(t, s, d) && |s| == d + |t| && i <= |t|
    ensures OpLen(s, d + i) == OpLen(t, i)
  {
    if i < |t| { assert t[i] == s[d + i]; }
    if i + 1 < |t| { assert t[i + 1] == s[d + (i + 1)]; }
  }

  // ---- white space ------------------------------------------------------------------------------

  predicate BlankBetween(s: string, i: nat, j: nat) {
    i <= j <= |s| && forall k :: i <= k < j ==> IsSpace(s[k])
  }

  /** White space outside quotes is not part of any lexeme. */
  lemma {:induction false} SkipBlank(s: string, i: nat, j: nat)
    requires BlankBetween(s, i, j)
    ensures FirstOp(s, i) == FirstOp(s, j) && (ClosedFrom(s, i) <==> ClosedFrom(s, j))
    decreases j - i
  {
    if i < j {
      BlankIsAlone(s, i);
      SkipBlank(s, i + 1, j);
    }
  }

  lemma BlankIsAlone(s: string, i: nat)
    requires i < |s| && IsSpace(s[i])
    ensures OpLen(s, i) == 0 && TextEnd(s, i) == i + 1 && s[i] != '\'' && s[i] != '"'
  {
  }

  // ---- text that ends outside quotes --------------------------------------------------------------

  lemma {:induction false} SingleOpen(s: string, i: nat)
    requires i <= |s|
    ensures !SingleClosed(s, i) ==> SingleEnd(s, i) == |s|
    ensures SingleClosed(s, i) ==> SingleEnd(s, i) > i && s[SingleEnd(s, i) - 1] == '\''
    decreases |s| - i
  {
    if i < |s| { SingleOpen(s, i + 1); }
  }

  lemma {:induction false} DoubleOpen(s: string, i: nat)
    requires i <= |s|
    ensures !DoubleClosed(s, i) ==> DoubleEnd(s, i) == |s|
    ensures DoubleClosed(s, i) ==> DoubleEnd(s, i) > i && s[DoubleEnd(s, i) - 1] == '"'
    decreases |s| - i
  {
    if i < |s| && s[i] == '\\' {
      if i + 1 < |s| { DoubleOpen(s, i + 2); }
    } else if i < |s| {
      DoubleOpen(s, i + 1);
    }
  }

  /** Before an operator every quoted region is closed. */
  lemma {:induction false} OutsideBeforeOp(s: string, i: nat)
    requires i <= |s| && FirstOp(s, i) < |s|
    ensures ClosedFrom(s, i)
    decreases |s| - i
  {
    if OpLen(s, i) == 0 {
      OutsideBeforeOp(s, TextEnd(s, i));
      SingleOpen(s, i + 1);
      DoubleOpen(s, i + 1);
    }
  }

  /** A lexeme that ends in white space and is not quoted can be cut anywhere. */
  lemma CutInLexeme(c: string, s: string, b: nat, i: nat)
    requires Window(c, s, b) && i < |c| && OpLen(s, b + i) == 0 && ClosedFrom(s, b + i)
    requires TextEnd(s, b + i) > b + |c| && IsSpace(s[TextEnd(s, b + i) - 1])
    ensures ClosedFrom(c, i)
  {
    SingleOpen(s, b + i + 1);
    DoubleOpen(s, b + i + 1);
    NoOpIn(c, s, b, i);
    TextEndIn(c, s, b, i);
    assert c[i] == s[b + i] == '\\';
  }

  /** Cutting off white space outside quotes leaves text that ends outside quotes. */
  lemma {:induction false} CutOutside(c: string, s: string, b: nat, i: nat)
    requires Window(c, s, b) && i <= |c| && b + |c| <= FirstOp(s, b + i)
    requires ClosedFrom(s, b + i) && BlankBetween(s, b + |c|, FirstOp(s, b + i))
    ensures ClosedFrom(c, i)
    decreases |c| - i
  {
    if i < |c| {
      if TextEnd(s, b + i) > b + |c| {
        CutInLexeme(c, s, b, i);
      } else {
        NoOpIn(c, s, b, i);
        TextEndIn(c, s, b, i);
        CutOutside(c, s, b, TextEnd(c, i));
        assert c[i] == s[b + i];
        SingleIn(c, s, b, i + 1);
        DoubleIn(c, s, b, i + 1);
      }
    }
  }

  /** After text that ends outside quotes, a blank and then anything reads as it would on its own:
      a trailing backslash takes the blank. */
  lemma {:induction false} BlankAfter(p: string, u: string, b: nat, i: nat)
    requires Window(p, u, b) && b + |p| < |u| && u[b + |p|] == ' '
    requires i <= |p| && FirstOp(p, i) == |p| && ClosedFrom(p, i)
    ensures FirstOp(u, b + i) == FirstOp(u, b + |p| + 1)
    decreases |p| - i
  {
    if i < |p| {
      LexemeStays(p, u, b, i);
      if TextEnd(u, b + i) == b + TextEnd(p, i) { BlankAfter(p, u, b, TextEnd(p, i)); }
    }
  }

  lemma LexemeStays(p: string, u: string, b: nat, i: nat)
    requires Window(p, u, b) && b + |p| < |u| && u[b + |p|] == ' ' && i < |p| && OpLen(p, i) == 0 && ClosedFrom(p, i)
    ensures OpLen(u, b + i) == 0
    ensures TextEnd(u, b + i) == b + TextEnd(p, i) || (TextEnd(p, i) == |p| && TextEnd(u, b + i) == b + |p| + 1)
  {
    assert p[i] == u[b + i];
    if i + 1 < |p| { assert p[i + 1] == u[b + (i + 1)]; }
    SingleIn(p, u, b, i + 1);
    DoubleIn(p, u, b, i + 1);
  }

  lemma NoOperatorHere(p: string, u: string, b: nat, n: nat, i: nat)
    requires Window(p, u, b) && Unmarked(u, b + |p|, n) && i < |p| && FirstOp(p, i) == |p|
    ensures p[i] == u[b + i] && OpLen(u, b + i) == 0
  {
    assert p[i] == u[b + i] && u[b + |p|] == ' ';
    if i + 1 < |p| { assert p[i + 1] == u[b + (i + 1)]; }
  }

  /** After an open quote, characters without a mark are swallowed. */
  lemma {:induction false} OpenQuoteSwallows(p: string, u: string, b: nat, n: nat, i: nat)
    requires Window(p, u, b) && Unmarked(u, b + |p|, n)
    requires i <= |p| && FirstOp(p, i) == |p| && !ClosedFrom(p, i)
    ensures FirstOp(u, b + i) >= b + |p| + n
    decreases |p| - i
  {
    NoOperatorHere(p, u, b, n, i);
    SingleIn(p, u, b, i + 1);
    DoubleIn(p, u, b, i + 1);
    UnmarkedSwallowed(u, b + |p|, b + |p| + n);
    if (p[i] == '\'' ==> SingleClosed(p, i + 1)) && (p[i] == '"' ==> DoubleClosed(p, i + 1)) {
      assert TextEnd(p, i) < |p|;
      assert TextEnd(u, b + i) == b + TextEnd(p, i);
      OpenQuoteSwallows(p, u, b, n, TextEnd(p, i));
    }
  }

  predicate Mark(c: char) { c == '\'' || c == '"' || c == '\\' }

  /** `n` characters that are neither quotes nor backslashes, of which the first is a blank. */
  predicate Unmarked(u: string, e: nat, n: nat) {
    n >= 1 && e + n <= |u| && u[e] == ' ' && forall k :: e <= k < e + n ==> !Mark(u[k])
  }

  lemma {:induction false} UnmarkedSwallowed(u: string, e: nat, f: nat)
    requires e <= f <= |u| && forall k :: e <= k < f ==> !Mark(u[k])
    ensures SingleEnd(u, e) >= f && DoubleEnd(u, e) >= f && (e < f ==> DoubleEnd(u, e + 1) >= f)
    decreases f - e
  {
    if e < f { UnmarkedSwallowed(u, e + 1, f); }
  }
}
