/** Where a command is cut, said with no lexer: by reading it character by character and remembering only whether the
    last one stood inside quotes or was escaped. */
module ChainModes {
  import opened Wrappers
  import opened Text
  import opened ChainLexer
  import opened ChainSplit

  /** Outside quotes, inside single or double quotes, or after a backslash outside or inside double quotes. */
  datatype Mode = Plain | Single | Double | Escape | DoubleEscape

  function Read(m: Mode, c: char): Mode {
    match m
    case Escape => Plain
    case DoubleEscape => Double
    case Single => if c == '\'' then Plain else Single
    case Double => if c == '\\' then DoubleEscape else if c == '"' then Plain else Double
    case Plain => if c == '\\' then Escape else if c == '\'' then Single else if c == '"' then Double else Plain
  }

  /** The mode before a position. */
  function ModeAt(s: string, i: nat): Mode
    requires i <= |s|
  {
    if i == 0 then Plain else Read(ModeAt(s, i - 1), s[i - 1])
  }

  predicate TwoAt(s: string, i: nat) {
    i + 1 < |s| && ((s[i] == '&' && s[i + 1] == '&') || (s[i] == '|' && s[i + 1] == '|'))
  }

  /** An operator stands here, outside quotes and not escaped. */
  predicate OperatorAt(s: string, i: nat) {
    i < |s| && ModeAt(s, i) == Plain && (TwoAt(s, i) || s[i] == ';')
  }

  /** A command is cut at every operator that is not the second half of one before it. */
  predicate CutAt(s: string, i: nat) {
    OperatorAt(s, i) && !(i > 0 && TwoAt(s, i - 1) && CutAt(s, i - 1))
  }

  /** The pieces from a position on, the first of which began at `start`. */
  function Pieces(s: string, start: nat, i: nat): seq<string>
    requires start <= i <= |s|
    decreases |s| - i
  {
    if i == |s| then [s[start..]]
    else if !CutAt(s, i) then Pieces(s, start, i + 1)
    else if TwoAt(s, i) then [s[start..i]] + Pieces(s, i + 2, i + 2)
    else [s[start..i]] + Pieces(s, i + 1, i + 1)
  }

  // ---- the lexer agrees ---------------------------------------------------------------------------------

  lemma {:induction false} SingleModes(s: string, i: nat)
    requires i <= |s| && ModeAt(s, i) == Single
    ensures forall q :: i <= q < SingleEnd(s, i) ==> ModeAt(s, q) == Single
    ensures ModeAt(s, SingleEnd(s, i)) == if SingleClosed(s, i) then Plain else Single
    decreases |s| - i
  {
    if i < |s| {
      assert ModeAt(s, i + 1) == Read(ModeAt(s, i), s[i]);
      if s[i] != '\'' { SingleModes(s, i + 1); }
    }
  }

  lemma {:induction false} DoubleModes(s: string, i: nat)
    requires i <= |s| && ModeAt(s, i) == Double
    ensures forall q :: i <= q < DoubleEnd(s, i) ==> ModeAt(s, q) in {Double, DoubleEscape}
    ensures DoubleClosed(s, i) ==> ModeAt(s, DoubleEnd(s, i)) == Plain
    ensures !DoubleClosed(s, i) ==> ModeAt(s, DoubleEnd(s, i)) in {Double, DoubleEscape}
    decreases |s| - i
  {
    if i < |s| {
      assert ModeAt(s, i + 1) == Read(ModeAt(s, i), s[i]);
      if s[i] == '\\' {
        if i + 1 < |s| {
          assert ModeAt(s, i + 2) == Read(ModeAt(s, i + 1), s[i + 1]);
          DoubleModes(s, i + 2);
        }
      } else if s[i] != '"' {
        DoubleModes(s, i + 1);
      }
    }
  }

  predicate Quoted(m: Mode) {
    m == Single || m == Double || m == DoubleEscape
  }

  /** Every quote that opens here is closed. */
  predicate ClosesHere(s: string, i: nat)
    requires i < |s|
  {
    (s[i] == '\'' ==> SingleClosed(s, i + 1)) && (s[i] == '"' ==> DoubleClosed(s, i + 1))
  }

  /** No position inside a lexeme is outside quotes, and at its end it is over unless a quote is left open. */
  lemma LexemeModes(s: string, i: nat)
    requires i < |s| && ModeAt(s, i) == Plain && OpLen(s, i) == 0
    ensures var e := TextEnd(s, i);
            && (forall q :: i < q < e ==> ModeAt(s, q) != Plain)
            && (e < |s| ==> ModeAt(s, e) == Plain && ClosesHere(s, i))
            && (Quoted(ModeAt(s, e)) <==> !ClosesHere(s, i))
  {
    assert ModeAt(s, i + 1) == Read(Plain, s[i]);
    if s[i] == '\\' {
      if i + 1 < |s| { assert ModeAt(s, i + 2) == Read(Escape, s[i + 1]); }
    } else if s[i] == '\'' {
      SingleModes(s, i + 1);
      SingleOpen(s, i + 1);
    } else if s[i] == '"' {
      DoubleModes(s, i + 1);
      DoubleOpen(s, i + 1);
    }
  }

  lemma OpLenIs(s: string, i: nat)
    requires i < |s|
    ensures OpLen(s, i) == if TwoAt(s, i) then 2 else if s[i] == ';' then 1 else 0
  {
  }

  /** The first operator is the first position where one stands, outside quotes and not escaped. */
  lemma {:induction false} FirstOpIs(s: string, i: nat)
    requires i <= |s| && (i < |s| ==> ModeAt(s, i) == Plain)
    ensures var p := FirstOp(s, i);
            && (forall q :: i <= q < p ==> !OperatorAt(s, q)) && (p < |s| ==> OperatorAt(s, p))
    decreases |s| - i
  {
    if i < |s| {
      OpLenIs(s, i);
      if OpLen(s, i) == 0 {
        LexemeModes(s, i);
        FirstOpIs(s, TextEnd(s, i));
      }
    }
  }

  /** Nothing has been read of what stands here. */
  predicate Fresh(s: string, b: nat) {
    b <= |s| && (b < |s| ==> ModeAt(s, b) == Plain) && !(b > 0 && TwoAt(s, b - 1) && CutAt(s, b - 1))
  }

  lemma {:induction false} NoCut(s: string, b: nat, p: nat)
    requires Fresh(s, b) && b <= p <= |s| && (forall q :: b <= q < p ==> !OperatorAt(s, q))
    ensures forall q :: b <= q < p ==> !CutAt(s, q)
    ensures p < |s| && OperatorAt(s, p) ==> CutAt(s, p)
  {
    if b < p { assert !CutAt(s, p - 1); }
  }

  lemma {:induction false} PiecesSkip(s: string, start: nat, i: nat, p: nat)
    requires start <= i <= p <= |s| && forall q :: i <= q < p ==> !CutAt(s, q)
    ensures Pieces(s, start, i) == Pieces(s, start, p)
    decreases p - i
  {
    if i < p { PiecesSkip(s, start, i + 1, p); }
  }

  lemma AfterCut(s: string, p: nat)
    requires CutAt(s, p)
    ensures Fresh(s, p + if TwoAt(s, p) then 2 else 1)
  {
    assert ModeAt(s, p + 1) == Read(ModeAt(s, p), s[p]);
    if TwoAt(s, p) { assert ModeAt(s, p + 2) == Read(ModeAt(s, p + 1), s[p + 1]); }
  }

  /** The pieces of the lexer are the text between these cuts, */
  lemma {:induction false} ChunksArePieces(s: string, b: nat)
    requires Fresh(s, b)
    ensures Chunks(s, b) == Pieces(s, b, b)
    decreases |s| - b
  {
    var p := FirstOp(s, b);
    FirstOpIs(s, b);
    NoCut(s, b, p);
    PiecesSkip(s, b, b, p);
    if p < |s| {
      OpLenIs(s, p);
      AfterCut(s, p);
      ChunksArePieces(s, p + OpLen(s, p));
    }
  }

  /** so a command is split at exactly these cuts: it has no parts without one, or when a piece is blank, and else the
      trimmed pieces. */
  lemma SplitsAtCuts(s: string)
    ensures var pieces := Pieces(s, 0, 0);
            && |pieces| >= 1 && (|pieces| == 1 <==> Uncut(s))
            && (Split(s).Some? <==> |pieces| > 1 && forall i :: 0 <= i < |pieces| ==> Trim(pieces[i]) != "")
            && (Split(s).Some? ==>
                  |Split(s).value| == |pieces|
                  && forall i :: 0 <= i < |pieces| ==> Split(s).value[i] == Trim(pieces[i]))
  {
    ChunksArePieces(s, 0);
    CutsSomewhere(s);
    FirstChunk(s, 0);
  }

  /** Nothing is cut. */
  predicate Uncut(s: string) {
    forall i :: 0 <= i < |s| ==> !CutAt(s, i)
  }

  lemma CutsHere(s: string, p: nat)
    requires p < |s| && CutAt(s, p)
    ensures !Uncut(s)
  {
  }

  lemma CutsSomewhere(s: string)
    ensures FirstOp(s, 0) == |s| <==> Uncut(s)
  {
    FirstOpIs(s, 0);
    var p := FirstOp(s, 0);
    NoCut(s, 0, p);
    if p < |s| { CutsHere(s, p); }
  }

  /** A text has no operator exactly if none stands in it outside quotes and not escaped. */
  lemma OpFreeIs(p: string)
    ensures OpFree(p) <==> forall i :: 0 <= i < |p| ==> !OperatorAt(p, i)
  {
    FirstOpIs(p, 0);
  }

  lemma {:induction false} ClosedIs(p: string, i: nat)
    requires i <= |p| && FirstOp(p, i) == |p| && ModeAt(p, i) == Plain
    ensures ClosedFrom(p, i) <==> !Quoted(ModeAt(p, |p|))
    decreases |p| - i
  {
    if i < |p| {
      LexemeModes(p, i);
      var e := TextEnd(p, i);
      if ModeAt(p, e) == Plain { ClosedIs(p, e); }
    }
  }

  /** Without an operator, it ends outside quotes exactly if the last mode is not inside them. */
  lemma EndsOutsideIs(p: string)
    requires OpFree(p)
    ensures EndsOutside(p) <==> !Quoted(ModeAt(p, |p|))
  {
    ClosedIs(p, 0);
  }
}
