/** The one-pass splitter, what it computes, and when joining undoes it. */
module ChainSplit {
  import opened Wrappers
  import opened Text
  import opened ChainLexer

  /** No chain without an operator; no result when a piece is blank. */
  function Split(s: string): Option<seq<string>> {
    if |Chunks(s, 0)| == 1 || !NoneBlank(Chunks(s, 0)) then None else Some(Trims(Chunks(s, 0)))
  }

  // ---- the loop ---------------------------------------------------------------------------------

  /** The trimmed pieces that are not blank, in order. */
  function Kept(chunks: seq<string>): seq<string> {
    if chunks == [] then []
    else Kept(chunks[..|chunks| - 1]) + (if Trim(chunks[|chunks| - 1]) == "" then [] else [Trim(chunks[|chunks| - 1])])
  }

  lemma {:induction false} KeptIsTrims(chunks: seq<string>)
    requires NoneBlank(chunks)
    ensures Kept(chunks) == Trims(chunks)
  {
    if chunks != [] {
      var init, last := chunks[..|chunks| - 1], chunks[|chunks| - 1];
      forall i | 0 <= i < |init| ensures Trim(init[i]) != "" { assert init[i] == chunks[i]; }
      KeptIsTrims(init);
      assert Trims(chunks) == Trims(init) + [Trim(last)];
    }
  }

  /** The scanner's flags. At most the second of the quotes can be escaped in. */
  datatype Flags = Flags(inSingle: bool, inDouble: bool, escaped: bool) {
    predicate Plain() { !inSingle && !inDouble && !escaped }
  }

  function Toggled(f: Flags, ch: char): Flags {
    if f.escaped then f.(escaped := false)
    else if !f.inSingle && ch == '\\' then f.(escaped := true)
    else if f.inSingle then f.(inSingle := ch != '\'')
    else if f.inDouble then f.(inDouble := ch != '"')
    else if ch == '\'' then f.(inSingle := true)
    else if ch == '"' then f.(inDouble := true)
    else f
  }

  /** What the flags say when the scanner, at `idx`, is inside the lexeme that starts at `st`. */
  predicate Inside(s: string, st: nat, idx: nat, f: Flags)
    requires st <= idx <= |s|
  {
    if f.Plain() then st == idx
    else
      && st < idx && OpLen(s, st) == 0 && !(f.inSingle && f.inDouble)
      && (if f.inSingle then !f.escaped && TextEnd(s, st) == SingleEnd(s, idx)
          else if f.inDouble && !f.escaped then TextEnd(s, st) == DoubleEnd(s, idx)
          else if f.inDouble then TextEnd(s, st) == if idx < |s| then DoubleEnd(s, idx + 1) else idx
          else idx == st + 1 && s[st] == '\\')
  }

  /** One character that is not an operator: either the lexeme goes on, or it ends here. */
  lemma StepInside(s: string, st: nat, idx: nat, f: Flags)
    requires st <= idx < |s| && Inside(s, st, idx, f) && (f.Plain() ==> OpLen(s, idx) == 0)
    ensures OpLen(s, st) == 0
    ensures var g := Toggled(f, s[idx]); if g.Plain() then TextEnd(s, st) == idx + 1 else Inside(s, st, idx + 1, g)
  {
  }

  /** The pieces finished so far and the unfinished lexeme account for the whole command. */
  ghost predicate Scanned(s: string, done: seq<string>, b: nat, st: nat) {
    b <= st <= |s| && Chunks(s, 0) == done + Chunks(s, b) && FirstOp(s, b) == FirstOp(s, st)
  }

  ghost predicate Reading(s: string, done: seq<string>, b: nat, st: nat, idx: nat, buf: string, f: Flags) {
    && st <= idx <= |s| && Scanned(s, done, b, st) && buf == s[b..idx] && Inside(s, st, idx, f)
  }

  lemma Longer(s: string, b: nat, idx: nat)
    requires b <= idx < |s|
    ensures s[b..idx] + [s[idx]] == s[b..idx + 1]
  {
  }

  /** The lexeme goes on, or the next one starts here. */
  lemma ReadOne(s: string, done: seq<string>, b: nat, st: nat, idx: nat, buf: string, f: Flags,
                st': nat, idx': nat, buf': string, g: Flags)
    requires Reading(s, done, b, st, idx, buf, f) && idx < |s| && (f.Plain() ==> OpLen(s, idx) == 0)
    requires g == Toggled(f, s[idx]) && idx' == idx + 1 && buf' == buf + [s[idx]] && st' == if g.Plain() then idx'
             else st
    ensures Reading(s, done, b, st', idx', buf', g)
  {
    StepInside(s, st, idx, f);
    Longer(s, b, idx);
  }

  lemma Regroup(done: seq<string>, piece: string, rest: seq<string>)
    ensures done + ([piece] + rest) == done + [piece] + rest
  {
  }

  /** An operator ends the piece. */
  lemma ReadOperator(s: string, done: seq<string>, b: nat, st: nat, idx: nat, buf: string, f: Flags,
                     done': seq<string>, idx': nat)
    requires Reading(s, done, b, st, idx, buf, f) && idx < |s| && f.Plain() && OpLen(s, idx) > 0
    requires done' == done + [buf] && idx' == idx + OpLen(s, idx)
    ensures Reading(s, done', idx', idx', idx', "", f)
  {
    assert Chunks(s, b) == [s[b..idx]] + Chunks(s, idx');
    Regroup(done, buf, Chunks(s, idx'));
  }

  /** What the scanner has to show for the finished pieces. */
  ghost predicate Pushed(done: seq<string>, parts: seq<string>, invalidChain: bool) {
    parts == Kept(done) && (invalidChain <==> !NoneBlank(done))
  }

  lemma KeptMore(done: seq<string>, buf: string)
    ensures Kept(done + [buf]) == Kept(done) + (if Trim(buf) == "" then [] else [Trim(buf)])
  {
    assert (done + [buf])[..|done|] == done;
  }

  lemma BlankMore(done: seq<string>, buf: string)
    ensures NoneBlank(done + [buf]) <==> NoneBlank(done) && Trim(buf) != ""
  {
    var more := done + [buf];
    assert more[|done|] == buf && forall i :: 0 <= i < |done| ==> more[i] == done[i];
  }

  lemma PushPiece(done: seq<string>, parts: seq<string>, invalidChain: bool, buf: string)
    requires Pushed(done, parts, invalidChain)
    ensures Pushed(done + [buf], if Trim(buf) == "" then parts else parts + [Trim(buf)], invalidChain ||
            Trim(buf) == "")
  {
    KeptMore(done, buf);
    BlankMore(done, buf);
  }

  method PushPart(parts: seq<string>, buf: string, invalidChain: bool, ghost done: seq<string>)
    returns (parts': seq<string>, invalidChain': bool)
    requires Pushed(done, parts, invalidChain)
    ensures parts' == (if Trim(buf) == "" then parts else parts + [Trim(buf)])
    ensures Pushed(done + [buf], parts', invalidChain')
  {
    PushPiece(done, parts, invalidChain, buf);
    var chunk := Trim(buf);
    if chunk == "" { return parts, true; }
    parts', invalidChain' := parts + [chunk], invalidChain;
  }

  /** The flags after a character that is not an operator. */
  method UpdateFlags(f: Flags, ch: char) returns (g: Flags)
    ensures g == Toggled(f, ch)
  {
    g := f;
    if f.escaped {
      g := g.(escaped := false);
    } else if !f.inSingle && ch == '\\' {
      g := g.(escaped := true);
    } else if f.inSingle {
      if ch == '\'' { g := g.(inSingle := false); }
    } else if f.inDouble {
      if ch == '"' { g := g.(inDouble := false); }
    } else if ch == '\'' {
      g := g.(inSingle := true);
    } else if ch == '"' {
      g := g.(inDouble := true);
    }
  }

  /** The loop: the pieces that an operator ended, and the last one, in `buf`. */
  method ScanChain(command: string)
    returns (parts: seq<string>, buf: string, foundChain: bool, invalidChain: bool, ghost done: seq<string>)
    ensures Chunks(command, 0) == done + [buf] && Pushed(done, parts, invalidChain) && foundChain == (done != [])
  {
    parts, buf, done := [], "", [];
    var f := Flags(false, false, false);
    foundChain, invalidChain := false, false;
    var idx := 0;
    ghost var b, st := 0, 0;
    while idx < |command|
      invariant Reading(command, done, b, st, idx, buf, f)
      invariant Pushed(done, parts, invalidChain) && foundChain == (done != [])
    {
      var ch := command[idx];
      var next := if idx + 1 < |command| then [command[idx + 1]] else "";
      ghost var buf0, idx0, f0, done0, st0 := buf, idx, f, done, st;
      if f.Plain() && ((ch == '&' && next == "&") || (ch == '|' && next == "|")) {
        parts, invalidChain := PushPart(parts, buf, invalidChain, done);
        foundChain := true;
        idx := idx + 2;
        done, buf := done + [buf], "";
        ReadOperator(command, done0, b, st, idx0, buf0, f, done, idx);
        b, st := idx, idx;
      } else if f.Plain() && ch == ';' {
        parts, invalidChain := PushPart(parts, buf, invalidChain, done);
        foundChain := true;
        idx := idx + 1;
        done, buf := done + [buf], "";
        ReadOperator(command, done0, b, st, idx0, buf0, f, done, idx);
        b, st := idx, idx;
      } else {
        buf := buf + [ch];
        idx := idx + 1;
        f := UpdateFlags(f, ch);
        st := if f.Plain() then idx else st;
        ReadOne(command, done, b, st0, idx0, buf0, f0, st, idx, buf, f);
      }
    }
    FinishReading(command, done, b, st, buf, f);
  }

  method SplitCommandChain(command: string) returns (result: Option<seq<string>>)
    ensures result == Split(command)
  {
    var parts, buf, foundChain, invalidChain, done := ScanChain(command);
    PushPiece(done, parts, invalidChain, buf);
    var tail := Trim(buf);
    if !foundChain { return None; }
    if tail != "" { parts := parts + [tail]; } else { invalidChain := true; }
    if invalidChain { return None; }
    KeptIsTrims(done + [buf]);
    result := Some(parts);
  }

  /** At the end of the command the unfinished lexeme reaches exactly to its end. */
  lemma FinishReading(s: string, done: seq<string>, b: nat, st: nat, buf: string, f: Flags)
    requires Reading(s, done, b, st, |s|, buf, f)
    ensures Chunks(s, 0) == done + [buf]
  {
    if st < |s| { assert TextEnd(s, st) == |s|; }
    assert FirstOp(s, st) == |s|;
    assert s[b..|s|] == s[b..];
  }
}
