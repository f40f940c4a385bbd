/** Command segments: the words of every part of a chain. */
module ChainSegments {
  import opened Wrappers
  import opened ChainSplit

  /** `shlex.split`: the words of a part, or nothing for text it refuses. */
  type Words = string -> Option<seq<string>>

  /** The words of every part that has some. */
  function SegmentsOf(parts: seq<string>, words: Words): seq<seq<string>> {
    if parts == [] then []
    else
      var last := words(parts[|parts| - 1]);
      SegmentsOf(parts[..|parts| - 1], words) + (if last.Some? && last.value != [] then [last.value] else [])
  }

  lemma {:induction false} SegmentsCome(parts: seq<string>, words: Words, segment: seq<string>)
    ensures segment in SegmentsOf(parts, words) <==>
            segment != [] && exists p :: p in parts && words(p) == Some(segment)
  {
    if parts != [] {
      var init, last := parts[..|parts| - 1], parts[|parts| - 1];
      SegmentsCome(init, words, segment);
      assert parts == init + [last];
    }
  }

  /** Segments come in the order of their parts: a part gives its words, or nothing if it has none or is refused. */
  lemma SegmentsInOrder(parts: seq<string>, p: string, words: Words)
    ensures SegmentsOf([], words) == []
    ensures SegmentsOf(parts + [p], words) ==
            match words(p)
            case None => SegmentsOf(parts, words)
            case Some(w) => if |w| == 0 then SegmentsOf(parts, words) else SegmentsOf(parts, words) + [w]
  {
    assert (parts + [p])[..|parts|] == parts;
  }

  /** Without a chain, or when no part yields words, the command is one segment. */
  method CommandSegments(command: string, argv: seq<string>, words: Words) returns (segments: seq<seq<string>>)
    ensures segments != []
    ensures segments ==
      if Split(command).Some? && SegmentsOf(Split(command).value, words) != []
          then SegmentsOf(Split(command).value, words)
      else [argv]
  {
    var chain := SplitCommandChain(command);
    if chain.None? { return [argv]; }
    var parts := chain.value;
    segments := [];
    for i := 0 to |parts|
      invariant segments == SegmentsOf(parts[..i], words)
    {
      assert parts[..i + 1][..i] == parts[..i];
      var partArgv := words(parts[i]);
      if partArgv.Some? && partArgv.value != [] { segments := segments + [partArgv.value]; }
    }
    assert parts[..|parts|] == parts;
    if segments == [] { segments := [argv]; }
  }
}
