// The live event stream: splitting a text that arrives in chunks into blocks at blank
// lines, with CRLF read as LF (part of section 9.2.6 of the WHATWG HTML Living Standard;
// a lone CR is not a line ending here).

module EventStream {
  /** buffer.replace(/\r\n/g, "\n"). */
  function Normalize(s: string): string {
    if |s| >= 2 && s[0] == '\r' && s[1] == '\n' then "\n" + Normalize(s[2..])
    else if s == "" then ""
    else [s[0]] + Normalize(s[1..])
  }

  predicate IsBreak(s: string, i: nat) {
    i + 2 <= |s| && s[i] == '\n' && s[i + 1] == '\n'
  }

  /** The first blank line from i on, or -1. */
  function BreakFrom(s: string, i: nat): (at: int)
    requires i <= |s|
    ensures at == -1 || (i <= at && IsBreak(s, at))
    ensures forall j :: i <= j < (if at == -1 then |s| else at) ==> !IsBreak(s, j)
    decreases |s| - i
  {
    if i + 2 > |s| then -1
    else if IsBreak(s, i) then i
    else BreakFrom(s, i + 1)
  }

  datatype Parts = Parts(blocks: seq<string>, rest: string)

  /** Cut at each blank line from offset on, leftmost first. */
  function SplitFrom(s: string, offset: nat): Parts
    requires offset <= |s|
    decreases |s| - offset
  {
    var at := BreakFrom(s, offset);
    if at == -1 then Parts([], s[offset..])
    else
      var more := SplitFrom(s, at + 2);
      Parts([s[offset..at]] + more.blocks, more.rest)
  }

  function Split(s: string): Parts {
    SplitFrom(s, 0)
  }

  /** What the read loop emits, and what is left in its buffer. */
  function Stream(buffer: string, chunks: seq<string>): Parts
    decreases |chunks|
  {
    if chunks == [] then Parts([], buffer)
    else
      var now := Split(Normalize(buffer + chunks[0]));
      var later := Stream(now.rest, chunks[1..]);
      Parts(now.blocks + later.blocks, later.rest)
  }

  function Concat(chunks: seq<string>): string {
    if chunks == [] then "" else chunks[0] + Concat(chunks[1..])
  }

  /** input.indexOf("\n\n", offset). */
  method IndexOfBreak(input: string, offset: nat) returns (at: int)
    requires offset <= |input|
    ensures at == BreakFrom(input, offset)
    ensures at == -1 || (offset <= at && at + 2 <= |input| && input[at..at + 2] == "\n\n")
    ensures forall j :: offset <= j < (if at == -1 then |input| - 1 else at) ==>
      input[j] != '\n' || input[j + 1] != '\n'
  {
    var i := offset;
    while i + 2 <= |input|
      invariant offset <= i <= |input| && (i == offset || i < |input|)
      invariant BreakFrom(input, offset) == BreakFrom(input, i)
      invariant forall j :: offset <= j < i < |input| ==> input[j] != '\n' || input[j + 1] != '\n'
    {
      if input[i] == '\n' && input[i + 1] == '\n' {
        return i;
      }
      i := i + 1;
    }
    return -1;
  }

  lemma AppendBlocks(x: seq<string>, y: seq<string>, z: seq<string>)
    ensures x + (y + z) == (x + y) + z
  {
  }

  /** splitSSEBlocks computes Split. */
  method SplitBlocks(input: string) returns (parts: Parts)
    ensures parts == Split(input)
  {
    hide BreakFrom, IsBreak;
    var blocks: seq<string> := [];
    var offset := 0;
    while true
      invariant 0 <= offset <= |input|
      invariant Split(input) == Parts(blocks + SplitFrom(input, offset).blocks, SplitFrom(input, offset).rest)
      decreases |input| - offset
    {
      var idx := IndexOfBreak(input, offset);
      if idx == -1 {
        return Parts(blocks, input[offset..]);
      }
      AppendBlocks(blocks, [input[offset..idx]], SplitFrom(input, idx + 2).blocks);
      blocks := blocks + [input[offset..idx]];
      offset := idx + 2;
    }
  }

  /** The read loop: what it emits for the chunks, one after the other.  What is left in
      the buffer when the stream ends is never split. */
  method ReadLoop(chunks: seq<string>) returns (blocks: seq<string>, buffer: string)
    ensures Parts(blocks, buffer) == Stream("", chunks)
  {
    blocks, buffer := [], "";
    for i := 0 to |chunks|
      invariant Stream("", chunks) ==
        Parts(blocks + Stream(buffer, chunks[i..]).blocks, Stream(buffer, chunks[i..]).rest)
    {
      var parts := SplitBlocks(Normalize(buffer + chunks[i]));
      assert chunks[i..][1..] == chunks[i + 1..];
      AppendBlocks(blocks, parts.blocks, Stream(parts.rest, chunks[i + 1..]).blocks);
      blocks, buffer := blocks + parts.blocks, parts.rest;
    }
  }
}
