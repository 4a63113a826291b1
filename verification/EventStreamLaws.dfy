// How a text is cut into chunks makes no difference to the blocks it gives, as long as
// it has no CR CR LF; and a stream that ends at a blank line needs that exactly.

module EventStreamLaws {
  import opened EventStream

  predicate CrLfAt(s: string, i: nat) {
    i + 2 <= |s| && s[i] == '\r' && s[i + 1] == '\n'
  }

  predicate HasCrLf(s: string) {
    exists i: nat :: i < |s| && CrLfAt(s, i)
  }

  predicate CrCrLfAt(s: string, i: nat) {
    i + 3 <= |s| && s[i] == '\r' && s[i + 1] == '\r' && s[i + 2] == '\n'
  }

  predicate HasCrCrLf(s: string) {
    exists i: nat :: i < |s| && CrCrLfAt(s, i)
  }

  lemma CrCrLfTail(s: string, n: nat)
    requires n <= |s| && !HasCrCrLf(s)
    ensures !HasCrCrLf(s[n..])
  {
    forall i: nat | i < |s[n..]| ensures !CrCrLfAt(s[n..], i) {
      assert !CrCrLfAt(s, n + i);
    }
  }

  lemma CrCrLfFront(c: char, s: string)
    requires !HasCrCrLf(s) && !CrCrLfAt([c] + s, 0)
    ensures !HasCrCrLf([c] + s)
  {
    forall i: nat | i < |[c] + s| ensures !CrCrLfAt([c] + s, i) {
      if i > 0 {
        assert !CrCrLfAt(s, i - 1);
      }
    }
  }

  /** Normalize, one character at a time. */
  lemma NormalizePlain(c: char, s: string)
    requires !(c == '\r' && s != "" && s[0] == '\n')
    ensures Normalize([c] + s) == [c] + Normalize(s)
  {
    assert ([c] + s)[1..] == s;
  }

  lemma NormalizeCrLf(s: string)
    ensures Normalize("\r\n" + s) == "\n" + Normalize(s)
  {
    assert ("\r\n" + s)[2..] == s;
  }

  lemma {:induction false} NormalizeHead(s: string)
    ensures |Normalize(s)| <= |s| && (s != "" ==> Normalize(s) != "")
    ensures s != "" && Normalize(s)[0] == '\n' && s[0] != '\n' ==> CrLfAt(s, 0)
    ensures |Normalize(s)| == 1 && Normalize(s)[0] == '\r' ==> s == "\r"
  {
    if CrLfAt(s, 0) {
      NormalizeHead(s[2..]);
    } else if s != "" {
      NormalizeHead(s[1..]);
    }
  }

  /** A text loses a character by normalizing exactly when it has a CRLF. */
  lemma {:induction false} NormalizeFixedExactly(s: string)
    ensures Normalize(s) == s <==> !HasCrLf(s)
    ensures HasCrLf(s) ==> |Normalize(s)| < |s|
  {
    if s == "" {
    } else if CrLfAt(s, 0) {
      NormalizeHead(s[2..]);
    } else {
      NormalizeFixedExactly(s[1..]);
      assert s == [s[0]] + s[1..];
      if HasCrLf(s) {
        var i: nat :| i < |s| && CrLfAt(s, i);
        assert CrLfAt(s[1..], i - 1);
      } else {
        forall i: nat | i < |s[1..]| ensures !CrLfAt(s[1..], i) {
          assert !CrLfAt(s, i + 1);
        }
      }
    }
  }

  lemma ConcatAssoc(a: string, b: string, c: string)
    ensures a + (b + c) == (a + b) + c
  {
  }

  lemma ConcatPlain(c: char, a: string, b: string)
    requires !(c == '\r' && a + b != "" && (a + b)[0] == '\n')
    requires Normalize(a + b) == Normalize(a) + Normalize(b)
    ensures Normalize(([c] + a) + b) == Normalize([c] + a) + Normalize(b)
  {
    assert a != "" ==> (a + b)[0] == a[0];
    NormalizePlain(c, a);
    NormalizePlain(c, a + b);
    hide *;
    ConcatAssoc([c], a, b);
    ConcatAssoc([c], Normalize(a), Normalize(b));
  }

  lemma ConcatCrLf(a: string, b: string)
    requires Normalize(a + b) == Normalize(a) + Normalize(b)
    ensures Normalize(("\r\n" + a) + b) == Normalize("\r\n" + a) + Normalize(b)
  {
    NormalizeCrLf(a);
    NormalizeCrLf(a + b);
    hide *;
    ConcatAssoc("\r\n", a, b);
    ConcatAssoc("\n", Normalize(a), Normalize(b));
  }

  /** Texts normalize apart unless a CRLF is cut in two. */
  lemma {:induction false} NormalizeConcat(a: string, b: string)
    requires a == "" || b == "" || a[|a| - 1] != '\r' || b[0] != '\n'
    ensures Normalize(a + b) == Normalize(a) + Normalize(b)
    decreases |a|
  {
    if a == "" {
      assert "" + b == b && "" + Normalize(b) == Normalize(b);
    } else if CrLfAt(a, 0) {
      hide Normalize;
      NormalizeConcat(a[2..], b);
      assert a == "\r\n" + a[2..];
      ConcatCrLf(a[2..], b);
    } else {
      hide Normalize;
      NormalizeConcat(a[1..], b);
      assert a == [a[0]] + a[1..];
      ConcatPlain(a[0], a[1..], b);
    }
  }

  /** The first character of a is not part of a CRLF, and does not become part of one. */
  lemma NormalizeMeets(a: string, b: string)
    requires |a| >= 2 && !CrLfAt(a, 0) && !HasCrCrLf(a + b) && Normalize(Normalize(a[1..])) == Normalize(a[1..])
    ensures var x := Normalize(a[1..]) + b;
      a[0] == '\r' ==> (a[1..] + b)[0] != '\n' && x != "" && x[0] != '\n' && !CrCrLfAt([a[0]] + x, 0)
  {
    var n := Normalize(a[1..]);
    NormalizeHead(a[1..]);
    NormalizeFixedExactly(n);
    assert !CrCrLfAt(a + b, 0);
    assert |n| >= 2 ==> !CrLfAt(n, 0);
  }

  /** Normalizing twice, the second time with more text, is normalizing once, as long as
      there is no CR CR LF. */
  lemma {:induction false} NormalizeAgain(a: string, b: string)
    requires !HasCrCrLf(a + b)
    ensures Normalize(Normalize(a) + b) == Normalize(a + b)
    ensures !HasCrCrLf(Normalize(a) + b)
    decreases |a|, |b|
  {
    if |a| <= 1 {
      assert Normalize(a) == a by {
        if a != "" {
          assert a[1..] == "" && a == [a[0]];
        }
      }
    } else if CrLfAt(a, 0) {
      assert (a + b)[2..] == a[2..] + b;
      CrCrLfTail(a + b, 2);
      NormalizeAgain(a[2..], b);
      var x := Normalize(a[2..]) + b;
      assert Normalize(a) + b == ['\n'] + x;
      NormalizePlain('\n', x);
      CrCrLfFront('\n', x);
    } else {
      assert (a + b)[1..] == a[1..] + b;
      CrCrLfTail(a + b, 1);
      NormalizeAgain(a[1..], b);
      CrCrLfPart(a[1..], b);
      NormalizeAgain(a[1..], "");
      NormalizeMeets(a, b);
      AgainStep(a, b);
    }
  }

  lemma CrCrLfPart(a: string, b: string)
    requires !HasCrCrLf(a + b)
    ensures !HasCrCrLf(a + "")
    ensures Normalize(a) + "" == Normalize(a) && a + "" == a
  {
    forall i: nat | i < |a| ensures !CrCrLfAt(a, i) {
      assert !CrCrLfAt(a + b, i);
    }
    assert a + "" == a;
  }

  lemma AgainStep(a: string, b: string)
    requires |a| >= 2 && !CrLfAt(a, 0)
    requires var x := Normalize(a[1..]) + b;
      && Normalize(x) == Normalize(a[1..] + b) && !HasCrCrLf(x)
      && (a[0] == '\r' ==> (a[1..] + b)[0] != '\n' && x != "" && x[0] != '\n' && !CrCrLfAt([a[0]] + x, 0))
    ensures Normalize(Normalize(a) + b) == Normalize(a + b)
    ensures !HasCrCrLf(Normalize(a) + b)
  {
    HeadPlain(a);
    hide *;
    var x := Normalize(a[1..]) + b;
    assert Normalize(a) + b == [a[0]] + x;
    assert a + b == [a[0]] + (a[1..] + b);
    NormalizePlain(a[0], a[1..] + b);
    NormalizePlain(a[0], x);
    CrCrLfFront(a[0], x);
  }

  lemma HeadPlain(a: string)
    requires a != "" && !CrLfAt(a, 0)
    ensures Normalize(a) == [a[0]] + Normalize(a[1..])
  {
  }

  // ------------------------------------------------------------------ splitting

  lemma {:induction false} BreakLater(x: string, y: string, i: nat)
    requires i <= |y|
    ensures BreakFrom(x + y, |x| + i) == if BreakFrom(y, i) == -1 then -1 else |x| + BreakFrom(y, i)
    decreases |y| - i
  {
    assert i < |y| ==> (x + y)[|x| + i] == y[i];
    assert i + 1 < |y| ==> (x + y)[|x| + i + 1] == y[i + 1];
    if i + 2 <= |y| && !IsBreak(y, i) {
      BreakLater(x, y, i + 1);
    }
  }

  lemma BreakBounds(s: string, offset: nat)
    requires offset <= |s|
    ensures var at := BreakFrom(s, offset);
      at != -1 ==> offset <= at && at + 2 <= |s| && s[at] == '\n' && s[at + 1] == '\n'
  {
  }

  lemma SplitUnfold(s: string, offset: nat)
    requires offset <= |s|
    ensures var at := BreakFrom(s, offset);
      SplitFrom(s, offset) ==
        if at == -1 then Parts([], s[offset..])
        else Parts([s[offset..at]] + SplitFrom(s, at + 2).blocks, SplitFrom(s, at + 2).rest)
  {
  }

  /** From k on s reads like y. */
  predicate Shifted(s: string, k: nat, y: string) {
    |s| == k + |y| && s[k..] == y
  }

  lemma SliceShifted(s: string, k: nat, y: string, i: nat, j: nat)
    requires |s| == k + |y| && Shifted(s, k, y) && i <= j <= |y|
    ensures s[k + i..k + j] == y[i..j] && s[k + i..] == y[i..]
  {
    assert s[k..][i..j] == s[k + i..k + j];
    assert s[k..][i..] == s[k + i..];
  }

  lemma {:induction false} BreakShifted(s: string, k: nat, y: string, i: nat)
    requires |s| == k + |y| && Shifted(s, k, y) && i <= |y|
    ensures BreakFrom(s, k + i) == if BreakFrom(y, i) == -1 then -1 else k + BreakFrom(y, i)
    decreases |y| - i
  {
    assert forall j :: 0 <= j < |y| ==> y[j] == s[k + j];
    assert |s| == k + |y|;
    hide Shifted;
    if i + 2 <= |y| && !IsBreak(y, i) {
      BreakShifted(s, k, y, i + 1);
    }
  }

  lemma {:induction false} SplitFromShifted(s: string, k: nat, y: string, i: nat)
    requires |s| == k + |y| && Shifted(s, k, y) && i <= |y|
    ensures SplitFrom(s, k + i) == SplitFrom(y, i)
    decreases |y| - i
  {
    hide *;
    var at := BreakFrom(y, i);
    BreakBounds(y, i);
    BreakShifted(s, k, y, i);
    if at != -1 {
      SplitFromShifted(s, k, y, at + 2);
    }
    SplitOnce(s, k, y, i, at);
  }

  /** Splitting from k + i on goes as splitting y from i on, if it does after the block. */
  lemma SplitOnce(s: string, k: nat, y: string, i: nat, at: int)
    requires |s| == k + |y| && Shifted(s, k, y) && i <= |y| && at == BreakFrom(y, i)
    requires BreakFrom(s, k + i) == if at == -1 then -1 else k + at
    requires at != -1 ==> i <= at && at + 2 <= |y| && SplitFrom(s, k + (at + 2)) == SplitFrom(y, at + 2)
    ensures SplitFrom(s, k + i) == SplitFrom(y, i)
  {
    hide *;
    SliceShifted(s, k, y, i, if at == -1 then |y| else at);
    SplitUnfold(s, k + i);
    SplitUnfold(y, i);
    if at != -1 {
      assert k + at + 2 == k + (at + 2);
    }
  }

  /** What comes before the place where splitting starts does not matter. */
  lemma SplitLater(x: string, y: string, i: nat)
    requires i <= |y|
    ensures SplitFrom(x + y, |x| + i) == SplitFrom(y, i)
  {
    hide *;
    Behind(x, y);
    SplitFromShifted(x + y, |x|, y, i);
  }

  lemma Behind(x: string, y: string)
    ensures Shifted(x + y, |x|, y)
  {
    assert (x + y)[|x|..] == y;
  }

  /** The part of s that its blocks take up. */
  function Consumed(s: string): (n: nat)
    ensures n <= |s|
  {
    ConsumedFrom(s, 0)
  }

  function ConsumedFrom(s: string, offset: nat): (n: nat)
    requires offset <= |s|
    ensures offset <= n <= |s|
    ensures SplitFrom(s, offset).rest == s[n..]
    ensures n > offset ==> n >= 2 && IsBreak(s, n - 2)
    ensures BreakFrom(s, n) == -1
    decreases |s| - offset
  {
    var at := BreakFrom(s, offset);
    if at == -1 then offset else ConsumedFrom(s, at + 2)
  }

  lemma BreakSame(x: string, y: string, z: string, i: nat, at: nat)
    requires i <= at && at + 2 <= |x| && BreakFrom(x + y, i) == at
    ensures BreakFrom(x + z, i) == at
  {
    var b := BreakFrom(x + z, i);
    assert (x + y)[at] == x[at] == (x + z)[at] && (x + y)[at + 1] == x[at + 1] == (x + z)[at + 1];
    assert IsBreak(x + z, at);
    assert b != -1 && b <= at;
    assert (x + z)[b] == x[b] == (x + y)[b] && (x + z)[b + 1] == x[b + 1] == (x + y)[b + 1];
    assert IsBreak(x + y, b);
  }

  lemma SlicePrefix(s: string, n: nat, z: string, i: nat, j: nat)
    requires i <= j <= n <= |s|
    ensures (s[..n] + z)[i..j] == s[i..j]
  {
  }

  lemma SplitPrefixStep(s: string, n: nat, z: string, offset: nat, at: nat)
    requires offset <= at && at + 2 <= n <= |s| && BreakFrom(s, offset) == at
    requires SplitFrom(s[..n] + z, at + 2) == Parts(SplitFrom(s, at + 2).blocks + Split(z).blocks, Split(z).rest)
    ensures SplitFrom(s[..n] + z, offset) == Parts(SplitFrom(s, offset).blocks + Split(z).blocks, Split(z).rest)
  {
    hide *;
    assert s == s[..n] + s[n..];
    BreakSame(s[..n], s[n..], z, offset, at);
    SplitUnfold(s, offset);
    SplitUnfold(s[..n] + z, offset);
    SlicePrefix(s, n, z, offset, at);
    AppendBlocks([s[offset..at]], SplitFrom(s, at + 2).blocks, Split(z).blocks);
  }

  lemma SplitPrefixEnd(s: string, offset: nat, z: string)
    requires offset <= |s| && BreakFrom(s, offset) == -1
    ensures SplitFrom(s[..offset] + z, offset) == Parts(SplitFrom(s, offset).blocks + Split(z).blocks, Split(z).rest)
  {
    SplitUnfold(s, offset);
    SplitLater(s[..offset], z, 0);
    assert [] + Split(z).blocks == Split(z).blocks;
    hide SplitFrom, BreakFrom;
  }

  /** The blocks of a text stay its blocks whatever follows what they take up. */
  lemma {:induction false} SplitPrefix(s: string, offset: nat, z: string)
    requires offset <= |s|
    ensures SplitFrom(s[..ConsumedFrom(s, offset)] + z, offset) ==
      Parts(SplitFrom(s, offset).blocks + Split(z).blocks, Split(z).rest)
    decreases |s| - offset
  {
    hide SplitFrom;
    var at := BreakFrom(s, offset);
    if at == -1 {
      SplitPrefixEnd(s, offset, z);
    } else {
      SplitPrefix(s, at + 2, z);
      SplitPrefixStep(s, ConsumedFrom(s, offset), z, offset, at);
    }
  }

  // ---------------------------------------------------------- chunk invariance

  /** Cutting a normalized text after its blocks leaves both parts normalized. */
  lemma NormalizedParts(x: string, n: nat, t: string)
    requires Normalize(x) == x && n <= |x| && (n > 0 ==> x[n - 1] == '\n')
    ensures Normalize(x[n..]) == x[n..] && Normalize(x + t) == x[..n] + Normalize(x[n..] + t)
  {
    hide *;
    var front, rest := x[..n], x[n..];
    assert x == front + rest && (front == "" || front[|front| - 1] == '\n');
    NormalizeConcat(front, rest);
    NormalizeHead(front);
    NormalizeHead(rest);
    SameParts(Normalize(front), Normalize(rest), front, rest);
    NormalizeConcat(front, rest + t);
    ConcatAssoc(front, rest, t);
  }

  lemma SameParts(a: string, b: string, c: string, d: string)
    requires a + b == c + d && |a| <= |c| && |b| <= |d|
    ensures a == c && b == d
  {
    assert |a| + |b| == |a + b| == |c + d| == |c| + |d|;
    assert a == (a + b)[..|a|] && c == (c + d)[..|c|];
    assert b == (a + b)[|a|..] && d == (c + d)[|c|..];
  }

  lemma RestHasNoBreak(x: string, n: nat)
    requires n <= |x| && BreakFrom(x, n) == -1
    ensures BreakFrom(x[n..], 0) == -1
  {
    assert x == x[..n] + x[n..];
    BreakLater(x[..n], x[n..], 0);
  }

  lemma NormalizedOnce(a: string, t: string)
    requires !HasCrCrLf(a + t)
    ensures Normalize(Normalize(a) + t) == Normalize(a + t) && !HasCrCrLf(Normalize(a) + t)
    ensures Normalize(Normalize(a)) == Normalize(a)
  {
    hide Normalize, HasCrCrLf;
    NormalizeAgain(a, t);
    CrCrLfPart(a, t);
    NormalizeAgain(a, "");
  }

  lemma CrCrLfRest(x: string, n: nat, t: string)
    requires n <= |x| && !HasCrCrLf(x + t)
    ensures !HasCrCrLf(x[n..] + t)
  {
    CrCrLfTail(x + t, n);
    assert (x + t)[n..] == x[n..] + t;
  }

  lemma StreamStep(buffer: string, c: string, t: string)
    requires !HasCrCrLf(buffer + (c + t))
    ensures var x := Normalize(buffer + c); var n := Consumed(x);
      && Normalize(buffer + (c + t)) == x[..n] + Normalize(x[n..] + t)
      && Normalize(x[n..]) == x[n..] && BreakFrom(x[n..], 0) == -1 && !HasCrCrLf(x[n..] + t)
  {
    var x := Normalize(buffer + c);
    var n := Consumed(x);
    assert n > 0 ==> x[n - 1] == '\n';
    assert BreakFrom(x, n) == -1;
    hide *;
    ConcatAssoc(buffer, c, t);
    NormalizedOnce(buffer + c, t);
    NormalizedParts(x, n, t);
    RestHasNoBreak(x, n);
    CrCrLfRest(x, n, t);
  }

  lemma {:induction false} StreamWhole(buffer: string, chunks: seq<string>)
    requires !HasCrCrLf(buffer + Concat(chunks)) && Normalize(buffer) == buffer && BreakFrom(buffer, 0) == -1
    ensures Stream(buffer, chunks) == Split(Normalize(buffer + Concat(chunks)))
    decreases |chunks|
  {
    hide HasCrCrLf, BreakFrom, Normalize;
    if chunks == [] {
      assert buffer + "" == buffer && buffer[0..] == buffer;
    } else {
      hide SplitFrom;
      var c, t := chunks[0], Concat(chunks[1..]);
      StreamStep(buffer, c, t);
      var x := Normalize(buffer + c);
      StreamWhole(Split(x).rest, chunks[1..]);
      SplitPrefix(x, 0, Normalize(Split(x).rest + t));
    }
  }

  /** However a text without CR CR LF is cut into chunks, the loop emits the blocks of the
      normalized whole and keeps its rest. */
  lemma ChunksDoNotMatter(chunks: seq<string>)
    requires !HasCrCrLf(Concat(chunks))
    ensures Stream("", chunks) == Split(Normalize(Concat(chunks)))
  {
    assert "" + Concat(chunks) == Concat(chunks);
    StreamWhole("", chunks);
  }

  /** The characters blocks and their blank lines take up. */
  function Weight(blocks: seq<string>): nat {
    if blocks == [] then 0 else |blocks[0]| + 2 + Weight(blocks[1..])
  }

  lemma {:induction false} WeightConcat(a: seq<string>, b: seq<string>)
    ensures Weight(a + b) == Weight(a) + Weight(b)
  {
    if a == [] {
      assert a + b == b;
    } else {
      WeightConcat(a[1..], b);
      assert (a + b)[1..] == a[1..] + b;
    }
  }

  lemma {:induction false} SplitWeight(s: string, offset: nat)
    requires offset <= |s|
    ensures Weight(SplitFrom(s, offset).blocks) + |SplitFrom(s, offset).rest| == |s| - offset
    decreases |s| - offset
  {
    hide *;
    var at := BreakFrom(s, offset);
    BreakBounds(s, offset);
    SplitUnfold(s, offset);
    if at != -1 {
      SplitWeight(s, at + 2);
      WeightMore(s[offset..at], SplitFrom(s, at + 2).blocks);
    } else {
      WeightNone();
    }
  }

  lemma WeightNone()
    ensures Weight([]) == 0
  {
  }

  lemma WeightMore(block: string, blocks: seq<string>)
    ensures Weight([block] + blocks) == |block| + 2 + Weight(blocks)
  {
    assert ([block] + blocks)[1..] == blocks;
  }

  /** A text cut right after a CR CR LF: the first half keeps a CRLF at its end. */
  lemma CutKeepsCrLf(t: string, p: nat)
    requires CrCrLfAt(t, p)
    ensures var x := Normalize(t[..p + 3]);
      && Normalize(t) == x + Normalize(t[p + 3..])
      && |x| >= 2 && CrLfAt(x, |x| - 2)
  {
    var front, a, c := t[..p], t[..p + 3], t[p + 3..];
    assert t == a + c && a == (front + "\r") + "\r\n";
    NormalizeConcat(a, c);
    NormalizeConcat(front + "\r", "\r\n");
    NormalizeConcat(front, "\r");
    assert "\r\n"[2..] == "" && "\r"[1..] == "";
    assert Normalize("\r\n") == "\n" && Normalize("\r") == "\r";
  }

  /** That CRLF loses its CR when the second half arrives. */
  lemma SecondHalfShrinks(x: string, c: string)
    requires |x| >= 2 && CrLfAt(x, |x| - 2)
    ensures var rest := Split(x).rest; |Normalize(rest + c)| < |rest| + |Normalize(c)|
  {
    var n := Consumed(x);
    var rest := Split(x).rest;
    assert rest == x[n..];
    assert n > 0 ==> IsBreak(x, n - 2);
    assert n <= |x| - 2;
    assert CrLfAt(rest, |rest| - 2);
    NormalizeFixedExactly(rest);
    hide SplitFrom, Normalize;
    NormalizeConcat(rest, c);
  }

  lemma TwoChunks(a: string, c: string)
    ensures Concat([a, c]) == a + c
    ensures Stream("", [a, c]).blocks ==
      Split(Normalize(a)).blocks + Split(Normalize(Split(Normalize(a)).rest + c)).blocks
  {
    hide SplitFrom, Normalize;
    assert [a, c][1..] == [c] && [c][1..] == [] && "" + a == a;
    assert Concat([]) == "" && Concat([c]) == c;
    var rest := Split(Normalize(a)).rest;
    var second := Split(Normalize(rest + c));
    assert Stream(rest, [c]).blocks == second.blocks + [] == second.blocks;
  }

  lemma WeightOfTwo(x: string, y: string)
    ensures Weight(Split(x).blocks + Split(y).blocks) <= |x| - |Split(x).rest| + |y|
  {
    hide SplitFrom, Weight;
    SplitWeight(x, 0);
    SplitWeight(y, 0);
    WeightConcat(Split(x).blocks, Split(y).blocks);
  }

  lemma TotalsDiffer(x: string, c: string, whole: seq<string>)
    requires |x| >= 2 && CrLfAt(x, |x| - 2) && Weight(whole) == |x| + |Normalize(c)|
    ensures Split(x).blocks + Split(Normalize(Split(x).rest + c)).blocks != whole
  {
    hide *;
    SecondHalfShrinks(x, c);
    WeightOfTwo(x, Normalize(Split(x).rest + c));
  }

  lemma CompleteWeight(s: string)
    requires Split(s).rest == ""
    ensures Weight(Split(s).blocks) == |s|
  {
    SplitWeight(s, 0);
  }

  lemma TwoChunksDiffer(a: string, c: string)
    requires Split(Normalize(a + c)).rest == "" && Normalize(a + c) == Normalize(a) + Normalize(c)
    requires |Normalize(a)| >= 2 && CrLfAt(Normalize(a), |Normalize(a)| - 2)
    ensures Concat([a, c]) == a + c
    ensures Stream("", [a, c]).blocks != Split(Normalize(a + c)).blocks
  {
    hide *;
    TwoChunks(a, c);
    CompleteWeight(Normalize(a + c));
    TotalsDiffer(Normalize(a), c, Split(Normalize(a + c)).blocks);
  }

  /** Cut there, the loop emits other blocks than those of the whole. */
  lemma CutInTwo(t: string, p: nat)
    requires CrCrLfAt(t, p)
    ensures p + 3 <= |t| && t[..p + 3] + t[p + 3..] == t
  {
  }

  lemma CrCrLfShows(t: string, p: nat)
    requires CrCrLfAt(t, p) && Split(Normalize(t)).rest == ""
    ensures Concat([t[..p + 3], t[p + 3..]]) == t
    ensures Stream("", [t[..p + 3], t[p + 3..]]).blocks != Split(Normalize(t)).blocks
  {
    CutInTwo(t, p);
    hide *;
    var a, c := t[..p + 3], t[p + 3..];
    CutKeepsCrLf(t, p);
    TwoChunksDiffer(a, c);
  }

  /** For a text that ends at a blank line, every way of cutting it into chunks gives the
      blocks of the whole exactly when it has no CR CR LF. */
  lemma ChunksDoNotMatterExactly(t: string)
    requires Split(Normalize(t)).rest == ""
    ensures (forall chunks :: Concat(chunks) == t ==> Stream("", chunks).blocks == Split(Normalize(t)).blocks) <==>
      !HasCrCrLf(t)
  {
    if HasCrCrLf(t) {
      var p: nat :| p < |t| && CrCrLfAt(t, p);
      CrCrLfShows(t, p);
    } else {
      forall chunks | Concat(chunks) == t ensures Stream("", chunks).blocks == Split(Normalize(t)).blocks {
        ChunksDoNotMatter(chunks);
      }
    }
  }

  // ---------------------------------------------------- what the blocks are

  function Unsplit(parts: Parts): string
    decreases |parts.blocks|
  {
    if parts.blocks == [] then parts.rest
    else parts.blocks[0] + ("\n\n" + Unsplit(Parts(parts.blocks[1..], parts.rest)))
  }

  /** No blank line begins before the one that ends each block, and none is in the rest. */
  predicate Leftmost(parts: Parts) {
    && (forall i :: 0 <= i < |parts.blocks| ==> BreakFrom(parts.blocks[i] + "\n\n", 0) == |parts.blocks[i]|)
    && BreakFrom(parts.rest, 0) == -1
  }

  lemma BlockAt(s: string, offset: nat)
    requires offset <= |s|
    ensures var at := BreakFrom(s, offset);
      at != -1 ==>
        s[offset..] == s[offset..at] + ("\n\n" + s[at + 2..]) && BreakFrom(s[offset..at] + "\n\n", 0) == at - offset
  {
    hide *;
    var at := BreakFrom(s, offset);
    if at != -1 {
      BreakBounds(s, offset);
      var block := s[offset..at];
      var head := block + "\n\n";
      CutAtBreak(s, offset, at);
      BreakLater(s[..offset], s[offset..], 0);
      assert head + "" == head;
      BreakSame(head, s[at + 2..], "", 0, |block|);
      ConcatAssoc(block, "\n\n", s[at + 2..]);
    }
  }

  lemma CutAtBreak(s: string, offset: nat, at: nat)
    requires offset <= at && at + 2 <= |s| && s[at] == '\n' && s[at + 1] == '\n'
    ensures s == s[..offset] + s[offset..]
    ensures s[offset..] == (s[offset..at] + "\n\n") + s[at + 2..]
  {
    hide *;
    assert s[at..at + 2] == "\n\n";
    assert s[offset..] == (s[offset..at] + s[at..at + 2]) + s[at + 2..];
  }

  lemma LeftmostMore(block: string, parts: Parts)
    requires BreakFrom(block + "\n\n", 0) == |block| && Leftmost(parts)
    ensures Leftmost(Parts([block] + parts.blocks, parts.rest))
    ensures Unsplit(Parts([block] + parts.blocks, parts.rest)) == block + ("\n\n" + Unsplit(parts))
  {
    hide BreakFrom;
    assert ([block] + parts.blocks)[1..] == parts.blocks;
  }

  lemma {:induction false} SplitUnsplit(s: string, offset: nat)
    requires offset <= |s|
    ensures Unsplit(SplitFrom(s, offset)) == s[offset..] && Leftmost(SplitFrom(s, offset))
    decreases |s| - offset
  {
    hide *;
    var at := BreakFrom(s, offset);
    BreakBounds(s, offset);
    SplitUnfold(s, offset);
    BlockAt(s, offset);
    if at == -1 {
      RestHasNoBreak(s, offset);
      LeftmostEnd(s[offset..]);
    } else {
      SplitUnsplit(s, at + 2);
      LeftmostMore(s[offset..at], SplitFrom(s, at + 2));
    }
  }

  lemma LeftmostEnd(rest: string)
    requires BreakFrom(rest, 0) == -1
    ensures Leftmost(Parts([], rest)) && Unsplit(Parts([], rest)) == rest
  {
  }

  lemma {:induction false} UnsplitSplit(parts: Parts)
    requires Leftmost(parts)
    ensures Split(Unsplit(parts)) == parts
    decreases |parts.blocks|
  {
    if parts.blocks == [] {
      hide BreakFrom;
      assert parts.rest[0..] == parts.rest;
    } else {
      hide *;
      var more := Parts(parts.blocks[1..], parts.rest);
      var block := parts.blocks[0];
      LeftmostLess(parts);
      UnsplitSplit(more);
      SplitHead(block, Unsplit(more));
      assert parts == Parts([block] + more.blocks, more.rest);
    }
  }

  lemma LeftmostLess(parts: Parts)
    requires parts.blocks != [] && Leftmost(parts)
    ensures var more := Parts(parts.blocks[1..], parts.rest);
      && Leftmost(more) && BreakFrom(parts.blocks[0] + "\n\n", 0) == |parts.blocks[0]|
      && Unsplit(parts) == (parts.blocks[0] + "\n\n") + Unsplit(more)
  {
    hide BreakFrom;
    var more := Parts(parts.blocks[1..], parts.rest);
    forall i | 0 <= i < |more.blocks| ensures BreakFrom(more.blocks[i] + "\n\n", 0) == |more.blocks[i]| {
      assert more.blocks[i] == parts.blocks[i + 1];
    }
    ConcatAssoc(parts.blocks[0], "\n\n", Unsplit(more));
  }

  /** A block and its blank line in front of a text. */
  lemma SplitHead(block: string, t: string)
    requires BreakFrom(block + "\n\n", 0) == |block|
    ensures Split((block + "\n\n") + t) == Parts([block] + Split(t).blocks, Split(t).rest)
  {
    var head := block + "\n\n";
    var s := head + t;
    assert Split(s) == SplitFrom(s, 0) && Split(t) == SplitFrom(t, 0);
    hide *;
    assert head + "" == head && s[0..|block|] == block;
    BreakSame(head, "", t, 0, |block|);
    SplitUnfold(s, 0);
    SplitLater(head, t, 0);
    assert |head| + 0 == |block| + 2;
  }

  /** The splitting of s is exactly the one leftmost way to write it as blocks, each ended
      by a blank line, and a rest without one. */
  lemma SplitExactly(s: string, parts: Parts)
    ensures parts == Split(s) <==> Unsplit(parts) == s && Leftmost(parts)
  {
    SplitUnsplit(s, 0);
    assert s[0..] == s;
    if Leftmost(parts) {
      UnsplitSplit(parts);
    }
  }
}
