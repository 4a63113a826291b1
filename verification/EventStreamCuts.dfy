// For every text: all ways of cutting it into chunks give the same blocks exactly when
// dropping every CR in front of an LF, and not just the last one, gives those blocks too.

module EventStreamCuts {
  import opened EventStream
  import opened EventStreamLaws

  // ------------------------------------------------ dropping every CR before an LF

  /** One more character in front of a text in which no CR is followed by an LF. */
  function Put(c: char, s: string): string {
    if c == '\r' && s != "" && s[0] == '\n' then s else [c] + s
  }

  function PutAll(a: string, s: string): string {
    if a == "" then s else Put(a[0], PutAll(a[1..], s))
  }

  /** Every CR in front of an LF dropped, whole runs of them. */
  function Collapse(s: string): string {
    PutAll(s, "")
  }

  lemma {:induction false} PutAllConcat(a: string, b: string, s: string)
    ensures PutAll(a + b, s) == PutAll(a, PutAll(b, s))
  {
    if a == "" {
      assert a + b == b;
    } else {
      PutAllConcat(a[1..], b, s);
      assert (a + b)[1..] == a[1..] + b;
    }
  }

  /** Normalizing first makes no difference. */
  lemma {:induction false} PutNormalized(a: string, s: string)
    ensures PutAll(Normalize(a), s) == PutAll(a, s)
  {
    if CrLfAt(a, 0) {
      PutNormalized(a[2..], s);
      var rest := Normalize(a[2..]);
      assert ("\n" + rest)[1..] == rest;
      assert PutAll(a, s) == Put('\r', Put('\n', PutAll(a[1..][1..], s)));
      assert a[1..][1..] == a[2..];
    } else if a != "" {
      PutNormalized(a[1..], s);
      assert ([a[0]] + Normalize(a[1..]))[1..] == Normalize(a[1..]);
    }
  }

  /** Nor does collapsing first. */
  lemma {:induction false} PutCollapsed(a: string, s: string)
    ensures PutAll(Collapse(a), s) == PutAll(a, s)
  {
    if a != "" {
      PutCollapsed(a[1..], s);
      var rest := Collapse(a[1..]);
      if a[0] == '\r' && rest != "" && rest[0] == '\n' {
        assert PutAll(rest, s)[0] == '\n';
      } else {
        assert ([a[0]] + rest)[1..] == rest;
      }
    }
  }

  lemma CollapseAfterNormalize(a: string, b: string)
    ensures Collapse(Normalize(a) + b) == Collapse(a + b)
  {
    PutAllConcat(Normalize(a), b, "");
    PutAllConcat(a, b, "");
    PutNormalized(a, Collapse(b));
  }

  lemma CollapseAfterCollapse(a: string, b: string)
    ensures Collapse(Collapse(a) + b) == Collapse(a + b)
  {
    PutAllConcat(Collapse(a), b, "");
    PutAllConcat(a, b, "");
    PutCollapsed(a, Collapse(b));
  }

  /** Nothing is left to drop, and a text with nothing to drop stays. */
  lemma {:induction false} CollapseFixedExactly(s: string)
    ensures !HasCrLf(Collapse(s))
    ensures !HasCrLf(s) ==> Collapse(s) == s
  {
    if s != "" {
      var rest := Collapse(s[1..]);
      CollapseFixedExactly(s[1..]);
      assert s == [s[0]] + s[1..];
      if !(s[0] == '\r' && rest != "" && rest[0] == '\n') {
        forall i: nat | i < |[s[0]] + rest| ensures !CrLfAt([s[0]] + rest, i) {
          assert i > 0 ==> !CrLfAt(rest, i - 1);
        }
      }
      if !HasCrLf(s) {
        forall i: nat | i < |s[1..]| ensures !CrLfAt(s[1..], i) {
          assert !CrLfAt(s, i + 1);
        }
        assert !CrLfAt(s, 0);
      }
    }
  }

  /** A text that ends in an LF collapses on its own. */
  lemma {:induction false} CollapseConcat(a: string, b: string)
    requires a == "" || a[|a| - 1] == '\n'
    ensures Collapse(a + b) == Collapse(a) + Collapse(b)
  {
    PutAllConcat(a, b, "");
    PutAllAppends(a, Collapse(b));
  }

  lemma {:induction false} PutAllAppends(a: string, s: string)
    requires a == "" || a[|a| - 1] == '\n'
    ensures PutAll(a, s) == PutAll(a, "") + s
    ensures a != "" ==> PutAll(a, "") != ""
  {
    if |a| == 1 {
      assert a[1..] == "";
    } else if a != "" {
      PutAllAppends(a[1..], s);
      var rest := PutAll(a[1..], "");
      assert [a[0]] + (rest + s) == ([a[0]] + rest) + s;
    }
  }

  // -------------------------------------------------------------- no block at all

  /** A break of a text is a break of its collapse. */
  lemma {:induction false} BreakCollapses(a: string, s: string, i: nat)
    requires IsBreak(a, i)
    ensures exists j: nat :: IsBreak(PutAll(a, s), j)
  {
    if i == 0 {
      assert a[1..][0] == '\n';
      var rest := PutAll(a[1..][1..], s);
      assert PutAll(a[1..], s) == ['\n'] + rest;
      assert IsBreak(PutAll(a, s), 0);
    } else {
      assert IsBreak(a[1..], i - 1);
      BreakCollapses(a[1..], s, i - 1);
      var rest := PutAll(a[1..], s);
      var j: nat :| IsBreak(rest, j);
      if a[0] == '\r' && rest[0] == '\n' {
        assert PutAll(a, s) == rest;
      } else {
        assert PutAll(a, s) == [a[0]] + rest;
        assert IsBreak([a[0]] + rest, j + 1);
      }
    }
  }

  lemma NoBreakBefore(a: string, b: string)
    requires BreakFrom(Collapse(a + b), 0) == -1
    ensures BreakFrom(a, 0) == -1
  {
    if BreakFrom(a, 0) != -1 {
      BreakCollapses(a, Collapse(b), BreakFrom(a, 0));
      PutAllConcat(a, b, "");
    }
  }

  /** When even the collapse has no blank line, no chunking emits a block. */
  lemma {:induction false} NothingEmitted(buffer: string, chunks: seq<string>)
    requires BreakFrom(Collapse(buffer + Concat(chunks)), 0) == -1
    ensures Stream(buffer, chunks).blocks == []
    decreases |chunks|
  {
    if chunks != [] {
      var c, t := chunks[0], Concat(chunks[1..]);
      var x := Normalize(buffer + c);
      ConcatAssoc(buffer, c, t);
      CollapseAfterNormalize(buffer + c, t);
      NoBreakBefore(x, t);
      assert x[0..] == x;
      hide Collapse, Normalize;
      NothingEmitted(x, chunks[1..]);
    }
  }

  // ------------------------------------------------- equal blocks, so all cuts agree

  lemma CutAfterCrLf(t: string, n: nat, k: nat)
    requires CrLfAt(t, 0) && 1 <= n <= |Normalize(t)| && k <= |t| - 2
    requires n - 1 <= |Normalize(t[2..])| && Normalize(t[2..][..k]) == Normalize(t[2..])[..n - 1]
    ensures Normalize(t[..k + 2]) == Normalize(t)[..n]
  {
    NormalizeCrLf(t[2..]);
    NormalizeCrLf(t[2..][..k]);
    hide Normalize;
    assert t == "\r\n" + t[2..] && t[..k + 2] == "\r\n" + t[2..][..k];
  }

  lemma CutAfterPlain(t: string, n: nat, k: nat)
    requires t != "" && !CrLfAt(t, 0) && 1 <= n <= |Normalize(t)| && k <= |t| - 1
    requires n - 1 <= |Normalize(t[1..])| && Normalize(t[1..][..k]) == Normalize(t[1..])[..n - 1]
    ensures Normalize(t[..k + 1]) == Normalize(t)[..n]
  {
    hide Normalize;
    NormalizePlain(t[0], t[1..]);
    NormalizePlain(t[0], t[1..][..k]);
    assert t == [t[0]] + t[1..] && t[..k + 1] == [t[0]] + t[1..][..k];
  }

  /** A normalized text cut after an LF was cut in the original. */
  lemma {:induction false} CutOriginal(t: string, n: nat) returns (m: nat)
    requires n <= |Normalize(t)| && (n > 0 ==> Normalize(t)[n - 1] == '\n')
    ensures m <= |t| && (m > 0 ==> t[m - 1] == '\n')
    ensures Normalize(t[..m]) == Normalize(t)[..n]
    decreases |t|
  {
    if n == 0 {
      m := 0;
    } else if CrLfAt(t, 0) {
      var k := CutOriginal(t[2..], n - 1);
      m := k + 2;
      hide Normalize;
      CutAfterCrLf(t, n, k);
    } else {
      assert t == [t[0]] + t[1..];
      if n == 1 {
        m := 1;
        assert t[..1] == [t[0]] && t[..1][1..] == "";
      } else {
        var k := CutOriginal(t[1..], n - 1);
        m := k + 1;
        hide Normalize;
        CutAfterPlain(t, n, k);
      }
    }
  }

  lemma NormalizeEndsInLf(a: string)
    requires a != "" && a[|a| - 1] == '\n'
    ensures Normalize(a) != "" && Normalize(a)[|Normalize(a)| - 1] == '\n'
  {
    var front := a[..|a| - 1];
    if front != "" && front[|front| - 1] == '\r' {
      var most := a[..|a| - 2];
      assert a == most + "\r\n";
      NormalizeConcat(most, "\r\n");
      assert "\r\n"[2..] == "";
    } else {
      assert a == front + "\n";
      NormalizeConcat(front, "\n");
      assert "\n"[1..] == "";
    }
  }

  lemma CrLfStays(p: string)
    requires HasCrCrLf(p)
    ensures HasCrLf(Normalize(p))
  {
    var i: nat :| i < |p| && CrCrLfAt(p, i);
    CutKeepsCrLf(p, i);
    var x := Normalize(p[..i + 3]);
    assert CrLfAt(Normalize(p), |x| - 2);
  }

  predicate EndsInLf(s: string) {
    s == "" || s[|s| - 1] == '\n'
  }

  lemma RestEndsInLf(a: string, more: string)
    requires EndsInLf(a + more)
    ensures EndsInLf(Split(Normalize(a)).rest + more)
  {
    var x := Normalize(a);
    var n := Consumed(x);
    assert Split(x).rest == x[n..];
    if more == "" && a != "" {
      assert a + more == a;
      NormalizeEndsInLf(a);
    }
    hide SplitFrom, Normalize;
  }

  /** The step of the proof below in which the chunk ends within p. */
  lemma FrontStep(buffer: string, c: string, more: string)
    requires !HasCrCrLf(buffer + (c + more)) && Split(Normalize(buffer + (c + more))).rest == ""
    ensures var rest := Split(Normalize(buffer + c)).rest;
      && !HasCrCrLf(rest + more) && Normalize(rest) == rest && BreakFrom(rest, 0) == -1
      && Split(Normalize(rest + more)).rest == ""
      && Split(Normalize(buffer + (c + more))).blocks ==
         Split(Normalize(buffer + c)).blocks + Split(Normalize(rest + more)).blocks
  {
    var x := Normalize(buffer + c);
    var n := Consumed(x);
    assert Split(x).rest == x[n..];
    StreamStep(buffer, c, more);
    hide *;
    SplitPrefix(x, 0, Normalize(x[n..] + more));
    SplitAll(x);
    SplitAll(x[..n] + Normalize(x[n..] + more));
    ConsumedAll(x);
  }

  lemma SplitAll(s: string)
    ensures Split(s) == SplitFrom(s, 0)
  {
  }

  lemma ConsumedAll(x: string)
    ensures Consumed(x) == ConsumedFrom(x, 0)
  {
  }

  /** The step in which the chunk reaches past p. */
  lemma PastStep(p: string, q: string, t: string)
    requires p == "" || p[|p| - 1] == '\n'
    requires Split(Normalize(p)).rest == "" && BreakFrom(Collapse(q + t), 0) == -1
    ensures Split(Normalize(p + q)) == Parts(Split(Normalize(p)).blocks, Normalize(q))
    ensures BreakFrom(Collapse(Normalize(q) + t), 0) == -1
  {
    hide *;
    CollapseAfterNormalize(q, t);
    NoBreakBefore(Normalize(q), t);
    NormalizeConcat(p, q);
    AllTaken(Normalize(p), Normalize(q));
  }

  /** A text that its blocks take up, then one without a blank line. */
  lemma AllTaken(x: string, y: string)
    requires Split(x).rest == "" && BreakFrom(y, 0) == -1
    ensures Split(x + y) == Parts(Split(x).blocks, y)
  {
    hide *;
    SplitNone(y);
    ConsumedRest(x);
    NothingLeft(x, Consumed(x));
    SplitPrefix(x, 0, y);
    SplitAll(x);
    SplitAll(x + y);
    assert Split(x).blocks + [] == Split(x).blocks;
  }

  lemma SplitNone(s: string)
    requires BreakFrom(s, 0) == -1
    ensures Split(s) == Parts([], s)
  {
    hide BreakFrom;
    assert s[0..] == s;
  }

  lemma ConsumedRest(x: string)
    ensures Consumed(x) == ConsumedFrom(x, 0) && Split(x).rest == x[Consumed(x)..]
  {
    hide ConsumedFrom, SplitFrom, BreakFrom;
  }

  lemma NothingLeft(x: string, n: nat)
    requires n <= |x| && x[n..] == ""
    ensures x[..n] == x
  {
    assert |x[n..]| == |x| - n;
  }

  /** p is taken up by its blocks whatever follows; after it nothing can become one. */
  lemma {:induction false} FrontBlocksOnly(buffer: string, chunks: seq<string>, p: string, q: string)
    requires buffer + Concat(chunks) == p + q && |buffer| <= |p|
    requires !HasCrCrLf(p) && (p == "" || p[|p| - 1] == '\n') && Split(Normalize(p)).rest == ""
    requires Normalize(buffer) == buffer && BreakFrom(buffer, 0) == -1 && BreakFrom(Collapse(q), 0) == -1
    ensures Stream(buffer, chunks).blocks == Split(Normalize(p)).blocks
    decreases |chunks|
  {
    hide HasCrCrLf, Collapse, Normalize;
    if chunks == [] {
      assert buffer + "" == buffer && |q| == 0 && p + "" == p;
      assert buffer == p;
      assert buffer[0..] == buffer;
    } else {
      var c, t := chunks[0], Concat(chunks[1..]);
      hide SplitFrom, BreakFrom, Concat;
      ConcatAssoc(buffer, c, t);
      var x := Normalize(buffer + c);
      if |buffer + c| <= |p| {
        var more := p[|buffer + c|..];
        CutsInside(buffer + c, t, p, q);
        ConcatAssoc(buffer, c, more);
        FrontStep(buffer, c, more);
        RestEndsInLf(buffer + c, more);
        var rest := Split(x).rest;
        ConcatAssoc(rest, more, q);
        FrontBlocksOnly(rest, chunks[1..], rest + more, q);
      } else {
        var more := (buffer + c)[|p|..];
        CutsOutside(buffer + c, t, p, q);
        PastStep(p, more, t);
        NothingEmitted(Normalize(more), chunks[1..]);
        assert Split(Normalize(p)).blocks + [] == Split(Normalize(p)).blocks;
      }
    }
  }

  lemma CutsInside(a: string, t: string, p: string, q: string)
    requires a + t == p + q && |a| <= |p|
    ensures p == a + p[|a|..] && t == p[|a|..] + q
  {
    assert a == (a + t)[..|a|] == (p + q)[..|a|] == p[..|a|];
    assert t == (a + t)[|a|..] == (p + q)[|a|..];
  }

  lemma CutsOutside(a: string, t: string, p: string, q: string)
    requires a + t == p + q && |a| > |p|
    ensures a == p + a[|p|..] && q == a[|p|..] + t
  {
    CutsInside(p, q, a, t);
  }

  /** The text that blocks take up. */
  function Taken(blocks: seq<string>): string {
    Unsplit(Parts(blocks, ""))
  }

  lemma {:induction false} UnsplitTaken(blocks: seq<string>, rest: string)
    ensures Unsplit(Parts(blocks, rest)) == Taken(blocks) + rest
    decreases |blocks|
  {
    if blocks != [] {
      UnsplitTaken(blocks[1..], rest);
      var more := Taken(blocks[1..]);
      assert Taken(blocks) == blocks[0] + ("\n\n" + more);
      ConcatAssoc("\n\n", more, rest);
      ConcatAssoc(blocks[0], "\n\n" + more, rest);
    }
  }

  lemma SplitTaken(s: string)
    ensures s == Taken(Split(s).blocks) + Split(s).rest && BreakFrom(Split(s).rest, 0) == -1
  {
    SplitUnsplit(s, 0);
    assert s[0..] == s;
    UnsplitTaken(Split(s).blocks, Split(s).rest);
  }

  lemma NoCrLfPrefix(a: string, b: string)
    requires !HasCrLf(a + b)
    ensures !HasCrLf(a)
  {
    forall i: nat | i < |a| ensures !CrLfAt(a, i) {
      assert !CrLfAt(a + b, i);
    }
  }

  /** Where the blocks of the normalized text end in the original. */
  lemma BlocksEnd(t: string) returns (p: string, q: string)
    ensures t == p + q && EndsInLf(p)
    ensures Split(Normalize(p)) == Parts(Split(Normalize(t)).blocks, "")
    ensures Normalize(p) == Taken(Split(Normalize(t)).blocks)
  {
    hide *;
    var x := Normalize(t);
    ConsumedEnd(x);
    var m := CutOriginal(t, Consumed(x));
    p, q := t[..m], t[m..];
    CutAfterLf(t, m);
    FrontSplit(x);
    SplitTaken(Normalize(p));
    assert Taken(Split(x).blocks) + "" == Taken(Split(x).blocks);
  }

  lemma ConsumedEnd(x: string)
    ensures Consumed(x) > 0 ==> x[Consumed(x) - 1] == '\n'
  {
    assert Consumed(x) > 0 ==> IsBreak(x, Consumed(x) - 2);
  }

  lemma CutAfterLf(t: string, m: nat)
    requires m <= |t| && (m > 0 ==> t[m - 1] == '\n')
    ensures t == t[..m] + t[m..] && EndsInLf(t[..m])
  {
  }

  lemma FrontSplit(x: string)
    ensures Split(x[..Consumed(x)]) == Parts(Split(x).blocks, "")
  {
    hide *;
    NothingYet();
    SplitNone("");
    ConsumedRest(x);
    SplitPrefix(x, 0, "");
    SplitAll(x);
    SplitAll(x[..Consumed(x)]);
    assert x[..Consumed(x)] + "" == x[..Consumed(x)];
    assert Split(x).blocks + [] == Split(x).blocks;
  }

  /** The part of the text that the blocks take up has no CR CR LF, and the collapse of
      what follows has no blank line. */
  lemma EqualBlocksParts(t: string, p: string, q: string, blocks: seq<string>)
    requires t == p + q && EndsInLf(p) && blocks == Split(Collapse(t)).blocks && Normalize(p) == Taken(blocks)
    ensures !HasCrCrLf(p) && BreakFrom(Collapse(q), 0) == -1
  {
    var taken := Taken(blocks);
    assert p == "" || p[|p| - 1] == '\n';
    hide *;
    SplitTaken(Collapse(t));
    CollapseFixedExactly(t);
    NoCrLfPrefix(taken, Split(Collapse(t)).rest);
    if HasCrCrLf(p) {
      CrLfStays(p);
    }
    CollapseFixedExactly(taken);
    CollapseNormalized(p);
    CollapseConcat(p, q);
    SamePrefix(taken, Split(Collapse(t)).rest, Collapse(q));
  }

  lemma EqualBlocksFront(t: string, p: string, q: string, chunks: seq<string>)
    requires t == p + q && EndsInLf(p) && Concat(chunks) == t
    requires Split(Collapse(t)).blocks == Split(Normalize(t)).blocks
    requires Normalize(p) == Taken(Split(Normalize(t)).blocks)
    requires Split(Normalize(p)) == Parts(Split(Normalize(t)).blocks, "")
    ensures Stream("", chunks).blocks == Split(Normalize(t)).blocks
  {
    assert p == "" || p[|p| - 1] == '\n';
    hide *;
    EqualBlocksParts(t, p, q, Split(Normalize(t)).blocks);
    NothingYet();
    NothingBefore(Concat(chunks));
    FrontBlocksOnly("", chunks, p, q);
  }

  lemma NothingBefore(s: string)
    ensures "" + s == s
  {
  }

  lemma EqualBlocksAgree(t: string, chunks: seq<string>)
    requires Split(Collapse(t)).blocks == Split(Normalize(t)).blocks && Concat(chunks) == t
    ensures Stream("", chunks).blocks == Split(Normalize(t)).blocks
  {
    hide *;
    var p, q := BlocksEnd(t);
    EqualBlocksFront(t, p, q, chunks);
  }

  lemma NothingYet()
    ensures Normalize("") == "" && BreakFrom("", 0) == -1
  {
  }

  lemma CollapseNormalized(p: string)
    ensures Collapse(Normalize(p)) == Collapse(p)
  {
    PutNormalized(p, "");
  }

  lemma SamePrefix(a: string, b: string, c: string)
    requires a + b == a + c
    ensures b == c
  {
    assert b == (a + b)[|a|..] && c == (a + c)[|a|..];
  }

  // --------------------------------------- a chunking that collapses everything

  function Empties(k: nat): seq<string> {
    if k == 0 then [] else [""] + Empties(k - 1)
  }

  /** One character at a time, k empty chunks after each. */
  function OneByOne(t: string, k: nat): seq<string> {
    if t == "" then [] else [[t[0]]] + (Empties(k) + OneByOne(t[1..], k))
  }

  lemma {:induction false} ConcatEmpties(k: nat, more: seq<string>)
    ensures Concat(Empties(k) + more) == Concat(more)
  {
    if k == 0 {
      assert [] + more == more;
    } else {
      ConcatEmpties(k - 1, more);
      EmptiesMore(k, more);
      hide Empties;
      assert ([""] + (Empties(k - 1) + more))[1..] == Empties(k - 1) + more;
      assert "" + Concat(more) == Concat(more);
    }
  }

  lemma {:induction false} ConcatOneByOne(t: string, k: nat)
    ensures Concat(OneByOne(t, k)) == t
  {
    if t != "" {
      ConcatOneByOne(t[1..], k);
      ConcatEmpties(k, OneByOne(t[1..], k));
      assert OneByOne(t, k)[1..] == Empties(k) + OneByOne(t[1..], k);
      assert t == [t[0]] + t[1..];
    }
  }

  /** What is emitted when x is the buffer about to be split. */
  function Emit(x: string, chunks: seq<string>): Parts {
    var later := Stream(Split(x).rest, chunks);
    Parts(Split(x).blocks + later.blocks, later.rest)
  }

  lemma StreamOne(buffer: string, c: string, more: seq<string>)
    ensures Stream(buffer, [c] + more) == Emit(Normalize(buffer + c), more)
  {
    assert ([c] + more)[1..] == more;
  }

  lemma Whole(b: string)
    requires BreakFrom(b, 0) == -1
    ensures Split(b) == Parts([], b)
  {
    assert b[0..] == b;
  }

  predicate Clean(b: string) {
    !HasCrLf(b) && BreakFrom(b, 0) == -1
  }

  lemma EmitWhole(b: string, more: seq<string>)
    requires BreakFrom(b, 0) == -1
    ensures Emit(b, more) == Stream(b, more)
  {
    Whole(b);
    hide Split;
    assert [] + Stream(b, more).blocks == Stream(b, more).blocks;
  }

  lemma {:induction false} EmptiesIdle(b: string, k: nat, more: seq<string>)
    requires Clean(b)
    ensures Stream(b, Empties(k) + more) == Stream(b, more)
  {
    if k == 0 {
      assert [] + more == more;
    } else {
      EmptiesIdle(b, k - 1, more);
      assert Empties(k) + more == [""] + (Empties(k - 1) + more);
      NormalizeFixedExactly(b);
      assert b + "" == b;
      hide *;
      StreamOne(b, "", Empties(k - 1) + more);
      assert BreakFrom(b, 0) == -1 by { CleanHasNoBreak(b); }
      EmitWhole(b, Empties(k - 1) + more);
    }
  }

  lemma CleanHasNoBreak(b: string)
    requires Clean(b)
    ensures BreakFrom(b, 0) == -1 && !HasCrLf(b) && Normalize(b) == b && Collapse(b) == b
  {
    NormalizeFixedExactly(b);
    CollapseFixedExactly(b);
  }

  /** What splitting leaves of a text without CRLF. */
  lemma RestClean(x: string)
    requires !HasCrLf(x)
    ensures Clean(Split(x).rest) && |Split(x).rest| <= |x|
    ensures x == x[..Consumed(x)] + Split(x).rest && !HasCrLf(x[..Consumed(x)])
    ensures x[..Consumed(x)] == "" || x[..Consumed(x)][Consumed(x) - 1] == '\n'
  {
    hide *;
    var n := Consumed(x);
    ConsumedRest(x);
    ConsumedEnd(x);
    SplitTaken(x);
    assert x == x[..n] + Split(x).rest;
    NoCrLfPrefix(x[..n], Split(x).rest);
    NoCrLfRest(x[..n], Split(x).rest);
    CleanIf(Split(x).rest);
  }

  lemma NoCrLfRest(a: string, b: string)
    requires !HasCrLf(a + b)
    ensures !HasCrLf(b)
  {
    forall i: nat | i < |b| ensures !CrLfAt(b, i) {
      assert !CrLfAt(a + b, |a| + i);
    }
  }

  lemma CleanIf(b: string)
    requires !HasCrLf(b) && BreakFrom(b, 0) == -1
    ensures Clean(b)
  {
  }

  lemma EmitIdle(x: string, k: nat, more: seq<string>)
    requires !HasCrLf(x)
    ensures Emit(x, Empties(k) + more) == Emit(x, more)
  {
    RestClean(x);
    hide Clean, Split, Stream, Empties;
    EmptiesIdle(Split(x).rest, k, more);
  }

  function Crs(r: nat): (s: string)
    ensures |s| == r && forall i :: 0 <= i < r ==> s[i] == '\r'
  {
    seq(r, i => '\r')
  }

  /** A run of CRs before an LF, after a text that is clean and does not end in a CR. */
  predicate EndsPlain(v: string) {
    Clean(v) && (v == "" || v[|v| - 1] != '\r')
  }

  lemma PlainNoCrLf(v: string, tail: string)
    requires EndsPlain(v) && (tail == "\n" || forall i :: 0 <= i < |tail| ==> tail[i] == '\r')
    ensures !HasCrLf(v + tail)
  {
    hide BreakFrom;
    var x := v + tail;
    forall i: nat | i < |x| ensures !CrLfAt(x, i) {
      assert i + 1 < |v| ==> !CrLfAt(v, i);
    }
  }

  lemma RunNormalizes(v: string, r: nat)
    requires EndsPlain(v)
    ensures Normalize(v + Crs(r + 1) + "\n") == v + Crs(r) + "\n"
  {
    var front := v + Crs(r);
    PlainNoCrLf(v, Crs(r));
    NormalizeFixedExactly(front);
    assert v + Crs(r + 1) + "\n" == front + "\r\n";
    NormalizeConcat(front, "\r\n");
    assert "\r\n"[2..] == "" && Normalize("\r\n") == "\n";
    hide Normalize;
  }

  lemma RunHasNoBreak(v: string, r: nat)
    requires Clean(v) && r > 0
    ensures BreakFrom(v + Crs(r) + "\n", 0) == -1
  {
    var x := v + Crs(r) + "\n";
    assert x[|v| + r - 1] == '\r';
    var at := BreakFrom(x, 0);
    assert at != -1 ==> IsBreak(x, at);
    assert at != -1 && at + 2 <= |v| ==> IsBreak(v, at);
  }

  lemma RunFacts(v: string, r: nat)
    requires EndsPlain(v)
    ensures !HasCrLf(v + "\n") && Normalize(v + Crs(r + 1) + "\n") == v + Crs(r) + "\n"
    ensures r > 0 ==> BreakFrom(v + Crs(r) + "\n", 0) == -1
  {
    PlainNoCrLf(v, "\n");
    RunNormalizes(v, r);
    if r > 0 {
      RunHasNoBreak(v, r);
    }
    hide *;
  }

  lemma NoCrs()
    ensures Crs(0) == ""
  {
  }

  lemma EmptiesMore(k: nat, more: seq<string>)
    requires k > 0
    ensures Empties(k) + more == [""] + (Empties(k - 1) + more)
  {
  }

  lemma {:induction false} TailSettles(v: string, r: nat, k: nat, more: seq<string>)
    requires EndsPlain(v) && r <= k
    ensures Emit(v + Crs(r) + "\n", Empties(k) + more) == Emit(v + "\n", more)
    decreases r
  {
    hide *;
    var x := v + Crs(r) + "\n";
    RunFacts(v, r);
    if r == 0 {
      NoCrs();
      assert x == v + "\n";
      EmitIdle(v + "\n", k, more);
    } else {
      RunFacts(v, r - 1);
      EmptiesMore(k, more);
      assert x + "" == x;
      EmitWhole(x, Empties(k) + more);
      StreamOne(x, "", Empties(k - 1) + more);
      TailSettles(v, r - 1, k - 1, more);
    }
  }

  function TrailingCrs(u: string): (r: nat)
    ensures r <= |u| && (forall i :: |u| - r <= i < |u| ==> u[i] == '\r')
    ensures r < |u| ==> u[|u| - r - 1] != '\r'
  {
    if u != "" && u[|u| - 1] == '\r' then 1 + TrailingCrs(u[..|u| - 1]) else 0
  }

  lemma {:induction false} RunCollapses(v: string, r: nat)
    requires EndsPlain(v)
    ensures Collapse(v + Crs(r) + "\n") == v + "\n"
  {
    RunFacts(v, 0);
    CollapseFixedExactly(v + "\n");
    RunDrops(r);
    ConcatAssoc(v, Crs(r), "\n");
    PutAllConcat(v, Crs(r) + "\n", "");
    PutAllConcat(v, "\n", "");
    assert PutAll("\n", "") == "\n" by {
      assert "\n"[1..] == "";
    }
  }

  lemma {:induction false} RunDrops(r: nat)
    ensures PutAll(Crs(r) + "\n", "") == "\n"
  {
    if r == 0 {
      assert Crs(0) + "\n" == "\n" && "\n"[1..] == "";
    } else {
      RunDrops(r - 1);
      assert (Crs(r) + "\n")[1..] == Crs(r - 1) + "\n";
    }
  }

  lemma CleanPrefix(a: string, b: string)
    requires Clean(a + b)
    ensures Clean(a)
  {
    NoCrLfPrefix(a, b);
    BreakStays(a, b);
  }

  lemma BreakStays(a: string, b: string)
    ensures BreakFrom(a, 0) != -1 ==> BreakFrom(a + b, 0) != -1
  {
    if BreakFrom(a, 0) != -1 {
      assert IsBreak(a + b, BreakFrom(a, 0));
    }
  }

  /** A clean buffer is a plain text and the CRs behind it. */
  lemma CutRun(u: string) returns (v: string, r: nat)
    requires Clean(u)
    ensures u == v + Crs(r) && EndsPlain(v) && r == TrailingCrs(u)
  {
    r := TrailingCrs(u);
    v := u[..|u| - r];
    assert u == v + Crs(r);
    hide Clean;
    CleanPrefix(v, Crs(r));
  }

  lemma PlainChar(u: string, c: char)
    requires Clean(u) && (c != '\n' || TrailingCrs(u) == 0)
    ensures !HasCrLf(u + [c])
  {
    assert !HasCrLf(u);
    hide BreakFrom;
    forall i: nat | i < |u + [c]| ensures !CrLfAt(u + [c], i) {
      assert i + 1 < |u| ==> !CrLfAt(u, i);
    }
  }

  /** An LF and enough empty chunks settle a buffer that ends in CRs. */
  lemma LfSettles(v: string, r: nat, k: nat, more: seq<string>)
    requires EndsPlain(v) && 0 < r <= k + 1
    ensures Stream(v + Crs(r), ["\n"] + (Empties(k) + more)) == Emit(Collapse(v + Crs(r) + "\n"), more)
  {
    hide *;
    RunFacts(v, r - 1);
    RunCollapses(v, r);
    StreamOne(v + Crs(r), "\n", Empties(k) + more);
    TailSettles(v, r - 1, k, more);
  }

  /** A character and enough empty chunks after it settle a clean buffer. */
  lemma CharSettles(u: string, c: char, k: nat, more: seq<string>)
    requires Clean(u) && |u| <= k
    ensures Stream(u, [[c]] + (Empties(k) + more)) == Emit(Collapse(u + [c]), more)
  {
    hide *;
    if c == '\n' && TrailingCrs(u) > 0 {
      var v, r := CutRun(u);
      LfSettles(v, r, k, more);
    } else {
      PlainChar(u, c);
      NormalizeFixedExactly(u + [c]);
      CollapseFixedExactly(u + [c]);
      StreamOne(u, [c], Empties(k) + more);
      EmitIdle(u + [c], k, more);
    }
  }

  /** So the loop emits the blocks of the collapsed text. */
  lemma {:induction false} OneByOneCollapses(b: string, t: string, k: nat)
    requires Clean(b) && |b| + |t| <= k
    ensures Stream(b, OneByOne(t, k)) == Split(Collapse(b + t))
    decreases |t|
  {
    if t == "" {
      CleanHasNoBreak(b);
      Whole(b);
      assert b + "" == b;
      hide Split, Collapse;
    } else {
      var y := Collapse(b + [t[0]]);
      CollapseShorter(b + [t[0]]);
      CollapseFixedExactly(b + [t[0]]);
      var rest, front := Split(y).rest, y[..Consumed(y)];
      assert OneByOne(t, k) == [[t[0]]] + (Empties(k) + OneByOne(t[1..], k));
      assert b + t == (b + [t[0]]) + t[1..];
      hide *;
      RestClean(y);
      CharSettles(b, t[0], k, OneByOne(t[1..], k));
      OneByOneCollapses(rest, t[1..], k);
      CollapseAfterCollapse(b + [t[0]], t[1..]);
      ConcatAssoc(front, rest, t[1..]);
      CollapseConcat(front, rest + t[1..]);
      CollapseFixedExactly(front);
      SplitPrefix(y, 0, Collapse(rest + t[1..]));
      EmitIs(y, OneByOne(t[1..], k), Collapse(rest + t[1..]));
    }
  }

  lemma {:induction false} CollapseShorter(s: string)
    ensures |Collapse(s)| <= |s|
  {
    if s != "" {
      CollapseShorter(s[1..]);
    }
  }

  lemma EmitIs(y: string, more: seq<string>, z: string)
    requires Stream(Split(y).rest, more) == Split(z)
    requires SplitFrom(y[..Consumed(y)] + z, 0) == Parts(SplitFrom(y, 0).blocks + Split(z).blocks, Split(z).rest)
    ensures Emit(y, more) == Split(y[..Consumed(y)] + z)
  {
    hide SplitFrom, Stream, Consumed;
  }

  /** For every text: all ways of cutting it into chunks emit the blocks of the normalized
      whole exactly when dropping every CR in front of an LF gives the same blocks. */
  lemma CutsAgreeExactly(t: string)
    ensures (forall chunks :: Concat(chunks) == t ==> Stream("", chunks).blocks == Split(Normalize(t)).blocks) <==>
      Split(Collapse(t)).blocks == Split(Normalize(t)).blocks
  {
    if Split(Collapse(t)).blocks == Split(Normalize(t)).blocks {
      forall chunks | Concat(chunks) == t ensures Stream("", chunks).blocks == Split(Normalize(t)).blocks {
        EqualBlocksAgree(t, chunks);
      }
    } else {
      assert Clean("");
      OneByOneCollapses("", t, |t|);
      ConcatOneByOne(t, |t|);
      assert "" + t == t;
      hide Split, Stream, Collapse, Normalize, Concat;
    }
  }
}
