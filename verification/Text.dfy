// Lines and white space, as Go's strings.Split, Join and TrimSpace treat them.

module Text {
  /** unicode.IsSpace. */
  predicate IsSpace(c: char) {
    c == '\t' || c == '\n' || c == '\U{0B}' || c == '\U{0C}' || c == '\r' || c == ' ' || c == '\U{85}' || c == '\U{A0}'
    || c == '\U{1680}' || '\U{2000}' <= c <= '\U{200A}' || c == '\U{2028}' || c == '\U{2029}' || c == '\U{202F}'
    || c == '\U{205F}' || c == '\U{3000}'
  }

  lemma SpacesExactly(c: char)
    ensures IsSpace(c) <==> c in [' ', '\t', '\n', '\r', 11 as char, 12 as char, 0x85 as char, 0xA0 as char,
      0x1680 as char, 0x2000 as char, 0x2001 as char, 0x2002 as char, 0x2003 as char, 0x2004 as char, 0x2005 as char,
      0x2006 as char, 0x2007 as char, 0x2008 as char, 0x2009 as char, 0x200A as char, 0x2028 as char, 0x2029 as char,
      0x202F as char, 0x205F as char, 0x3000 as char]
  {
  }

  function TrimLeft(s: string): string {
    if s != "" && IsSpace(s[0]) then TrimLeft(s[1..]) else s
  }

  function TrimRight(s: string): string {
    if s != "" && IsSpace(s[|s| - 1]) then TrimRight(s[..|s| - 1]) else s
  }

  function TrimSpace(s: string): string {
    TrimRight(TrimLeft(s))
  }

  /** Nothing to trim. */
  predicate IsTrimmed(s: string) {
    s == "" || (!IsSpace(s[0]) && !IsSpace(s[|s| - 1]))
  }

  lemma {:induction false} TrimRightKeepsStart(s: string)
    requires s == "" || !IsSpace(s[0])
    ensures IsTrimmed(TrimRight(s))
  {
    if s != "" && IsSpace(s[|s| - 1]) {
      TrimRightKeepsStart(s[..|s| - 1]);
    }
  }

  lemma {:induction false} TrimLeftStart(s: string)
    ensures TrimLeft(s) == "" || !IsSpace(TrimLeft(s)[0])
  {
    if s != "" && IsSpace(s[0]) {
      TrimLeftStart(s[1..]);
    }
  }

  /** The result is trimmed, and a text is its own trimming exactly when it is. */
  lemma TrimSpaceExactly(s: string)
    ensures IsTrimmed(TrimSpace(s))
    ensures TrimSpace(s) == s <==> IsTrimmed(s)
  {
    TrimLeftStart(s);
    TrimRightKeepsStart(TrimLeft(s));
  }

  predicate AllSpace(s: string) {
    forall i :: 0 <= i < |s| ==> IsSpace(s[i])
  }

  lemma {:induction false} TrimLeftDrops(s: string) returns (a: string)
    ensures AllSpace(a) && s == a + TrimLeft(s)
  {
    a := "";
    if s != "" && IsSpace(s[0]) {
      var rest := TrimLeftDrops(s[1..]);
      a := [s[0]] + rest;
    }
  }

  lemma {:induction false} TrimRightDrops(s: string) returns (b: string)
    ensures AllSpace(b) && s == TrimRight(s) + b
  {
    b := "";
    if s != "" && IsSpace(s[|s| - 1]) {
      var rest := TrimRightDrops(s[..|s| - 1]);
      b := rest + [s[|s| - 1]];
      assert s == s[..|s| - 1] + [s[|s| - 1]];
    }
  }

  lemma {:induction false} SpacesGo(a: string, t: string, b: string)
    requires AllSpace(a) && AllSpace(b)
    ensures TrimSpace(a + t + b) == TrimSpace(t)
    decreases |a| + |b|
  {
    if a != "" {
      assert a + t + b == [a[0]] + (a[1..] + t + b);
      TrimSpaceAround(a[1..] + t + b, a[0]);
      hide TrimSpace;
      SpacesGo(a[1..], t, b);
    } else if b != "" {
      var n := |b| - 1;
      assert a + t + b == (a + t + b[..n]) + [b[n]];
      TrimSpaceAround(a + t + b[..n], b[n]);
      hide TrimSpace;
      SpacesGo(a, t, b[..n]);
    } else {
      assert a + t + b == t;
    }
  }

  /** Trimming takes off white space at both ends and nothing else: t is the trimming of s
      exactly when s is t between white space and t neither begins nor ends with any. */
  lemma TrimSpaceMeans(s: string, t: string)
    ensures TrimSpace(s) == t <==> IsTrimmed(t) && exists a, b :: AllSpace(a) && AllSpace(b) && s == a + t + b
  {
    if TrimSpace(s) == t {
      TrimSpaceExactly(s);
      var a := TrimLeftDrops(s);
      var b := TrimRightDrops(TrimLeft(s));
      assert s == a + t + b;
    }
    forall a, b | AllSpace(a) && AllSpace(b) && s == a + t + b && IsTrimmed(t)
      ensures TrimSpace(s) == t
    {
      SpacesGo(a, t, b);
      TrimSpaceExactly(t);
    }
  }

  lemma {:induction false} TrimRightPush(s: string, c: char)
    ensures IsSpace(c) ==> TrimRight(s + [c]) == TrimRight(s)
  {
    assert (s + [c])[..|s|] == s;
  }

  lemma {:induction false} TrimLeftPush(s: string, c: char)
    ensures TrimLeft(s + [c]) == if TrimLeft(s) == "" && IsSpace(c) then "" else TrimLeft(s) + [c]
  {
    if s == "" {
      assert s + [c] == [c];
      assert [c][1..] == "";
    } else if IsSpace(s[0]) {
      TrimLeftPush(s[1..], c);
      assert (s + [c])[1..] == s[1..] + [c];
    }
  }

  /** White space on either side makes no difference. */
  lemma TrimSpaceAround(s: string, c: char)
    requires IsSpace(c)
    ensures TrimSpace([c] + s) == TrimSpace(s) == TrimSpace(s + [c])
  {
    assert ([c] + s)[1..] == s;
    TrimLeftPush(s, c);
    TrimRightPush(TrimLeft(s), c);
  }

  // --------------------------------------------------------------------- lines

  /** strings.Split(text, "\n"). */
  function Lines(text: string): (lines: seq<string>)
    ensures |lines| >= 1
    ensures forall i :: 0 <= i < |lines| ==> '\n' !in lines[i]
  {
    if text == "" then [""] else Before(text[0], Lines(text[1..]))
  }

  /** The lines of a text that has one more character in front. */
  function Before(c: char, lines: seq<string>): seq<string>
    requires |lines| >= 1
  {
    if c == '\n' then [""] + lines else [[c] + lines[0]] + lines[1..]
  }

  /** The lines of a text that has one more character at the end. */
  function Behind(lines: seq<string>, c: char): seq<string>
    requires |lines| >= 1
  {
    if c == '\n' then lines + [""] else lines[..|lines| - 1] + [lines[|lines| - 1] + [c]]
  }

  /** strings.Join(lines, "\n"). */
  function Join(lines: seq<string>): string {
    if lines == [] then ""
    else if |lines| == 1 then lines[0]
    else lines[0] + "\n" + Join(lines[1..])
  }

  lemma {:induction false} LinesOfLine(line: string)
    requires '\n' !in line
    ensures Lines(line) == [line]
  {
    if line != "" {
      LinesOfLine(line[1..]);
      assert [line[0]] + line[1..] == line;
    }
  }

  lemma BeforeConcat(c: char, a: seq<string>, b: seq<string>)
    requires |a| >= 1
    ensures Before(c, a + b) == Before(c, a) + b
  {
    assert (a + b)[1..] == a[1..] + b;
  }

  lemma BeforeBehind(c: char, lines: seq<string>, d: char)
    requires |lines| >= 1
    ensures Before(c, Behind(lines, d)) == Behind(Before(c, lines), d)
  {
    if d == '\n' {
      hide Before;
      BeforeConcat(c, lines, [""]);
    } else if |lines| == 1 {
      assert [c] + (lines[0] + [d]) == [c] + lines[0] + [d];
    }
  }

  /** Splitting a text at a newline splits its lines. */
  lemma {:induction false} LinesConcat(a: string, b: string)
    ensures Lines(a + "\n" + b) == Lines(a) + Lines(b)
  {
    if a == "" {
      assert a + "\n" + b == "\n" + b;
      assert ("\n" + b)[1..] == b;
    } else {
      LinesConcat(a[1..], b);
      assert (a + "\n" + b)[1..] == a[1..] + "\n" + b;
      BeforeConcat(a[0], Lines(a[1..]), Lines(b));
      hide Before;
    }
  }

  lemma {:induction false} LinesOfJoin(lines: seq<string>)
    requires |lines| >= 1 && forall i :: 0 <= i < |lines| ==> '\n' !in lines[i]
    ensures Lines(Join(lines)) == lines
  {
    LinesOfLine(lines[0]);
    if |lines| > 1 {
      LinesOfJoin(lines[1..]);
      LinesConcat(lines[0], Join(lines[1..]));
      assert [lines[0]] + lines[1..] == lines;
    }
  }

  lemma {:induction false} JoinOfLines(text: string)
    ensures Join(Lines(text)) == text
  {
    if text != "" {
      JoinOfLines(text[1..]);
      var rest := Lines(text[1..]);
      if text[0] == '\n' {
        assert ([""] + rest)[1..] == rest;
      } else {
        var lines := [[text[0]] + rest[0]] + rest[1..];
        assert lines[1..] == rest[1..];
        if |rest| > 1 {
          assert Join(lines) == [text[0]] + (rest[0] + "\n" + Join(rest[1..]));
        }
      }
      assert text == [text[0]] + text[1..];
    }
  }

  lemma {:induction false} LinesPush(text: string, c: char)
    ensures Lines(text + [c]) == Behind(Lines(text), c)
  {
    if text == "" {
      assert text + [c] == [c];
      assert [c][1..] == "";
      assert [c] + "" == [c] == "" + [c];
    } else {
      LinesPush(text[1..], c);
      assert (text + [c])[1..] == text[1..] + [c];
      BeforeBehind(text[0], Lines(text[1..]), c);
      hide Before, Behind;
    }
  }
}
