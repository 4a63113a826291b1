// Laws of ${VAR} expansion.

module ExpandLaws {
  import opened Identity
  import opened Expand

  /** Every reference has a proper name, and no literal stands where a reference begins. */
  ghost predicate Proper(tokens: seq<Token>) {
    tokens == []
    || (Proper(tokens[1..])
        && match tokens[0]
           case Ref(name) => IsName(name)
           case Lit(_) => forall name :: !StartsWithRef(Print(tokens), name))
  }

  lemma RefUnique(s: string, a: string, b: string)
    requires StartsWithRef(s, a) && StartsWithRef(s, b)
    ensures a == b
  {
    assert RefText(a)[0] == '$' && |RefText(a)| > 2;
    RefEndsAtBrace(s, BraceFrom(s, 2));
  }

  lemma RefLengthIs(s: string, name: string)
    requires StartsWithRef(s, name)
    ensures RefLength(s) == |name| + 3 && s[2..|name| + 2] == name
  {
    var n := RefLength(s);
    RefUnique(s, name, s[2..n - 1]);
    assert s[..|RefText(name)|] == RefText(name);
  }

  /** What stands for a reference in the output: the value of its variable, or its text. */
  lemma ExpandsReference(name: string, rest: string, lookup: Lookup)
    requires SpelledName(name)
    ensures Expand.Expand("${" + name + "}" + rest, lookup) ==
      (if lookup(name).Some? then lookup(name).value else "${" + name + "}") + Expand.Expand(rest, lookup)
  {
    NameSpelled(name);
    var s := "${" + name + "}" + rest;
    assert StartsWithRef(s, name);
    RefLengthIs(s, name);
    hide IsName, SpelledName, RefLength;
    assert s[|name| + 3..] == rest;
    assert Tokens(s)[0] == Ref(name) && Tokens(s)[1..] == Tokens(rest);
    hide Tokens;
  }

  /** A character at which no reference begins is copied. */
  lemma CopiesOtherwise(c: char, rest: string, lookup: Lookup)
    requires forall name :: SpelledName(name) ==> !("${" + name + "}" <= [c] + rest)
    ensures Expand.Expand([c] + rest, lookup) == [c] + Expand.Expand(rest, lookup)
    ensures Expand.Expand("", lookup) == ""
  {
    var s := [c] + rest;
    forall name ensures !StartsWithRef(s, name) {
      NameSpelled(name);
    }
    hide IsName, SpelledName, StartsWithRef;
    assert RefLength(s) == 0;
    assert s[1..] == rest;
    assert Tokens(s)[0] == Lit(c) && Tokens(s)[1..] == Tokens(rest);
    hide Tokens, RefLength;
  }

  /** The tokens of a text are exactly those that print to it and are proper. */
  lemma {:induction false} TokensExactly(s: string, tokens: seq<Token>)
    ensures tokens == Tokens(s) <==> Print(tokens) == s && Proper(tokens)
    decreases |s| + |tokens|
  {
    if s != "" {
      TokensPrint(s);
    }
    if tokens != [] && Print(tokens) == s && Proper(tokens) {
      var rest := Print(tokens[1..]);
      assert s == PrintToken(tokens[0]) + rest;
      match tokens[0]
      case Lit(c) =>
        assert s[1..] == rest;
        TokensExactly(s[1..], tokens[1..]);
      case Ref(name) =>
        assert StartsWithRef(s, name);
        RefLengthIs(s, name);
        assert s[|name| + 3..] == rest;
        TokensExactly(rest, tokens[1..]);
    }
  }

  function HeadLength(s: string): (n: nat)
    requires s != ""
    ensures 1 <= n <= |s|
  {
    if RefLength(s) > 0 then RefLength(s) else 1
  }

  function HeadToken(s: string): Token
    requires s != ""
  {
    if RefLength(s) > 0 then Ref(s[2..RefLength(s) - 1]) else Lit(s[0])
  }

  lemma TokensStep(s: string)
    requires s != ""
    ensures Tokens(s) == [HeadToken(s)] + Tokens(s[HeadLength(s)..])
  {
  }

  lemma HeadPrints(s: string)
    requires s != ""
    ensures PrintToken(HeadToken(s)) == s[..HeadLength(s)] && (HeadToken(s).Ref? ==> IsName(HeadToken(s).name))
    ensures HeadToken(s).Lit? ==> RefLength(s) == 0
  {
    hide IsName;
    var n := RefLength(s);
    if n > 0 {
      var text := RefText(s[2..n - 1]);
      assert |text| == n && s[..|text|] == text;
    }
  }

  /** A text is its first token and what follows. */
  lemma HeadCut(s: string) returns (rest: string)
    requires s != ""
    ensures s == PrintToken(HeadToken(s)) + rest && |rest| < |s|
    ensures Tokens(s) == [HeadToken(s)] + Tokens(rest)
    ensures HeadToken(s).Ref? ==> IsName(HeadToken(s).name)
    ensures HeadToken(s).Lit? ==> RefLength(s) == 0
  {
    hide *;
    HeadPrints(s);
    TokensStep(s);
    rest := s[HeadLength(s)..];
    assert s == s[..HeadLength(s)] + rest;
  }

  lemma {:induction false} TokensPrint(s: string)
    ensures Print(Tokens(s)) == s && Proper(Tokens(s))
    decreases |s|
  {
    if s != "" {
      hide *;
      var rest := HeadCut(s);
      TokensPrint(rest);
      TokensMore(HeadToken(s), Tokens(rest));
    }
  }

  lemma TokensMore(t: Token, tokens: seq<Token>)
    requires Proper(tokens)
    requires t.Ref? ==> IsName(t.name)
    requires t.Lit? ==> RefLength(PrintToken(t) + Print(tokens)) == 0
    ensures Print([t] + tokens) == PrintToken(t) + Print(tokens) && Proper([t] + tokens)
  {
    hide StartsWithRef, IsName, RefLength;
    assert ([t] + tokens)[1..] == tokens;
  }

  lemma {:induction false} RenderMissing(tokens: seq<Token>, lookup: Lookup)
    requires forall i :: 0 <= i < |tokens| && tokens[i].Ref? ==> lookup(tokens[i].name).None?
    ensures Render(tokens, lookup) == Print(tokens)
  {
    if tokens != [] {
      RenderMissing(tokens[1..], lookup);
    }
  }

  /** A text none of whose variables is set stays as it is. */
  lemma UnsetVariablesStay(s: string, lookup: Lookup)
    requires forall i :: 0 <= i < |Tokens(s)| && Tokens(s)[i].Ref? ==> lookup(Tokens(s)[i].name).None?
    ensures Expand.Expand(s, lookup) == s
  {
    RenderMissing(Tokens(s), lookup);
    TokensPrint(s);
  }

  // ------------------------------------------------------------------- joining

  /** A reference begins in a and ends in b. */
  predicate Straddles(a: string, b: string) {
    exists i :: 0 <= i < |a| && RefLength((a + b)[i..]) > |a| - i
  }

  lemma RenderMore(t: Token, tokens: seq<Token>, lookup: Lookup)
    ensures Render([t] + tokens, lookup) == RenderToken(t, lookup) + Render(tokens, lookup)
  {
    assert ([t] + tokens)[1..] == tokens;
  }

  lemma {:induction false} RenderConcat(x: seq<Token>, y: seq<Token>, lookup: Lookup)
    ensures Render(x + y, lookup) == Render(x, lookup) + Render(y, lookup)
  {
    if x == [] {
      assert x + y == y;
    } else {
      hide *;
      var head, t := x[0], x[1..];
      assert x == [head] + t && x + y == [head] + (t + y);
      RenderMore(head, t, lookup);
      RenderMore(head, t + y, lookup);
      RenderConcat(t, y, lookup);
      Append(Render(x + y, lookup), RenderToken(head, lookup), Render(t, lookup), Render(y, lookup));
    }
  }

  /** A reference that ends within a is one of a, and the other way round. */
  lemma RefWithin(a: string, b: string)
    requires RefLength(a + b) <= |a|
    ensures RefLength(a) == RefLength(a + b)
  {
    var n := RefLength(a + b);
    if n > 0 {
      var name := (a + b)[2..n - 1];
      assert RefText(name) <= a + b && |RefText(name)| == n;
      assert a[..n] == (a + b)[..n] == RefText(name);
      assert StartsWithRef(a, name);
      RefLengthIs(a, name);
    } else if RefLength(a) > 0 {
      var name := a[2..RefLength(a) - 1];
      assert RefText(name) <= a <= a + b;
      assert StartsWithRef(a + b, name);
      assert false;
    }
  }

  lemma HeadWithin(a: string, b: string)
    requires a != "" && RefLength(a + b) <= |a|
    ensures HeadLength(a + b) == HeadLength(a) && HeadToken(a + b) == HeadToken(a)
  {
    RefWithin(a, b);
    hide RefLength;
    if RefLength(a) > 0 {
      assert (a + b)[2..RefLength(a) - 1] == a[2..RefLength(a) - 1];
    }
  }

  lemma StraddlesLater(a: string, b: string, n: nat)
    requires n <= |a| && !Straddles(a, b)
    ensures !Straddles(a[n..], b)
  {
    hide RefLength;
    forall i | 0 <= i < |a[n..]| ensures RefLength((a[n..] + b)[i..]) <= |a[n..]| - i {
      assert (a[n..] + b)[i..] == (a + b)[n + i..];
    }
  }

  lemma AppendTokens(x: seq<Token>, y: seq<Token>, z: seq<Token>)
    ensures x + (y + z) == (x + y) + z
  {
  }

  lemma NoRefAcross(a: string, b: string)
    requires !Straddles(a, b) && a != ""
    ensures RefLength(a + b) <= |a|
  {
    hide RefLength;
    assert (a + b)[0..] == a + b;
  }

  /** Without a reference across the seam a text and the longer one begin alike. */
  lemma HeadCutBoth(a: string, b: string) returns (head: Token, rest: string)
    requires !Straddles(a, b) && a != ""
    ensures Tokens(a) == [head] + Tokens(rest) && Tokens(a + b) == [head] + Tokens(rest + b)
    ensures !Straddles(rest, b) && |rest| < |a|
  {
    NoRefAcross(a, b);
    hide *;
    HeadWithin(a, b);
    TokensStep(a);
    TokensStep(a + b);
    var n := HeadLength(a);
    StraddlesLater(a, b, n);
    CutAt(a, b, n);
    head, rest := HeadToken(a), a[n..];
  }

  lemma {:induction false} TokensConcat(a: string, b: string)
    requires !Straddles(a, b)
    ensures Tokens(a + b) == Tokens(a) + Tokens(b)
    decreases |a|
  {
    if a == "" {
      assert a + b == b && [] + Tokens(b) == Tokens(b);
    } else {
      hide *;
      var head, rest := HeadCutBoth(a, b);
      TokensConcat(rest, b);
      AppendTokens([head], Tokens(rest), Tokens(b));
    }
  }

  /** A reference has its only dollar at its start and its only closing brace at its end. */
  lemma RefShape(s: string, k: nat)
    requires RefLength(s) > 0 && k < RefLength(s)
    ensures s[k] == '$' <==> k == 0
    ensures s[k] == '}' <==> k == RefLength(s) - 1
  {
    var name := s[2..RefLength(s) - 1];
    assert s[..|RefText(name)|] == RefText(name);
    assert s[k] == RefText(name)[k];
    if 2 <= k < |name| + 2 {
      assert IsNamePart(name[k - 2]);
    }
  }

  lemma NoStraddleAfterBrace(a: string, b: string)
    requires a == "" || a[|a| - 1] == '}'
    ensures !Straddles(a, b)
  {
    forall i | 0 <= i < |a| ensures RefLength((a + b)[i..]) <= |a| - i {
      var s := (a + b)[i..];
      if RefLength(s) > |a| - i {
        RefShape(s, |a| - 1 - i);
      }
    }
  }

  lemma NoStraddleBeforeDollar(a: string, b: string)
    requires b == "" || b[0] == '$'
    ensures !Straddles(a, b)
  {
    forall i | 0 <= i < |a| ensures RefLength((a + b)[i..]) <= |a| - i {
      var s := (a + b)[i..];
      if RefLength(s) > |a| - i {
        RefShape(s, |a| - i);
      }
    }
  }

  /** Expanding texts apart and joining is expanding them joined when the first ends in a
      closing brace. */
  lemma ExpandAfterBrace(a: string, b: string, lookup: Lookup)
    requires a == "" || a[|a| - 1] == '}'
    ensures Expand.Expand(a + b, lookup) == Expand.Expand(a, lookup) + Expand.Expand(b, lookup)
  {
    NoStraddleAfterBrace(a, b);
    TokensConcat(a, b);
    RenderConcat(Tokens(a), Tokens(b), lookup);
  }

  lemma RefEnds(s: string)
    ensures RefLength(s) > 0 ==> '$' in s && '}' in s
  {
    if RefLength(s) > 0 {
      RefShape(s, 0);
      RefShape(s, RefLength(s) - 1);
    }
  }

  /** Half a reference is copied as it is. */
  lemma {:induction false} HalfIsLiteral(s: string, lookup: Lookup)
    requires '}' !in s || '$' !in s
    ensures Expand.Expand(s, lookup) == s
  {
    RefEnds(s);
    if s != "" {
      HalfIsLiteral(s[1..], lookup);
      TokensStep(s);
      hide RefLength;
      assert s == [s[0]] + s[1..];
    }
  }

  lemma ExpandJoined(a: string, b: string, lookup: Lookup)
    requires !Straddles(a, b)
    ensures Expand.Expand(a + b, lookup) == Expand.Expand(a, lookup) + Expand.Expand(b, lookup)
  {
    TokensConcat(a, b);
    RenderConcat(Tokens(a), Tokens(b), lookup);
  }

  /** With every variable set to nothing, a straddling reference tells the two apart. */
  lemma SplitRefShows(before: string, p: string, q: string, after: string, lookup: Lookup)
    requires p != "" && q != "" && RefLength(p + q) == |p + q| && forall name :: lookup(name) == Some("")
    ensures Expand.Expand(before + ((p + q) + after), lookup) != Expand.Expand(before + p, lookup) +
      Expand.Expand(q + after, lookup)
  {
    var ref := p + q;
    forall k | 0 <= k < |ref| ensures (k < |p| ==> p[k] != '}') && (k >= |p| ==> q[k - |p|] != '$') {
      RefShape(ref, k);
    }
    assert '}' !in p && '$' !in q by {
      forall k | 0 <= k < |q| ensures q[k] != '$' {
        assert q[k] == ref[|p| + k];
        RefShape(ref, |p| + k);
      }
    }
    RefShape(ref, 0);
    RefShape(ref, |ref| - 1);
    assert p[0] == '$' && q[|q| - 1] == '}';
    hide RefLength;
    WholeVanishes(ref, lookup);
    HalfIsLiteral(p, lookup);
    HalfIsLiteral(q, lookup);
    hide Expand.Expand;
    NoStraddleBeforeDollar(before, p);
    ExpandJoined(before, p, lookup);
    NoStraddleBeforeDollar(before, ref + after);
    ExpandJoined(before, ref + after, lookup);
    ExpandAfterBrace(q, after, lookup);
    ExpandAfterBrace(ref, after, lookup);
  }

  lemma CutAt(a: string, b: string, i: nat)
    requires i <= |a|
    ensures a == a[..i] + a[i..] && (a + b)[i..] == a[i..] + b
  {
  }

  lemma CutRef(p: string, b: string) returns (q: string, after: string)
    requires RefLength(p + b) > |p|
    ensures b == q + after && q != "" && RefLength(p + q) == |p + q|
  {
    RefFits(p + b);
    hide *;
    var m := RefLength(p + b) - |p|;
    q, after := b[..m], b[m..];
    assert b == q + after;
    assert p + b == (p + q) + after;
    RefWithin(p + q, after);
  }

  /** A straddling reference and what lies around it. */
  lemma StraddleParts(a: string, b: string) returns (before: string, p: string, q: string, after: string)
    requires Straddles(a, b)
    ensures a == before + p && b == q + after && p != "" && q != "" && RefLength(p + q) == |p + q|
  {
    hide RefLength;
    var i :| 0 <= i < |a| && RefLength((a + b)[i..]) > |a| - i;
    CutAt(a, b, i);
    before, p := a[..i], a[i..];
    hide *;
    q, after := CutRef(p, b);
  }

  lemma StraddleShows(a: string, b: string, lookup: Lookup)
    requires Straddles(a, b) && forall name :: lookup(name) == Some("")
    ensures Expand.Expand(a + b, lookup) != Expand.Expand(a, lookup) + Expand.Expand(b, lookup)
  {
    hide *;
    var before, p, q, after := StraddleParts(a, b);
    assert (before + p) + (q + after) == before + ((p + q) + after);
    SplitRefShows(before, p, q, after, lookup);
  }

  lemma RefFits(s: string)
    ensures RefLength(s) <= |s|
  {
  }

  lemma WholeVanishes(ref: string, lookup: Lookup)
    requires RefLength(ref) == |ref| > 0 && forall name :: lookup(name) == Some("")
    ensures Expand.Expand(ref, lookup) == ""
  {
    assert ref[|ref|..] == "";
    assert Tokens(ref) == [Ref(ref[2..|ref| - 1])];
    assert Render([], lookup) == "";
  }

  /** Whatever the lookup, expanding two texts joined is expanding them apart, exactly
      when no reference begins in the first and ends in the second. */
  lemma ExpandConcatExactly(a: string, b: string)
    ensures (forall lookup: Lookup ::
      Expand.Expand(a + b, lookup) == Expand.Expand(a, lookup) + Expand.Expand(b, lookup)) <==> !Straddles(a, b)
  {
    if Straddles(a, b) {
      StraddleShows(a, b, _ => Some(""));
    } else {
      forall lookup: Lookup
        ensures Expand.Expand(a + b, lookup) == Expand.Expand(a, lookup) + Expand.Expand(b, lookup)
      {
        ExpandJoined(a, b, lookup);
      }
    }
  }
}
