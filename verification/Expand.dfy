// ${VAR} expansion: its one-pass token model, which the scanner computes, and exactly
// when expanding two texts joined is expanding them apart.

module Expand {
  import opened Characters
  import opened Identity

  /** A byte of input copied as it is, or a reference to a variable. */
  datatype Token = Lit(c: char) | Ref(name: string)

  type Lookup = string -> Option<string>

  predicate IsNameStart(c: char) {
    c == '_' || 'A' <= c <= 'Z' || 'a' <= c <= 'z'
  }

  predicate IsNamePart(c: char) {
    IsNameStart(c) || '0' <= c <= '9'
  }

  predicate IsName(name: string) {
    name != "" && IsNameStart(name[0]) && forall i :: 1 <= i < |name| ==> IsNamePart(name[i])
  }

  /** A letter or underscore, and letters, digits and underscores after it. */
  predicate SpelledName(name: string) {
    && name != ""
    && name[0] in "ABCDEFGHIJKLMNOPQRSTUVWXYZabcdefghijklmnopqrstuvwxyz" + "_"
    && forall i :: 1 <= i < |name| ==>
         name[i] in "ABCDEFGHIJKLMNOPQRSTUVWXYZabcdefghijklmnopqrstuvwxyz0123456789" + "_"
  }

  lemma NameCharsSpelled(c: char)
    ensures IsNameStart(c) <==> c in "ABCDEFGHIJKLMNOPQRSTUVWXYZabcdefghijklmnopqrstuvwxyz" + "_"
    ensures IsNamePart(c) <==> c in "ABCDEFGHIJKLMNOPQRSTUVWXYZabcdefghijklmnopqrstuvwxyz0123456789" + "_"
  {
    AlphabetSpelled(c, "_");
    AlphanumericSpelled(c, "_");
  }

  lemma NameSpelled(name: string)
    ensures IsName(name) <==> SpelledName(name)
  {
    forall c
      ensures IsNameStart(c) <==> c in "ABCDEFGHIJKLMNOPQRSTUVWXYZabcdefghijklmnopqrstuvwxyz" + "_"
      ensures IsNamePart(c) <==> c in "ABCDEFGHIJKLMNOPQRSTUVWXYZabcdefghijklmnopqrstuvwxyz0123456789" + "_"
    {
      NameCharsSpelled(c);
    }
    hide IsNameStart, IsNamePart;
  }

  /** isValidEnvName. */
  method IsValidEnvName(name: string) returns (valid: bool)
    ensures valid == IsName(name) == SpelledName(name)
  {
    NameSpelled(name);
    hide SpelledName;
    if |name| == 0 {
      return false;
    }
    if !IsNameStart(name[0]) {
      return false;
    }
    for i := 1 to |name|
      invariant forall j :: 1 <= j < i ==> IsNamePart(name[j])
    {
      if !IsNamePart(name[i]) {
        return false;
      }
    }
    return true;
  }

  /** The text of a reference. */
  function RefText(name: string): string {
    "${" + name + "}"
  }

  /** s begins with a reference to name. */
  predicate StartsWithRef(s: string, name: string) {
    IsName(name) && RefText(name) <= s
  }

  /** The first closing brace from i on, or the end. */
  function BraceFrom(s: string, i: nat): (at: nat)
    requires i <= |s|
    ensures i <= at <= |s| && (at < |s| ==> s[at] == '}')
    ensures forall j :: i <= j < at ==> s[j] != '}'
    decreases |s| - i
  {
    if i == |s| || s[i] == '}' then i else BraceFrom(s, i + 1)
  }

  /** The length of the reference s begins with, or 0. */
  function RefLength(s: string): (n: nat)
    ensures n > 0 ==> 4 <= n <= |s| && StartsWithRef(s, s[2..n - 1])
    ensures n == 0 ==> forall name :: !StartsWithRef(s, name)
  {
    if |s| > 2 && s[0] == '$' && s[1] == '{' then
      var end := BraceFrom(s, 2);
      RefEndsAtBrace(s, end);
      if end < |s| && IsName(s[2..end]) then end + 1 else 0
    else
      NotARef(s);
      0
  }

  /** A reference can only end at the first closing brace. */
  lemma RefEndsAtBrace(s: string, end: nat)
    requires |s| > 2 && end == BraceFrom(s, 2)
    ensures forall name :: StartsWithRef(s, name) ==> end < |s| && name == s[2..end]
    ensures end < |s| && s[0] == '$' && s[1] == '{' ==> RefText(s[2..end]) <= s
  {
    forall name | StartsWithRef(s, name) ensures end < |s| && name == s[2..end] {
      NameAtBrace(s, end, name);
    }
    hide *;
    if end < |s| && s[0] == '$' && s[1] == '{' {
      TextAtBrace(s, end);
    }
  }

  lemma NameAtBrace(s: string, end: nat, name: string)
    requires |s| > 2 && end == BraceFrom(s, 2) && StartsWithRef(s, name)
    ensures end < |s| && name == s[2..end]
  {
    var text := RefText(name);
    assert |text| == |name| + 3 && text[|name| + 2] == '}';
    assert forall j :: 0 <= j < |name| ==> name[j] == text[j + 2];
    hide RefText, BraceFrom;
    forall j | 0 <= j < |text| ensures s[j] == text[j] {
    }
    forall j | 2 <= j < |name| + 2 ensures s[j] != '}' {
      assert s[j] == text[j] == name[j - 2];
    }
    assert end == |name| + 2;
    forall j | 0 <= j < |name| ensures s[2..end][j] == name[j] {
      assert s[2..end][j] == s[j + 2];
    }
  }

  lemma TextAtBrace(s: string, end: nat)
    requires 2 <= end < |s| && s[0] == '$' && s[1] == '{' && s[end] == '}'
    ensures RefText(s[2..end]) <= s
  {
    assert s[..2] == "${" && s[end..end + 1] == "}";
    assert s == (s[..2] + s[2..end] + s[end..end + 1]) + s[end + 1..];
  }

  lemma NotARef(s: string)
    requires !(|s| > 2 && s[0] == '$' && s[1] == '{')
    ensures forall name :: !StartsWithRef(s, name)
  {
    forall name ensures !StartsWithRef(s, name) {
      var text := RefText(name);
      assert text[0] == '$' && text[1] == '{' && |text| > 2;
    }
  }

  function Tokens(s: string): seq<Token> {
    if s == "" then []
    else
      var n := RefLength(s);
      if n > 0 then [Ref(s[2..n - 1])] + Tokens(s[n..]) else [Lit(s[0])] + Tokens(s[1..])
  }

  function PrintToken(t: Token): string {
    match t
    case Lit(c) => [c]
    case Ref(name) => RefText(name)
  }

  function Print(tokens: seq<Token>): string {
    if tokens == [] then "" else PrintToken(tokens[0]) + Print(tokens[1..])
  }

  /** A set variable gives its value, an unset one stays as written. */
  function RenderToken(t: Token, lookup: Lookup): string {
    match t
    case Lit(c) => [c]
    case Ref(name) => if lookup(name).Some? then lookup(name).value else RefText(name)
  }

  function Render(tokens: seq<Token>, lookup: Lookup): string {
    if tokens == [] then "" else RenderToken(tokens[0], lookup) + Render(tokens[1..], lookup)
  }

  function Expand(s: string, lookup: Lookup): string {
    Render(Tokens(s), lookup)
  }

  lemma BraceIs(s: string, end: nat)
    requires 2 <= end <= |s| && (end < |s| ==> s[end] == '}') && forall j :: 2 <= j < end ==> s[j] != '}'
    ensures BraceFrom(s, 2) == end
  {
  }

  /** What the scanner finds at i, having looked for the closing brace up to end. */
  lemma RefLengthAt(input: string, i: nat, end: nat)
    requires i + 2 < |input| && input[i] == '$' && input[i + 1] == '{' && end == BraceFrom(input, i + 2)
    ensures RefLength(input[i..]) == if end < |input| && IsName(input[i + 2..end]) then end + 1 - i else 0
    ensures input[i..][2..end - i] == input[i + 2..end]
  {
    var rest := input[i..];
    BraceIs(rest, end - i);
    assert rest[2..end - i] == input[i + 2..end];
    hide IsName, BraceFrom;
  }

  lemma ExpandLit(input: string, i: nat, lookup: Lookup)
    requires i < |input| && RefLength(input[i..]) == 0
    ensures Expand(input[i..], lookup) == [input[i]] + Expand(input[i + 1..], lookup)
  {
    hide RefLength;
    assert input[i..][1..] == input[i + 1..];
    assert Tokens(input[i..])[0] == Lit(input[i]) && Tokens(input[i..])[1..] == Tokens(input[i + 1..]);
    hide Tokens;
  }

  lemma ExpandRef(input: string, i: nat, end: nat, lookup: Lookup)
    requires i + 2 <= end < |input| && RefLength(input[i..]) == end + 1 - i
    requires input[i..][2..end - i] == input[i + 2..end]
    ensures var value := lookup(input[i + 2..end]);
      Expand(input[i..], lookup) == (if value.Some? then value.value else input[i..end + 1]) +
        Expand(input[end + 1..], lookup)
  {
    var rest := input[i..];
    var key := input[i + 2..end];
    assert StartsWithRef(rest, key);
    assert rest[..end + 1 - i] == input[i..end + 1];
    assert RefText(key) == rest[..|RefText(key)|];
    assert RefText(key) == input[i..end + 1];
    hide RefLength, StartsWithRef, RefText;
    assert rest[end + 1 - i..] == input[end + 1..];
    assert Tokens(rest)[0] == Ref(key) && Tokens(rest)[1..] == Tokens(input[end + 1..]);
    hide Tokens;
  }

  /** The loop that looks for the closing brace. */
  method FindBrace(input: string, start: nat) returns (end: nat)
    requires start <= |input|
    ensures end == BraceFrom(input, start)
  {
    end := start;
    while end < |input| && input[end] != '}'
      invariant start <= end <= |input| && BraceFrom(input, start) == BraceFrom(input, end)
    {
      end := end + 1;
    }
  }

  lemma Append(whole: string, done: string, piece: string, rest: string)
    requires whole == done + (piece + rest)
    ensures whole == (done + piece) + rest
  {
  }

  /** One round of the scan: what is written for the input at i, and where it goes on. */
  method ExpandAt(input: string, i: nat, lookup: Lookup) returns (piece: string, next: nat)
    requires i < |input|
    ensures i < next <= |input|
    ensures Expand(input[i..], lookup) == piece + Expand(input[next..], lookup)
  {
    hide *;
    if input[i] == '$' && i + 2 < |input| && input[i + 1] == '{' {
      var end := FindBrace(input, i + 2);
      RefLengthAt(input, i, end);
      if end < |input| {
        var key := input[i + 2..end];
        var valid := IsValidEnvName(key);
        if valid {
          ExpandRef(input, i, end, lookup);
          var value := lookup(key);
          return if value.Some? then value.value else input[i..end + 1], end + 1;
        }
      }
    } else {
      NoRefAt(input, i);
    }
    ExpandLit(input, i, lookup);
    return [input[i]], i + 1;
  }

  /** expandEnvVars: the input as it is without a lookup, its expansion with one. */
  method ExpandEnvVars(input: string, lookup: Option<Lookup>) returns (out: string)
    ensures out == if lookup.None? then input else Expand(input, lookup.value)
  {
    if |input| == 0 {
      return "";
    }
    if lookup.None? {
      return input;
    }
    out := "";
    var i := 0;
    assert input[0..] == input;
    assert Expand(input[|input|..], lookup.value) == "";
    hide *;
    while i < |input|
      invariant 0 <= i <= |input|
      invariant Expand(input, lookup.value) == out + Expand(input[i..], lookup.value)
    {
      var piece, next := ExpandAt(input, i, lookup.value);
      Append(Expand(input, lookup.value), out, piece, Expand(input[next..], lookup.value));
      out := out + piece;
      i := next;
    }
  }

  lemma NoRefAt(input: string, i: nat)
    requires i < |input| && !(input[i] == '$' && i + 2 < |input| && input[i + 1] == '{')
    ensures RefLength(input[i..]) == 0
  {
  }
}
