// The fenced-block parser of the code agent: what every text parses to, and that
// printing the blocks of any text and parsing again gives the same blocks.

module Fences {
  import opened Characters
  import opened Text

  datatype Block = Block(language: string, filename: string, code: string)

  datatype Opening = NotOpening | Opening(language: string, filename: string)

  const FENCE := "```"

  predicate IsLanguageChar(c: char) {
    'a' <= c <= 'z' || 'A' <= c <= 'Z' || '0' <= c <= '9' || c == '_' || c == '+' || c == '-' || c == '.'
  }

  predicate IsLanguage(s: string) {
    s != "" && forall i :: 0 <= i < |s| ==> IsLanguageChar(s[i])
  }

  function Extension(lang: string): string {
    match lang
    case "go" => "go"
    case "python" => "py"
    case "javascript" => "js"
    case "typescript" => "ts"
    case "java" => "java"
    case "rust" => "rs"
    case "c" => "c"
    case "cpp" => "cpp"
    case "html" => "html"
    case "css" => "css"
    case "sql" => "sql"
    case "bash" => "sh"
    case "shell" => "sh"
    case "yaml" => "yaml"
    case "json" => "json"
    case "ruby" => "rb"
    case "php" => "php"
    case "swift" => "swift"
    case "kotlin" => "kt"
    case _ => lang
  }

  /** strings.TrimRight(line, "\r"). */
  function TrimCr(line: string): string {
    if line != "" && line[|line| - 1] == '\r' then TrimCr(line[..|line| - 1]) else line
  }

  /** The first colon from i on, or the end. */
  function ColonFrom(s: string, i: nat): (at: nat)
    requires i <= |s|
    ensures i <= at <= |s| && (at < |s| ==> s[at] == ':')
    ensures forall j :: i <= j < at ==> s[j] != ':'
    decreases |s| - i
  {
    if i == |s| || s[i] == ':' then i else ColonFrom(s, i + 1)
  }

  /** parseFenceOpenMeta: the language up to the first colon, the filename after it. */
  function ParseOpening(line: string): Opening {
    var trimmed := TrimSpace(line);
    if !(FENCE <= trimmed) then NotOpening
    else
      var header := TrimSpace(trimmed[|FENCE|..]);
      if header == "" then NotOpening
      else
        var colon := ColonFrom(header, 0);
        var lang := TrimSpace(header[..colon]);
        if !IsLanguage(lang) then NotOpening
        else Opening.Opening(lang, if colon < |header| then TrimSpace(header[colon + 1..]) else "")
  }

  predicate IsClosing(line: string) {
    TrimSpace(line) == FENCE
  }

  function MakeBlock(opening: Opening, code: seq<string>): Block
    requires opening.Opening?
  {
    Block(opening.language,
          if opening.filename == "" then "untitled." + Extension(opening.language) else opening.filename,
          TrimSpace(Join(code)))
  }

  // ------------------------------------------------------- what a fence is
  /** The part before the first colon and the part after it; nothing after it if there is no
      colon. */
  ghost predicate SplitsAtColon(s: string, front: string, back: string) {
    ':' !in front && (s == front + ":" + back || (s == front && back == ""))
  }

  /** What a header names: trimmed, the part before its first colon and the part after it. */
  ghost predicate Names(header: string, lang: string, filename: string) {
    exists front, back ::
      SplitsAtColon(header, front, back) && TrimSpace(front) == lang && TrimSpace(back) == filename
  }

  /** A line opens a fence if, trimmed, it is three backticks and a header whose trimmed part
      before the first colon is a language; the filename is the trimmed part after it. */
  ghost predicate Opens(line: string, lang: string, filename: string) {
    && lang != ""
    && (forall c :: c in lang ==> c in "ABCDEFGHIJKLMNOPQRSTUVWXYZabcdefghijklmnopqrstuvwxyz0123456789" + "_+-.")
    && exists rest :: TrimSpace(line) == "```" + rest && Names(TrimSpace(rest), lang, filename)
  }

  lemma LanguageCharsExactly(c: char)
    ensures IsLanguageChar(c) <==> c in "ABCDEFGHIJKLMNOPQRSTUVWXYZabcdefghijklmnopqrstuvwxyz0123456789" + "_+-."
  {
    AlphanumericSpelled(c, "_+-.");
  }

  lemma LanguageExactly(s: string)
    ensures IsLanguage(s) <==>
      s != "" && forall c :: c in s ==> c in "ABCDEFGHIJKLMNOPQRSTUVWXYZabcdefghijklmnopqrstuvwxyz0123456789" + "_+-."
  {
    forall c ensures
      IsLanguageChar(c) <==> c in "ABCDEFGHIJKLMNOPQRSTUVWXYZabcdefghijklmnopqrstuvwxyz0123456789" + "_+-."
    {
      LanguageCharsExactly(c);
    }
    hide IsLanguageChar;
  }

  lemma ColonSplits(s: string)
    ensures var colon := ColonFrom(s, 0);
      SplitsAtColon(s, s[..colon], if colon < |s| then s[colon + 1..] else "")
  {
    hide *;
    var colon := ColonFrom(s, 0);
    NoneBefore(s, colon);
    if colon < |s| {
      CutAround(s, colon);
      SplitsBy(s, s[..colon], s[colon + 1..]);
    } else {
      assert s[..colon] == s;
      SplitsBy(s, s[..colon], "");
    }
  }

  lemma NoneBefore(s: string, n: nat)
    requires n <= |s| && forall j :: 0 <= j < n ==> s[j] != ':'
    ensures ':' !in s[..n]
  {
  }

  lemma CutAround(s: string, i: nat)
    requires i < |s| && s[i] == ':'
    ensures s == s[..i] + ":" + s[i + 1..]
  {
  }

  lemma SplitsBy(s: string, front: string, back: string)
    requires ':' !in front && (s == front + ":" + back || (s == front && back == ""))
    ensures SplitsAtColon(s, front, back)
  {
  }

  lemma SplitsOnce(s: string, front: string, back: string)
    requires SplitsAtColon(s, front, back)
    ensures var colon := ColonFrom(s, 0);
      front == s[..colon] && back == if colon < |s| then s[colon + 1..] else ""
  {
    if s == front + ":" + back {
      assert s[|front|] == ':' && s[..|front|] == front && s[|front| + 1..] == back;
      assert forall i :: 0 <= i < |front| ==> s[i] == front[i];
    } else {
      assert s[..|s|] == front;
    }
  }

  lemma NamesExactly(header: string, lang: string, filename: string)
    ensures var colon := ColonFrom(header, 0);
      Names(header, lang, filename) <==>
        && lang == TrimSpace(header[..colon])
        && filename == TrimSpace(if colon < |header| then header[colon + 1..] else "")
  {
    hide ColonFrom, TrimSpace;
    ColonSplits(header);
    forall front, back | SplitsAtColon(header, front, back)
      ensures var colon := ColonFrom(header, 0);
        front == header[..colon] && back == if colon < |header| then header[colon + 1..] else ""
    {
      SplitsOnce(header, front, back);
    }
    hide SplitsAtColon;
  }

  /** Which lines open a fence, and for which language and file. */
  lemma OpeningExactly(line: string, lang: string, filename: string)
    ensures ParseOpening(line) == Opening.Opening(lang, filename) <==> Opens(line, lang, filename)
  {
    var trimmed := TrimSpace(line);
    LanguageExactly(lang);
    assert TrimSpace("") == "" by { TrimSpaceExactly(""); }
    hide IsLanguage, TrimSpace, ColonFrom, Names;
    if FENCE <= trimmed {
      var rest := trimmed[|FENCE|..];
      assert trimmed == "```" + rest;
      assert forall r :: trimmed == "```" + r ==> r == trimmed[3..];
      NamesExactly(TrimSpace(rest), lang, filename);
    }
  }

  ghost predicate OpensSome(line: string) {
    exists lang, filename :: Opens(line, lang, filename)
  }

  lemma OpeningsExactly(line: string)
    ensures ParseOpening(line).Opening? <==> OpensSome(line)
  {
    hide ParseOpening, Opens;
    var opening := ParseOpening(line);
    if opening.Opening? {
      OpeningExactly(line, opening.language, opening.filename);
    } else if OpensSome(line) {
      var lang, filename :| Opens(line, lang, filename);
      OpeningExactly(line, lang, filename);
    }
  }

  // --------------------------------------------------------------- the scanner

  function Outside(lines: seq<string>, i: nat): seq<Block>
    requires i <= |lines|
    decreases |lines| - i
  {
    if i == |lines| then []
    else
      var opening := ParseOpening(TrimCr(lines[i]));
      if opening.NotOpening? then Outside(lines, i + 1) else Inside(lines, i + 1, opening, [])
  }

  function Inside(lines: seq<string>, i: nat, opening: Opening, code: seq<string>): seq<Block>
    requires i <= |lines| && opening.Opening?
    decreases |lines| - i
  {
    if i == |lines| then []
    else
      var line := TrimCr(lines[i]);
      if IsClosing(line) then [MakeBlock(opening, code)] + Outside(lines, i + 1)
      else Inside(lines, i + 1, opening, code + [line])
  }

  function Parse(text: string): seq<Block> {
    Outside(Lines(text), 0)
  }

  /** parseCodeBlocks computes Parse. */
  method ParseCodeBlocks(text: string) returns (blocks: seq<Block>)
    ensures blocks == Parse(text)
  {
    hide ParseOpening, IsClosing, Extension, TrimCr, Lines, Join, TrimSpace, IsLanguage;
    blocks := [];
    var lines := Lines(text);
    var inBlock, lang, filename := false, "", "";
    var codeLines: seq<string> := [];
    for i := 0 to |lines|
      invariant inBlock ==> Parse(text) == blocks + Inside(lines, i, Opening.Opening(lang, filename), codeLines)
      invariant !inBlock ==> Parse(text) == blocks + Outside(lines, i)
    {
      var line := TrimCr(lines[i]);
      if !inBlock {
        var meta := ParseOpening(line);
        if meta.NotOpening? {
          continue;
        }
        lang, filename := meta.language, meta.filename;
        codeLines := [];
        inBlock := true;
        continue;
      }
      if IsClosing(line) {
        var code := TrimSpace(Join(codeLines));
        if filename == "" {
          filename := "untitled." + Extension(lang);
        }
        blocks := blocks + [Block(lang, filename, code)];
        inBlock, lang, filename := false, "", "";
        codeLines := [];
        continue;
      }
      codeLines := codeLines + [line];
    }
  }

  // --------------------------------------------- every text is such a document

  /** A line outside all fences, or a fence: its opening line, its body and its closing
      line. */
  datatype Piece = Noise(line: string) | Fence(open: string, body: seq<string>, close: string)

  predicate IsBody(body: seq<string>) {
    forall i :: 0 <= i < |body| ==> !IsClosing(TrimCr(body[i]))
  }

  predicate IsPiece(piece: Piece) {
    match piece
    case Noise(line) => ParseOpening(TrimCr(line)).NotOpening?
    case Fence(open, body, close) => ParseOpening(TrimCr(open)).Opening? && IsBody(body) && IsClosing(TrimCr(close))
  }

  predicate ArePieces(pieces: seq<Piece>) {
    forall i :: 0 <= i < |pieces| ==> IsPiece(pieces[i])
  }

  /** What may follow the last piece: nothing, or a fence that is never closed. */
  predicate IsTail(tail: seq<string>) {
    tail == [] || (ParseOpening(TrimCr(tail[0])).Opening? && IsBody(tail[1..]))
  }

  function PieceLines(piece: Piece): seq<string> {
    match piece
    case Noise(line) => [line]
    case Fence(open, body, close) => [open] + (body + [close])
  }

  function DocLines(pieces: seq<Piece>, tail: seq<string>): seq<string> {
    if pieces == [] then tail else PieceLines(pieces[0]) + DocLines(pieces[1..], tail)
  }

  function TrimAll(lines: seq<string>): seq<string> {
    seq(|lines|, i requires 0 <= i < |lines| => TrimCr(lines[i]))
  }

  function BlocksOf(piece: Piece): seq<Block>
    requires IsPiece(piece)
  {
    match piece
    case Noise(_) => []
    case Fence(open, body, _) => [MakeBlock(ParseOpening(TrimCr(open)), TrimAll(body))]
  }

  function FenceBlocks(pieces: seq<Piece>): seq<Block>
    requires ArePieces(pieces)
  {
    if pieces == [] then [] else BlocksOf(pieces[0]) + FenceBlocks(pieces[1..])
  }

  /** Which lines stand for themselves: a line that opens no fence is noise, and a fence is a
      line that opens one, lines that are not three backticks, and a line that is. */
  lemma PieceExactly(piece: Piece)
    ensures IsPiece(piece) <==>
      if piece.Noise? then !OpensSome(TrimCr(piece.line))
      else
        && OpensSome(TrimCr(piece.open))
        && (forall line :: line in piece.body ==> TrimSpace(TrimCr(line)) != "```")
        && TrimSpace(TrimCr(piece.close)) == "```"
  {
    OpeningsExactly(TrimCr(if piece.Noise? then piece.line else piece.open));
    if piece.Fence? {
      BodyExactly(piece.body);
    }
    hide ParseOpening, OpensSome, TrimSpace, TrimCr, IsBody;
  }

  lemma BodyExactly(body: seq<string>)
    ensures IsBody(body) <==> forall line :: line in body ==> TrimSpace(TrimCr(line)) != "```"
  {
    hide TrimSpace, TrimCr;
    forall i | 0 <= i < |body| && IsClosing(TrimCr(body[i]))
      ensures body[i] in body && TrimSpace(TrimCr(body[i])) == "```"
    {
    }
  }

  /** The file extensions of the known languages. */
  lemma ExtensionsExactly(lang: string)
    ensures var table := map[
      "go" := "go", "python" := "py", "javascript" := "js", "typescript" := "ts", "java" := "java", "rust" := "rs",
      "c" := "c", "cpp" := "cpp", "html" := "html", "css" := "css", "sql" := "sql", "bash" := "sh", "shell" := "sh",
      "yaml" := "yaml", "json" := "json", "ruby" := "rb", "php" := "php", "swift" := "swift", "kotlin" := "kt"];
      Extension(lang) == if lang in table then table[lang] else lang
  {
  }

  /** The block of a fence has the language and the filename of its opening line, a fence
      without a filename being called untitled with the extension of its language; its code
      is the body, joined by newlines and trimmed on both sides. */
  lemma FenceGivesBlock(open: string, body: seq<string>, close: string, lang: string, filename: string)
    requires IsPiece(Fence(open, body, close)) && Opens(TrimCr(open), lang, filename)
    ensures var name := if filename == "" then "untitled." + Extension(lang) else filename;
      BlocksOf(Fence(open, body, close)) == [Block(lang, name, TrimSpace(Join(TrimAll(body))))]
  {
    OpeningExactly(TrimCr(open), lang, filename);
    hide ParseOpening, Opens, TrimSpace, TrimCr, Extension, Join;
  }

  /** Only carriage returns are taken off, and only at the end of the line. */
  lemma {:induction false} TrimCrMeans(line: string)
    ensures TrimCr(line) <= line && (TrimCr(line) != "" ==> TrimCr(line)[|TrimCr(line)| - 1] != '\r')
    ensures forall i :: |TrimCr(line)| <= i < |line| ==> line[i] == '\r'
  {
    if line != "" && line[|line| - 1] == '\r' {
      TrimCrMeans(line[..|line| - 1]);
    }
  }

  /** A body is read line by line up to where it ends. */
  lemma {:induction false} ReadsBody(lines: seq<string>, i: nat, n: nat, opening: Opening, code: seq<string>)
    requires i + n <= |lines| && opening.Opening? && IsBody(lines[i..i + n])
    ensures Inside(lines, i, opening, code) == Inside(lines, i + n, opening, code + TrimAll(lines[i..i + n]))
    decreases n
  {
    var body := lines[i..i + n];
    if n == 0 {
      assert code + TrimAll(body) == code;
    } else {
      assert body[0] == lines[i] && lines[i + 1..i + n] == body[1..];
      ReadsBody(lines, i + 1, n - 1, opening, code + [TrimCr(lines[i])]);
      assert code + [TrimCr(lines[i])] + TrimAll(body[1..]) == code + TrimAll(body);
    }
  }

  lemma ReadsTail(lines: seq<string>, i: nat, tail: seq<string>)
    requires i <= |lines| && IsTail(tail) && lines[i..] == tail
    ensures Outside(lines, i) == []
  {
    if tail != [] {
      assert lines[i] == tail[0] && lines[i + 1..i + 1 + (|tail| - 1)] == tail[1..];
      hide TrimCr, ParseOpening, MakeBlock;
      ReadsBody(lines, i + 1, |tail| - 1, ParseOpening(TrimCr(tail[0])), []);
    }
  }

  lemma {:induction false} ReadsPieces(lines: seq<string>, i: nat, pieces: seq<Piece>, tail: seq<string>)
    requires i <= |lines| && ArePieces(pieces) && IsTail(tail) && lines[i..] == DocLines(pieces, tail)
    ensures Outside(lines, i) == FenceBlocks(pieces)
    decreases |pieces|
  {
    if pieces == [] {
      hide *;
      ReadsTail(lines, i, tail);
      assert FenceBlocks([]) == [] by { NoPieces(); }
    } else {
      var here, rest := PieceLines(pieces[0]), DocLines(pieces[1..], tail);
      assert lines[i..] == here + rest && IsPiece(pieces[0]) && ArePieces(pieces[1..]);
      hide *;
      CutAt(lines, i, here, rest);
      ReadsPieces(lines, i + |here|, pieces[1..], tail);
      ReadsPiece(lines, i, pieces[0]);
      assert FenceBlocks(pieces) == BlocksOf(pieces[0]) + FenceBlocks(pieces[1..]) by { OnePiece(pieces); }
    }
  }

  lemma NoPieces()
    ensures FenceBlocks([]) == []
  {
  }

  lemma OnePiece(pieces: seq<Piece>)
    requires ArePieces(pieces) && pieces != []
    ensures FenceBlocks(pieces) == BlocksOf(pieces[0]) + FenceBlocks(pieces[1..])
  {
    hide BlocksOf;
  }

  lemma CutAt(lines: seq<string>, i: nat, here: seq<string>, rest: seq<string>)
    requires i <= |lines| && lines[i..] == here + rest
    ensures i + |here| <= |lines| && lines[i..i + |here|] == here && lines[i + |here|..] == rest
  {
    assert lines[i..][..|here|] == here && lines[i..][|here|..] == rest;
  }

  lemma ReadsPiece(lines: seq<string>, i: nat, piece: Piece)
    requires i + |PieceLines(piece)| <= |lines| && lines[i..i + |PieceLines(piece)|] == PieceLines(piece)
    requires IsPiece(piece)
    ensures Outside(lines, i) == BlocksOf(piece) + Outside(lines, i + |PieceLines(piece)|)
  {
    hide TrimCr, ParseOpening, MakeBlock, IsBody, IsClosing;
    match piece
    case Noise(line) =>
      assert lines[i] == lines[i..i + 1][0];
      assert [] + Outside(lines, i + 1) == Outside(lines, i + 1);
    case Fence(open, body, close) =>
      hide Outside;
      ReadsFence(lines, i, open, body, close);
  }

  lemma Within(lines: seq<string>, i: nat, m: nat, n: nat)
    requires i + m <= |lines| && 1 + n <= m
    ensures lines[i..i + m][1..1 + n] == lines[i + 1..i + 1 + n]
  {
    var window := lines[i..i + m];
    var inner, same := window[1..1 + n], lines[i + 1..i + 1 + n];
    forall k | 0 <= k < n ensures inner[k] == same[k] {
      assert inner[k] == window[1 + k] == lines[i + (1 + k)];
    }
  }

  /** The lines of a fence among the lines of the text. */
  lemma FenceLines(lines: seq<string>, i: nat, open: string, body: seq<string>, close: string)
    requires i + |body| + 2 <= |lines| && lines[i..i + (|body| + 2)] == [open] + (body + [close])
    ensures lines[i] == open && lines[i + 1..i + 1 + |body|] == body && lines[i + 1 + |body|] == close
  {
    var window := lines[i..i + (|body| + 2)];
    var n := |body|;
    assert lines[i] == window[0] && lines[i + 1 + n] == window[1 + n];
    assert window[1..1 + n] == body;
    Within(lines, i, n + 2, n);
  }

  lemma ReadsFence(lines: seq<string>, i: nat, open: string, body: seq<string>, close: string)
    requires i + |body| + 2 <= |lines| && lines[i..i + (|body| + 2)] == [open] + (body + [close])
    requires IsPiece(Fence(open, body, close))
    ensures Outside(lines, i) == BlocksOf(Fence(open, body, close)) + Outside(lines, i + (|body| + 2))
  {
    hide TrimCr, ParseOpening, MakeBlock, IsBody;
    FenceLines(lines, i, open, body, close);
    ReadsBody(lines, i + 1, |body|, ParseOpening(TrimCr(open)), []);
    assert [] + TrimAll(body) == TrimAll(body);
    hide TrimAll;
  }

  /** A line that opens a fence, and the lines after it: the fence and a rest, or a tail. */
  lemma TakeFence(lines: seq<string>) returns (closed: bool, piece: Piece, rest: seq<string>)
    requires lines != [] && ParseOpening(TrimCr(lines[0])).Opening?
    ensures closed ==> IsPiece(piece) && lines == PieceLines(piece) + rest && |rest| < |lines|
    ensures !closed ==> IsTail(lines)
  {
    hide TrimCr, ParseOpening, IsClosing, IsBody;
    var n := BodyLength(lines[1..]);
    if n + 1 == |lines| {
      assert lines[1..][..n] == lines[1..];
      return false, Noise(lines[0]), [];
    }
    assert lines[1..][n] == lines[n + 1];
    closed, piece, rest := true, Fence(lines[0], lines[1..][..n], lines[n + 1]), lines[n + 2..];
    CutFence(lines, n);
  }

  lemma CutFence(lines: seq<string>, n: nat)
    requires n + 1 < |lines|
    ensures lines == [lines[0]] + (lines[1..][..n] + [lines[n + 1]]) + lines[n + 2..]
  {
  }

  lemma TakeNoise(lines: seq<string>)
    requires lines != [] && ParseOpening(TrimCr(lines[0])).NotOpening?
    ensures IsPiece(Noise(lines[0])) && lines == PieceLines(Noise(lines[0])) + lines[1..]
  {
    hide TrimCr, ParseOpening;
  }

  /** Every list of lines is a document in this sense. */
  lemma {:induction false} IsDocument(lines: seq<string>) returns (pieces: seq<Piece>, tail: seq<string>)
    ensures ArePieces(pieces) && IsTail(tail) && lines == DocLines(pieces, tail)
    decreases |lines|, 1
  {
    if lines == [] {
      return [], [];
    }
    hide *;
    if ParseOpening(TrimCr(lines[0])).NotOpening? {
      TakeNoise(lines);
      pieces, tail := DocumentFrom(lines, Noise(lines[0]), lines[1..]);
    } else {
      var closed, piece, rest := TakeFence(lines);
      if closed {
        pieces, tail := DocumentFrom(lines, piece, rest);
      } else {
        NoPiecesYet(lines);
        pieces, tail := [], lines;
      }
    }
  }

  lemma NoPiecesYet(tail: seq<string>)
    ensures ArePieces([]) && DocLines([], tail) == tail
  {
  }

  lemma {:induction false} DocumentFrom(lines: seq<string>, piece: Piece, rest: seq<string>)
    returns (pieces: seq<Piece>, tail: seq<string>)
    requires IsPiece(piece) && lines == PieceLines(piece) + rest && |rest| < |lines|
    ensures ArePieces(pieces) && IsTail(tail) && lines == DocLines(pieces, tail)
    decreases |lines|, 0
  {
    hide *;
    var more;
    more, tail := IsDocument(rest);
    pieces := OnePieceMore(piece, more, tail);
  }

  lemma OnePieceMore(piece: Piece, more: seq<Piece>, tail: seq<string>) returns (pieces: seq<Piece>)
    requires IsPiece(piece) && ArePieces(more)
    ensures ArePieces(pieces) && DocLines(pieces, tail) == PieceLines(piece) + DocLines(more, tail)
  {
    hide IsPiece;
    pieces := [piece] + more;
    assert pieces[1..] == more;
  }

  function BodyLength(lines: seq<string>): (n: nat)
    ensures n <= |lines| && IsBody(lines[..n])
    ensures n < |lines| ==> IsClosing(TrimCr(lines[n]))
  {
    if lines == [] || IsClosing(TrimCr(lines[0])) then 0
    else
      assert forall i :: 1 <= i < 1 + BodyLength(lines[1..]) ==>
        lines[i] == lines[1..][..BodyLength(lines[1..])][i - 1];
      1 + BodyLength(lines[1..])
  }

  /** A document parses to the blocks of its fences, in order: noise and an unclosed fence
      at the end leave no trace. */
  lemma DocumentParses(text: string, pieces: seq<Piece>, tail: seq<string>)
    requires ArePieces(pieces) && IsTail(tail) && Lines(text) == DocLines(pieces, tail)
    ensures Parse(text) == FenceBlocks(pieces)
  {
    assert Lines(text)[0..] == Lines(text);
    ReadsPieces(Lines(text), 0, pieces, tail);
  }
}
