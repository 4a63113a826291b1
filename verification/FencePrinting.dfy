// Printing fenced blocks and parsing them again.

module FencePrinting {
  import opened Text
  import opened Fences

  /** "```lang:filename", the code, "```". */
  function PrintBlock(b: Block): string {
    FENCE + b.language + ":" + b.filename + "\n" + (b.code + "\n" + FENCE)
  }

  function Print(blocks: seq<Block>): string {
    if blocks == [] then ""
    else if |blocks| == 1 then PrintBlock(blocks[0])
    else PrintBlock(blocks[0]) + "\n" + Print(blocks[1..])
  }

  /** Lines a body may have once trimmed: none closes the fence, and none but the last
      ends in a carriage return. */
  predicate IsCode(lines: seq<string>) {
    && (forall i :: 0 <= i < |lines| ==> TrimSpace(lines[i]) != FENCE)
    && (forall i :: 0 <= i < |lines| - 1 ==> TrimCr(lines[i]) == lines[i])
  }

  /** The blocks that parsing can give. */
  predicate Canonical(b: Block) {
    && IsLanguage(b.language)
    && b.filename != "" && IsTrimmed(b.filename) && '\n' !in b.filename
    && IsTrimmed(b.code) && IsCode(Lines(b.code))
  }

  predicate AllCanonical(blocks: seq<Block>) {
    forall i :: 0 <= i < |blocks| ==> Canonical(blocks[i])
  }

  // ------------------------------------------------ parsing gives such blocks

  lemma {:induction false} TrimCrStable(line: string)
    ensures TrimCr(TrimCr(line)) == TrimCr(line)
    ensures '\n' !in line ==> '\n' !in TrimCr(line)
  {
    if line != "" && line[|line| - 1] == '\r' {
      TrimCrStable(line[..|line| - 1]);
    }
  }

  lemma {:induction false} TrimCrTrimmed(line: string)
    requires IsTrimmed(line)
    ensures TrimCr(line) == line
  {
  }

  lemma {:induction false} TrimLeftPart(s: string)
    ensures forall c :: c in TrimLeft(s) ==> c in s
  {
    if s != "" && IsSpace(s[0]) {
      TrimLeftPart(s[1..]);
    }
  }

  lemma {:induction false} TrimRightPart(s: string)
    ensures forall c :: c in TrimRight(s) ==> c in s
  {
    if s != "" && IsSpace(s[|s| - 1]) {
      TrimRightPart(s[..|s| - 1]);
    }
  }

  lemma TrimSpacePart(s: string)
    ensures forall c :: c in TrimSpace(s) ==> c in s
  {
    TrimLeftPart(s);
    TrimRightPart(TrimLeft(s));
  }

  /** Dropping white space at the front leaves code lines code lines. */
  lemma DropFront(c: char, lines: seq<string>)
    requires IsSpace(c) && |lines| >= 1 && IsCode(Before(c, lines))
    ensures IsCode(lines)
  {
    var more := Before(c, lines);
    TrimSpaceAround(lines[0], c);
    hide TrimSpace, TrimCr, IsSpace;
    if c == '\n' {
      assert forall i :: 0 <= i < |lines| ==> lines[i] == more[i + 1];
    } else {
      assert more[0] == [c] + lines[0];
      assert forall i :: 1 <= i < |lines| ==> lines[i] == more[i];
      if |lines| > 1 {
        FrontCr(c, lines[0]);
      }
    }
  }

  lemma {:induction false} FrontCr(c: char, line: string)
    requires TrimCr([c] + line) == [c] + line
    ensures TrimCr(line) == line
  {
    TrimCrShorter([c] + line);
    if line != "" {
      assert ([c] + line)[|line|] == line[|line| - 1];
    }
  }

  lemma {:induction false} TrimCrShorter(line: string)
    ensures |TrimCr(line)| <= |line|
    ensures line != "" && line[|line| - 1] == '\r' ==> |TrimCr(line)| < |line|
  {
    if line != "" && line[|line| - 1] == '\r' {
      TrimCrShorter(line[..|line| - 1]);
    }
  }

  lemma DropBack(lines: seq<string>, c: char)
    requires IsSpace(c) && |lines| >= 1 && IsCode(Behind(lines, c))
    ensures IsCode(lines)
  {
    var more := Behind(lines, c);
    var n := |lines| - 1;
    TrimSpaceAround(lines[n], c);
    hide TrimSpace, TrimCr, IsSpace;
    if c == '\n' {
      assert forall i :: 0 <= i < |lines| ==> lines[i] == more[i];
    } else {
      assert more[n] == lines[n] + [c];
      assert forall i :: 0 <= i < n ==> lines[i] == more[i];
    }
  }

  lemma {:induction false} TrimLeftCode(s: string)
    requires IsCode(Lines(s))
    ensures IsCode(Lines(TrimLeft(s)))
  {
    hide IsCode;
    if s != "" && IsSpace(s[0]) {
      DropFront(s[0], Lines(s[1..]));
      TrimLeftCode(s[1..]);
    }
  }

  lemma {:induction false} TrimRightCode(s: string)
    requires IsCode(Lines(s))
    ensures IsCode(Lines(TrimRight(s)))
  {
    hide IsCode, Lines;
    if s != "" && IsSpace(s[|s| - 1]) {
      assert s == s[..|s| - 1] + [s[|s| - 1]];
      LinesPush(s[..|s| - 1], s[|s| - 1]);
      DropBack(Lines(s[..|s| - 1]), s[|s| - 1]);
      TrimRightCode(s[..|s| - 1]);
    }
  }

  lemma BodyIsCode(body: seq<string>)
    requires IsBody(body) && forall i :: 0 <= i < |body| ==> '\n' !in body[i]
    ensures IsCode(Lines(Join(TrimAll(body))))
  {
    var code := TrimAll(body);
    forall i | 0 <= i < |code| ensures TrimCr(code[i]) == code[i] && '\n' !in code[i] && TrimSpace(code[i]) != FENCE {
      TrimCrStable(body[i]);
      assert !IsClosing(TrimCr(body[i]));
    }
    hide TrimCr, TrimSpace;
    if code == [] {
      assert Lines(Join(code)) == [""];
      TrimEmpty();
    } else {
      LinesOfJoin(code);
    }
  }

  lemma TrimEmpty()
    ensures TrimSpace("") == "" != FENCE && TrimCr("") == ""
  {
  }

  lemma ExtensionIsLanguage(lang: string)
    requires IsLanguage(lang)
    ensures IsLanguage(Extension(lang))
  {
  }

  lemma LanguageTrimmed(s: string)
    requires IsLanguage(s)
    ensures IsTrimmed(s) && '\n' !in s && ColonFrom(s, 0) == |s|
  {
  }

  lemma OpeningCanonical(line: string, code: seq<string>)
    requires '\n' !in line && ParseOpening(line).Opening?
    ensures var b := MakeBlock(ParseOpening(line), code);
      IsLanguage(b.language) && b.filename != "" && IsTrimmed(b.filename) && '\n' !in b.filename
  {
    var opening := ParseOpening(line);
    var trimmed := TrimSpace(line);
    var header := TrimSpace(trimmed[|FENCE|..]);
    var colon := ColonFrom(header, 0);
    TrimSpacePart(line);
    assert '\n' !in trimmed[|FENCE|..];
    TrimSpacePart(trimmed[|FENCE|..]);
    if opening.filename == "" {
      var name := "untitled." + Extension(opening.language);
      ExtensionIsLanguage(opening.language);
      hide Extension, ParseOpening, TrimSpace;
      assert name[|name| - 1] == Extension(opening.language)[|Extension(opening.language)| - 1];
    } else {
      assert '\n' !in header[colon + 1..];
      TrimSpacePart(header[colon + 1..]);
      TrimSpaceExactly(header[colon + 1..]);
    }
  }

  lemma FenceCanonical(open: string, body: seq<string>, close: string)
    requires IsPiece(Fence(open, body, close)) && '\n' !in open && forall i :: 0 <= i < |body| ==> '\n' !in body[i]
    ensures Canonical(MakeBlock(ParseOpening(TrimCr(open)), TrimAll(body)))
  {
    TrimCrStable(open);
    OpeningCanonical(TrimCr(open), TrimAll(body));
    BodyIsCode(body);
    var text := Join(TrimAll(body));
    TrimLeftCode(text);
    TrimRightCode(TrimLeft(text));
    TrimSpaceExactly(text);
    hide ParseOpening, IsLanguage, Lines, Join, IsCode, TrimCr, IsTrimmed;
  }

  lemma {:induction false} DocumentCanonical(pieces: seq<Piece>, tail: seq<string>)
    requires ArePieces(pieces) && forall line :: line in DocLines(pieces, tail) ==> '\n' !in line
    ensures AllCanonical(FenceBlocks(pieces))
    decreases |pieces|
  {
    hide IsPiece, Canonical, MakeBlock, ParseOpening;
    if pieces != [] {
      DocumentCanonical(pieces[1..], tail);
      PieceCanonical(pieces[0]);
    }
  }

  lemma PieceCanonical(piece: Piece)
    requires IsPiece(piece) && forall line :: line in PieceLines(piece) ==> '\n' !in line
    ensures AllCanonical(BlocksOf(piece))
  {
    hide Canonical, MakeBlock, ParseOpening, IsPiece;
    if piece.Fence? {
      assert piece.open in PieceLines(piece);
      forall i | 0 <= i < |piece.body| ensures '\n' !in piece.body[i] {
        assert PieceLines(piece)[i + 1] == piece.body[i];
      }
      FenceCanonical(piece.open, piece.body, piece.close);
    }
  }

  lemma ParseCanonical(text: string)
    ensures AllCanonical(Parse(text))
  {
    var pieces, tail := IsDocument(Lines(text));
    DocumentParses(text, pieces, tail);
    hide AllCanonical, FenceBlocks, Parse;
    DocumentCanonical(pieces, tail);
  }

  // ----------------------------------------------- and gives them back printed

  function Header(b: Block): string {
    b.language + ":" + b.filename
  }

  function FenceOf(b: Block): Piece {
    Fence(FENCE + Header(b), Lines(b.code), FENCE)
  }

  function FencesOf(blocks: seq<Block>): seq<Piece> {
    seq(|blocks|, i requires 0 <= i < |blocks| => FenceOf(blocks[i]))
  }

  lemma {:induction false} LastLine(text: string)
    ensures var last := Lines(text)[|Lines(text)| - 1];
      last == "" || (text != "" && last[|last| - 1] == text[|text| - 1])
  {
    if text != "" {
      var front, c := text[..|text| - 1], text[|text| - 1];
      assert text == front + [c];
      LinesPush(front, c);
      hide Lines;
    }
  }

  lemma HeaderTrimmed(b: Block)
    requires IsLanguage(b.language) && b.filename != "" && IsTrimmed(b.filename)
    ensures TrimSpace(Header(b)) == Header(b) && TrimSpace(FENCE + Header(b)) == FENCE + Header(b)
    ensures TrimCr(FENCE + Header(b)) == FENCE + Header(b)
  {
    var header := Header(b);
    var line := FENCE + header;
    assert header[0] == b.language[0] && header[|header| - 1] == b.filename[|b.filename| - 1];
    assert line[|line| - 1] == header[|header| - 1];
    TrimSpaceExactly(header);
    TrimSpaceExactly(line);
    TrimCrTrimmed(line);
    hide TrimSpace, TrimCr, Header;
  }

  lemma HeaderSplits(b: Block)
    requires IsLanguage(b.language)
    ensures var header, colon := Header(b), ColonFrom(Header(b), 0);
      colon == |b.language| && header[..colon] == b.language && colon < |header| && header[colon + 1..] == b.filename
  {
    var header := Header(b);
    assert header[|b.language|] == ':';
    forall i | 0 <= i < |b.language| ensures header[i] != ':' {
      assert header[i] == b.language[i];
    }
  }

  lemma HeaderOpens(b: Block)
    requires IsLanguage(b.language) && b.filename != "" && IsTrimmed(b.filename)
    ensures ParseOpening(FENCE + Header(b)) == Opening.Opening(b.language, b.filename)
  {
    HeaderTrimmed(b);
    HeaderSplits(b);
    LanguageTrimmed(b.language);
    TrimSpaceExactly(b.language);
    TrimSpaceExactly(b.filename);
    assert (FENCE + Header(b))[|FENCE|..] == Header(b);
    assert Header(b) != "";
    hide TrimSpace, TrimCr, Header, IsLanguage, ColonFrom, IsTrimmed;
  }

  lemma CodeReads(b: Block)
    requires IsTrimmed(b.code) && IsCode(Lines(b.code))
    ensures IsBody(Lines(b.code)) && TrimAll(Lines(b.code)) == Lines(b.code)
  {
    var lines := Lines(b.code);
    LastLine(b.code);
    forall i | 0 <= i < |lines| ensures TrimCr(lines[i]) == lines[i] {
    }
    hide Lines, TrimSpace, TrimCr;
  }

  lemma FenceCloses()
    ensures TrimCr(FENCE) == FENCE && IsClosing(FENCE)
  {
    TrimSpaceExactly(FENCE);
  }

  lemma BlockReadsBack(b: Block)
    requires Canonical(b)
    ensures IsPiece(FenceOf(b)) && BlocksOf(FenceOf(b)) == [b]
  {
    HeaderTrimmed(b);
    HeaderOpens(b);
    CodeReads(b);
    FenceCloses();
    JoinOfLines(b.code);
    TrimSpaceExactly(b.code);
    hide IsBody, IsCode, Lines, Join, ParseOpening, TrimSpace, TrimCr, IsTrimmed, IsLanguage, TrimAll, Header,
         IsClosing;
  }

  lemma BlockLines(b: Block)
    requires IsLanguage(b.language) && '\n' !in b.filename
    ensures Lines(PrintBlock(b)) == PieceLines(FenceOf(b))
  {
    LanguageTrimmed(b.language);
    var line := FENCE + Header(b);
    assert '\n' !in line;
    LinesOfLine(line);
    LinesOfLine(FENCE);
    LinesConcat(line, b.code + "\n" + FENCE);
    LinesConcat(b.code, FENCE);
    assert PrintBlock(b) == line + "\n" + (b.code + "\n" + FENCE);
    hide Lines, IsLanguage;
  }

  lemma {:induction false} PrintedLines(blocks: seq<Block>)
    requires AllCanonical(blocks) && blocks != []
    ensures Lines(Print(blocks)) == DocLines(FencesOf(blocks), [])
  {
    var fences := FencesOf(blocks);
    assert fences[0] == FenceOf(blocks[0]) && fences[1..] == FencesOf(blocks[1..]);
    assert Canonical(blocks[0]);
    BlockLines(blocks[0]);
    hide Canonical, Lines, PrintBlock, FenceOf, PieceLines;
    if |blocks| == 1 {
      assert PieceLines(fences[0]) + [] == PieceLines(fences[0]);
    } else {
      PrintedLines(blocks[1..]);
      LinesConcat(PrintBlock(blocks[0]), Print(blocks[1..]));
    }
  }

  lemma {:induction false} FencesReadBack(blocks: seq<Block>)
    requires AllCanonical(blocks)
    ensures ArePieces(FencesOf(blocks)) && FenceBlocks(FencesOf(blocks)) == blocks
  {
    hide Canonical, IsPiece, FenceOf, BlocksOf;
    if blocks != [] {
      assert Canonical(blocks[0]);
      BlockReadsBack(blocks[0]);
      FencesReadBack(blocks[1..]);
      assert FencesOf(blocks) == [FenceOf(blocks[0])] + FencesOf(blocks[1..]);
      assert FencesOf(blocks)[1..] == FencesOf(blocks[1..]);
    }
  }

  /** Canonical blocks survive printing and parsing. */
  lemma PrintedBlocksParse(blocks: seq<Block>)
    requires AllCanonical(blocks)
    ensures Parse(Print(blocks)) == blocks
  {
    hide AllCanonical, Canonical, FenceBlocks, Print;
    if blocks == [] {
      assert Print([]) == "" by { PrintNothing(); }
      ParseNothing();
    } else {
      PrintedLines(blocks);
      FencesReadBack(blocks);
      DocumentParses(Print(blocks), FencesOf(blocks), []);
    }
  }

  lemma PrintNothing()
    ensures Print([]) == ""
  {
  }

  lemma ParseNothing()
    ensures Parse("") == []
  {
    assert TrimCr("") == "" && TrimSpace("") == "";
    assert Lines("") == [""];
    assert ParseOpening("").NotOpening?;
    assert Outside([""], 1) == [];
  }

  /** Printing the blocks of any text and parsing again gives the same blocks. */
  lemma ParsePrintParse(text: string)
    ensures Parse(Print(Parse(text))) == Parse(text)
  {
    hide AllCanonical, Parse, Print;
    ParseCanonical(text);
    PrintedBlocksParse(Parse(text));
  }

  /** The block lists that some text parses to are exactly the canonical ones. */
  lemma ParsedListsExactly(blocks: seq<Block>)
    ensures (exists text :: Parse(text) == blocks) <==> AllCanonical(blocks)
  {
    hide AllCanonical, Parse, Print;
    if AllCanonical(blocks) {
      PrintedBlocksParse(blocks);
    }
    if text :| Parse(text) == blocks {
      ParseCanonical(text);
    }
  }
}
