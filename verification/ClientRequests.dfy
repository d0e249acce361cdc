/** Requests as clients write them: what their heads announce about their bodies, and that the server
    enqueues exactly what they sent. */
module ClientRequests {
  import opened ByteStrings
  import opened Wrappers
  import opened ChunkedCoding
  import opened ClientChunks
  import opened ClientHeads
  import opened Headers
  import opened Requests
  import opened Spelling

  // ---------- heads ----------

  predicate AllWhite(s: Bytes) { forall i :: 0 <= i < |s| ==> IsWhite(s[i]) }

  /** A request line with any white space after it, and fields. */
  datatype RequestHead = RequestHead(line: StartLine, padding: Bytes, fields: seq<ClientField>) {
    predicate Valid() {
      && IsRequestLine(line) && NoEol(line.uri)
      && (line.version == [] ==> !IsWhite(line.uri[|line.uri| - 1]))
      && AllWhite(padding) && NoEol(padding)
      && ValidFields(fields)
    }

    function Lines(): (lines: seq<Bytes>)
      ensures lines != []
    {
      [LineText(line) + padding] + AllLines(fields)
    }

    function Render(): Bytes { JoinLines(Lines()) + CRLF + CRLF }
  }

  lemma TokenIsClean(s: Bytes)
    requires IsToken(s)
    ensures NoEol(s) && !IsWhite(s[0])
  {
    TokenChars(CR);
    TokenChars(LF);
    TokenChars(s[0]);
    Blanks(s[0]);
  }

  lemma LineIsClean(head: RequestHead)
    requires head.Valid()
    ensures var text := LineText(head.line);
      text != [] && NoEol(text) && !IsWhite(text[0]) && !IsWhite(text[|text| - 1])
  {
    hide IsTokenChar, IsLowerLetter, IsWhite, IsDecimalDigit, AllWhite, ValidFields;
    var s := head.line;
    TokenIsClean(s.command);
    assert Ascii(" ") == [32] && Ascii(" HTTP/") == [32, 72, 84, 84, 80, 47];
    if s.version != [] {
      assert s.version == [s.version[0]] + s.version[1..2] + [s.version[2]];
      assert Ascii(".") == [46];
      PlainDigit(s.version[0]);
      PlainDigit(s.version[2]);
    }
  }

  lemma PlainDigit(b: byte)
    ensures IsDecimalDigit(b) ==> b != CR && b != LF && !IsWhite(b)
  {
    DecimalDigits(b);
    Blanks(b);
  }

  lemma {:induction false} StripWhite(s: Bytes, padding: Bytes)
    requires AllWhite(padding) && s != [] && !IsWhite(s[|s| - 1])
    ensures RStrip(s + padding) == s
    decreases |padding|
  {
    hide IsWhite, IsSpace;
    var t := s + padding;
    Blanks(t[|t| - 1]);
    if padding == [] {
      assert t == s;
    } else {
      assert t[..|t| - 1] == s + padding[..|padding| - 1];
      StripWhite(s, padding[..|padding| - 1]);
    }
  }

  lemma LinesAreClean(head: RequestHead)
    requires head.Valid()
    ensures forall l :: l in head.Lines() ==> CleanLine(l)
  {
    hide IsRequestLine, LineText, IsWhite, ClientField.Text, IsField;
    LineIsClean(head);
    FieldLinesAreClean(head.fields);
  }

  lemma {:induction false} FieldLinesAreClean(fields: seq<ClientField>)
    requires ValidFields(fields)
    ensures forall l :: l in AllLines(fields) ==> CleanLine(l)
    decreases |fields|
  {
    hide IsPad, IsField, ClientField.Text, CleanLine;
    if fields != [] {
      assert fields[0] in fields && fields[0].Valid();
      FieldLinesAreClean(fields[1..]);
      forall l | l in fields[0].lines ensures CleanLine(l) {
        var i :| 0 <= i < |fields[0].lines| && fields[0].lines[i] == l;
        assert i == 0 || Continues(l);
      }
    }
  }

  lemma {:induction false} SplitBlock(lines: seq<Bytes>)
    requires lines != [] && forall l :: l in lines ==> CleanLine(l)
    ensures SplitLines(JoinLines(lines) + CRLF + CRLF) == lines + [[], []]
    decreases |lines|
  {
    hide SplitLines, CleanLine;
    var line := lines[0];
    assert line in lines;
    if |lines| == 1 {
      SplitFirst(line, CRLF);
      SplitEnd();
    } else {
      SplitFirst(line, JoinLines(lines[1..]) + CRLF + CRLF);
      assert JoinLines(lines) + CRLF + CRLF == line + CRLF + (JoinLines(lines[1..]) + CRLF + CRLF);
      SplitBlock(lines[1..]);
    }
  }

  lemma SplitEnd()
    ensures SplitLines(CRLF) == [[], []]
  {
    assert CrlfAt(CRLF, 0);
    FindCrlfUnique(CRLF, 0);
    assert CRLF[2..] == [] && CRLF[..0] == [];
    assert SplitLines([]) == [[]];
  }

  lemma BlockStart(head: RequestHead)
    requires head.Valid()
    ensures var block := head.Render(); var p := FindCrlf(block);
      && p >= 0 && block[..p] == head.Lines()[0]
      && SplitLines(block[p + 2..]) == AllLines(head.fields) + [[], []]
  {
    hide RequestHead.Valid, CleanLine, FindCrlf, LineText;
    LinesAreClean(head);
    var block := head.Render();
    SplitBlock(head.Lines());
    var all := head.Lines() + [[], []];
    assert SplitLines(block) == all && |all| > 1;
    assert all[1..] == AllLines(head.fields) + [[], []];
    var p := FindCrlf(block);
    assert p < 0 ==> |SplitLines(block)| == 1;
    assert SplitLines(block)[0] == block[..p];
    assert SplitLines(block)[1..] == SplitLines(block[p + 2..]);
  }

  /** The parser sees the request line without its padding and the texts of the fields. */
  lemma HeadIsParsed(adj: Adjustments, head: RequestHead)
    requires head.Valid() && !adj.uriRefused(head.line.uri)
    ensures var (h, passed) := AddLines(Texts(head.fields), map[]);
      ReadHeader(adj, head.Render()) ==
        if passed then (FramingOf(head.line.version, h), VisibleHeaders(head.line.version, h))
        else (Malformed(false), h)
  {
    hide FindCrlf, SplitLines, LineText, IsRequestLine, CrackFirstLine, AddLines, FramingOf;
    hide VisibleHeaders, FoldLines, ValidFields, IsWhite, RequestHead.Render, RStrip;
    BlockStart(head);
    LineIsClean(head);
    StripWhite(LineText(head.line), head.padding);
    FoldFields(head.fields, [[], []], []);
    FoldEnd([] + Texts(head.fields));
    assert [] + Texts(head.fields) == Texts(head.fields);
    CrackAccepted(head.line);
  }

  lemma FoldEnd(r: seq<Bytes>)
    ensures FoldLines([[], []], r) == Some(r)
  {
    var blank: seq<Bytes> := [[], []];
    assert blank[1..] == [[]];
    assert FoldLines([[]], r) == FoldLines([[]][1..], r);
  }

  lemma {:induction false} PassedAreFields(lines: seq<Bytes>, h: HeaderMap)
    ensures AddLines(lines, h).1 ==> forall l :: l in lines ==> MatchField(l).Some?
    decreases |lines|
  {
    hide MatchField, AddField;
    if lines != [] {
      var f := MatchField(lines[0]);
      if f.Some? && AddField(h, f.value).Some? {
        PassedAreFields(lines[1..], AddField(h, f.value).value);
      }
    }
  }

  /** Whatever is accepted has a well-formed request line, no bare CR or LF, and well-formed fields. */
  lemma AcceptedIsWellFormed(adj: Adjustments, block: Bytes) returns (line: StartLine, texts: seq<Bytes>)
    requires ReadHeader(adj, block).0.Head?
    ensures var p := FindCrlf(block);
      && p >= 0 && RStrip(block[..p]) == LineText(line) && IsRequestLine(line) && NoEol(LineText(line))
      && !adj.uriRefused(line.uri)
      && (forall l :: l in SplitLines(block[p + 2..]) ==> NoEol(l))
      && FoldLines(SplitLines(block[p + 2..]), []) == Some(texts)
      && forall t :: t in texts ==> IsFieldText(t)
  {
    hide FindCrlf, SplitLines, FoldLines, AddLines, CrackFirstLine, FramingOf, VisibleHeaders, MatchField, IsRequestLine;
    hide LineText, IsFieldText, RStrip;
    var p := FindCrlf(block);
    var first := RStrip(block[..p]);
    CrackGrammar(first);
    line := CrackFirstLine(first).value;
    FoldRefuses(SplitLines(block[p + 2..]), []);
    texts := FoldLines(SplitLines(block[p + 2..]), []).value;
    PassedAreFields(texts, map[]);
    forall t | t in texts ensures IsFieldText(t) {
      FieldIsText(t);
    }
  }

  /** name ":" blanks value blanks */
  ghost predicate IsFieldText(text: Bytes) {
    exists name, before, value, after ::
      IsField(name, before, value, after) && text == FieldText(name, before, value, after)
  }

  lemma FieldIsText(text: Bytes)
    requires MatchField(text).Some?
    ensures IsFieldText(text)
  {
    hide MatchField, IsField, FieldText;
    var before, after := FieldGrammar(text);
  }

  // ---------- codings ----------

  function Separated(pieces: seq<Bytes>): Bytes
    requires pieces != []
  {
    if |pieces| == 1 then pieces[0] else pieces[0] + Ascii(",") + Separated(pieces[1..])
  }

  const COMMA: byte := 44

  predicate CommaFree(pieces: seq<Bytes>) { forall p :: p in pieces ==> COMMA !in p }

  function NonEmpty(pieces: seq<Bytes>): seq<Bytes> {
    if pieces == [] then []
    else (if pieces[0] == [] then [] else [pieces[0]]) + NonEmpty(pieces[1..])
  }

  /** The text between blanks at either end, compared without regard to case. */
  predicate Says(piece: Bytes, text: Bytes) {
    exists i, j :: 0 <= i <= j <= |piece|
      && AllBlank(piece[..i]) && AllBlank(piece[j..]) && SameText(piece[i..j], text)
  }

  lemma SplitFirstPiece(piece: Bytes, rest: Bytes)
    requires COMMA !in piece
    ensures SplitCommas(piece) == [piece]
    ensures SplitCommas(piece + Ascii(",") + rest) == [piece] + SplitCommas(rest)
  {
    hide FindByte;
    assert Ascii(",") == [44];
    var s := piece + [44] + rest;
    assert forall i :: 0 <= i < |piece| ==> piece[i] in piece && s[i] == piece[i];
    FindByteUnique(s, 44, |piece|);
    assert s[..|piece|] == piece && s[|piece| + 1..] == rest;
    assert FindByte(piece, 44) < 0;
  }

  lemma {:induction false} SplitPieces(pieces: seq<Bytes>)
    requires pieces != [] && CommaFree(pieces)
    ensures SplitCommas(Separated(pieces)) == pieces
    decreases |pieces|
  {
    hide SplitCommas;
    assert pieces[0] in pieces;
    if |pieces| == 1 {
      SplitFirstPiece(pieces[0], []);
    } else {
      SplitFirstPiece(pieces[0], Separated(pieces[1..]));
      SplitPieces(pieces[1..]);
    }
  }

  lemma ChunkedSpelled()
    ensures Lower(Ascii("chunked")) == CHUNKED && |CHUNKED| == 7
    ensures forall b | SameLetter(b, Ascii("chunked")[0]) :: !IsPad(b)
    ensures forall b | SameLetter(b, Ascii("chunked")[6]) :: !IsPad(b)
  {
    forall b | SameLetter(b, Ascii("chunked")[0]) || SameLetter(b, Ascii("chunked")[6]) ensures !IsPad(b) {
      Alphabet();
      Blanks(b);
    }
  }

  lemma SaysWhatIsLeft(piece: Bytes)
    requires Lower(StripBlanks(piece)) == CHUNKED
    ensures Says(piece, Ascii("chunked"))
  {
    hide StripBlanks, IsPad, SameLetter, Lower, CHUNKED;
    var word := Ascii("chunked");
    ChunkedSpelled();
    var before, after := Padding(piece);
    var core := StripBlanks(piece);
    var i, j := |before|, |before| + |core|;
    TextCase(core, word);
    assert piece[..i] == before && piece[i..j] == core && piece[j..] == after;
  }

  lemma StripsToChunked(before: Bytes, core: Bytes, after: Bytes)
    requires AllBlank(before) && AllBlank(after) && SameText(core, Ascii("chunked"))
    ensures Lower(StripBlanks(before + core + after)) == CHUNKED
  {
    hide StripBlanks, IsPad, SameLetter, Lower, CHUNKED;
    var word := Ascii("chunked");
    ChunkedSpelled();
    assert SameLetter(core[0], word[0]) && SameLetter(core[6], word[6]);
    StripPadding(before, core, after);
    TextCase(core, word);
  }

  lemma SaysChunked(piece: Bytes)
    ensures Lower(StripBlanks(piece)) == CHUNKED <==> Says(piece, Ascii("chunked"))
  {
    hide StripBlanks, AllBlank, SameText, Lower, CHUNKED;
    if Lower(StripBlanks(piece)) == CHUNKED {
      SaysWhatIsLeft(piece);
    }
    if Says(piece, Ascii("chunked")) {
      var i, j :| 0 <= i <= j <= |piece|
        && AllBlank(piece[..i]) && AllBlank(piece[j..]) && SameText(piece[i..j], Ascii("chunked"));
      StripsToChunked(piece[..i], piece[i..j], piece[j..]);
      assert piece[..i] + piece[i..j] + piece[j..] == piece;
    }
  }

  /** The codings named are those between the commas, but for empty ones. */
  lemma {:induction false} CodingsNamed(pieces: seq<Bytes>)
    ensures var codings := Encodings(pieces); var named := NonEmpty(pieces);
      && |codings| == |named|
      && forall i :: 0 <= i < |named| ==> (codings[i] == CHUNKED <==> Says(named[i], Ascii("chunked")))
    decreases |pieces|
  {
    hide Says, Lower, StripBlanks, CHUNKED;
    if pieces != [] {
      CodingsNamed(pieces[1..]);
      SaysChunked(pieces[0]);
    }
  }

  // ---------- what a head announces ----------

  /** What stands between the commas of the Transfer-Encoding fields, taken together. */
  predicate Pieces(fields: seq<ClientField>, pieces: seq<Bytes>) {
    var codings := ValuesOf(fields, TRANSFER_ENCODING_NAME);
    if codings == [] then pieces == []
    else pieces != [] && CommaFree(pieces) && Separated(pieces) == CommaJoin(codings)
  }

  /** A request of HTTP/1.1 that asks to be told to continue. */
  predicate AsksToContinue(head: RequestHead) {
    var expectations := ValuesOf(head.fields, EXPECT_NAME);
    && head.line.version == Ascii("1.1")
    && |expectations| == 1 && SameText(expectations[0], Ascii("100-continue"))
  }

  ghost predicate NotANumber(s: Bytes) { forall n: nat :: !Spells(s, n, 10) }

  /** The verdict that the Content-Length fields call for. */
  ghost predicate LengthAnnounced(lengths: seq<Bytes>, expects: bool, r: Head)
    requires |lengths| <= 1
  {
    if lengths == [] then r == Head(NoBody, expects)
    else
      && (forall n: nat :: Spells(lengths[0], n, 10) ==> r == Head(if n == 0 then NoBody else Fixed(n), expects))
      && (NotANumber(lengths[0]) ==> r == Malformed(expects))
  }

  /** The verdict that the fields call for; only HTTP/1.1 knows transfer codings. */
  ghost predicate Announced(head: RequestHead, pieces: seq<Bytes>, r: Head)
    requires !Repeats(head.fields)
  {
    var codings := NonEmpty(pieces);
    if head.line.version == Ascii("1.1") && codings != [] then
      if |codings| == 1 && Says(codings[0], Ascii("chunked")) then r == Head(Chunked, AsksToContinue(head))
      else r == Unsupported
    else
      LengthAnnounced(ValuesOf(head.fields, CONTENT_LENGTH_NAME), AsksToContinue(head), r)
  }

  lemma ExpectationSpelled()
    ensures Lower(Ascii("100-continue")) == HUNDRED_CONTINUE && |HUNDRED_CONTINUE| == 12
    ensures COMMA !in HUNDRED_CONTINUE
  {
  }

  lemma JoinedHasComma(values: seq<Bytes>)
    requires |values| > 1
    ensures COMMA in CommaJoin(values)
  {
    assert Ascii(", ")[0] == COMMA;
    var init := CommaJoin(values[..|values| - 1]);
    assert CommaJoin(values)[|init|] == COMMA;
  }

  lemma ExpectationRead(h: HeaderMap, expectations: seq<Bytes>)
    requires Holds(h, EXPECT_NAME, expectations)
    ensures Lower(Get(h, EXPECT, [])) == HUNDRED_CONTINUE
      <==> |expectations| == 1 && SameText(expectations[0], Ascii("100-continue"))
  {
    hide HeaderKey, SameText;
    KnownKeys();
    ExpectationSpelled();
    var value := Get(h, EXPECT, []);
    TextCase(value, Ascii("100-continue"));
    if |expectations| > 1 {
      JoinedHasComma(expectations);
      assert COMMA in value;
      CommaStays(value);
    }
  }

  lemma CommaStays(s: Bytes)
    requires COMMA in s
    ensures COMMA in Lower(s)
  {
    var i :| 0 <= i < |s| && s[i] == COMMA;
    assert Lower(s)[i] == COMMA;
  }

  lemma LengthRead(h: HeaderMap, lengths: seq<Bytes>, expects: bool)
    requires |lengths| <= 1 && Holds(h, CONTENT_LENGTH_NAME, lengths)
    requires lengths != [] ==> LF !in lengths[0]
    ensures LengthAnnounced(lengths, expects, LengthFraming(h, expects))
  {
    hide HeaderKey, Spells;
    KnownKeys();
    if lengths == [] {
      NoLength();
      assert DropFinalLf([48]) == [48];
      ZeroLength();
    } else {
      var v := lengths[0];
      assert CommaJoin(lengths) == v && Get(h, CONTENT_LENGTH, [48]) == v;
      assert DropFinalLf(v) == v;
      forall n: nat ensures Spells(v, n, 10) <==> v != [] && DigitsOnly(v) && DecimalValue(v) == n {
        DecimalSpelling(v, n);
      }
      if OnlyDigits(v) {
        assert Spells(v, DecimalValue(v), 10);
      }
    }
  }

  lemma ZeroLength()
    ensures DecimalValue([48]) == 0
  {
    assert [48 as byte][..0] == [];
    assert DecimalValue([48]) == 10 * DecimalValue([]) + 0;
  }

  lemma CodingsRead(h: HeaderMap, fields: seq<ClientField>, pieces: seq<Bytes>)
    requires Holds(h, TRANSFER_ENCODING_NAME, ValuesOf(fields, TRANSFER_ENCODING_NAME)) && Pieces(fields, pieces)
    ensures Encodings(SplitCommas(Get(h, TRANSFER_ENCODING, []))) == Encodings(pieces)
  {
    hide HeaderKey, SplitCommas;
    KnownKeys();
    if pieces == [] {
      SplitFirstPiece([], []);
      var one: seq<Bytes> := [[]];
      assert one[1..] == [] && Encodings(one) == [] + Encodings([]);
    } else {
      SplitPieces(pieces);
    }
  }

  lemma FramingAnnounced(h: HeaderMap, head: RequestHead, pieces: seq<Bytes>)
    requires !Repeats(head.fields) && Pieces(head.fields, pieces)
    requires Holds(h, TRANSFER_ENCODING_NAME, ValuesOf(head.fields, TRANSFER_ENCODING_NAME))
    requires Holds(h, EXPECT_NAME, ValuesOf(head.fields, EXPECT_NAME))
    requires var lengths := ValuesOf(head.fields, CONTENT_LENGTH_NAME);
      Holds(h, CONTENT_LENGTH_NAME, lengths) && forall v :: v in lengths ==> LF !in v
    ensures Announced(head, pieces, FramingOf(head.line.version, h))
  {
    hide Holds, LengthAnnounced, LengthFraming, Says, SplitCommas, Encodings, Pieces, Spells, SameText;
    hide FramingOf, CHUNKED;
    var lengths := ValuesOf(head.fields, CONTENT_LENGTH_NAME);
    LengthRead(h, lengths, AsksToContinue(head));
    ExpectationRead(h, ValuesOf(head.fields, EXPECT_NAME));
    CodingsRead(h, head.fields, pieces);
    CodingsNamed(pieces);
    FramingCases(head.line.version, h);
  }

  lemma FramingCases(version: Bytes, h: HeaderMap)
    ensures var codings := Encodings(SplitCommas(Get(h, TRANSFER_ENCODING, [])));
      var expects := Lower(Get(h, EXPECT, [])) == HUNDRED_CONTINUE;
      FramingOf(version, h) ==
        if version != Ascii("1.1") then LengthFraming(h, false)
        else if codings == [] then LengthFraming(h, expects)
        else if |codings| == 1 && codings[0] == CHUNKED then Head(Chunked, expects)
        else Unsupported
  {
    hide LengthFraming, SplitCommas, Encodings, Lower, CHUNKED, HUNDRED_CONTINUE;
    var codings := Encodings(SplitCommas(Get(h, TRANSFER_ENCODING, [])));
    if codings != [] {
      assert codings[0] in codings;
    }
  }

  lemma {:induction false} ValuesAreText(fields: seq<ClientField>, name: Bytes)
    requires ValidFields(fields)
    ensures forall v :: v in ValuesOf(fields, name) ==> AllText(v)
    decreases |fields|
  {
    hide IsText, SameText;
    if fields != [] {
      assert fields[|fields| - 1] in fields && fields[|fields| - 1].Valid();
      ValuesAreText(fields[..|fields| - 1], name);
    }
  }

  /** The verdict of the parser is the one the fields call for, compared and counted without regard to
      the case of letters; a head that repeats a field of which there may be one is refused. */
  lemma HeadIsRead(adj: Adjustments, head: RequestHead, pieces: seq<Bytes>)
    requires head.Valid() && !adj.uriRefused(head.line.uri) && Pieces(head.fields, pieces)
    ensures var r := ReadHeader(adj, head.Render()).0;
      if Repeats(head.fields) then r == Malformed(false) else Announced(head, pieces, r)
  {
    hide IsRequestLine, RequestHead.Render, AddLines, FramingOf, Holds, Repeats, Announced, Pieces;
    HeadIsParsed(adj, head);
    KnownKeys();
    Dictionary(head.fields, TRANSFER_ENCODING_NAME);
    Dictionary(head.fields, EXPECT_NAME);
    Dictionary(head.fields, CONTENT_LENGTH_NAME);
    ValuesAreText(head.fields, CONTENT_LENGTH_NAME);
    var (h, passed) := AddLines(Texts(head.fields), map[]);
    if passed {
      FramingAnnounced(h, head, pieces);
    }
  }

  /** What the application is shown of the fields of that name: the transfer coding is the server's
      business, and so is a length that comes with it. */
  function Shown(head: RequestHead, name: Bytes, chunked: bool): seq<Bytes> {
    if head.line.version == Ascii("1.1") && SameText(name, TRANSFER_ENCODING_NAME) then []
    else if chunked && SameText(name, CONTENT_LENGTH_NAME) then []
    else ValuesOf(head.fields, name)
  }

  lemma HeadersAreShown(adj: Adjustments, head: RequestHead, name: Bytes)
    requires head.Valid() && !adj.uriRefused(head.line.uri) && UNDERSCORE !in name
    requires !Repeats(head.fields)
    ensures var (r, h) := ReadHeader(adj, head.Render());
      Holds(h, name, Shown(head, name, r.Head? && r.framing.Chunked?))
  {
    hide IsRequestLine, RequestHead.Render, AddLines, FramingOf, Repeats, HeaderKey, SameText;
    HeadIsParsed(adj, head);
    KnownKeys();
    Dictionary(head.fields, name);
    SameKey(name, TRANSFER_ENCODING_NAME);
    SameKey(name, CONTENT_LENGTH_NAME);
  }

  // ---------- whole requests ----------

  datatype ClientBody =
    | NoContent
    | Counted(data: Bytes)
    | Chunks(chunks: seq<ClientChunk>, last: LastChunk)
  {
    function Render(): Bytes {
      match this
      case NoContent => []
      case Counted(data) => data
      case Chunks(chunks, last) => RenderBody(chunks, last)
    }

    function Data(): Bytes {
      match this
      case NoContent => []
      case Counted(data) => data
      case Chunks(chunks, _) => DataOf(chunks)
    }
  }

  /** A request with empty lines in front of it. */
  datatype ClientRequest = ClientRequest(emptyLines: nat, head: RequestHead, body: ClientBody) {
    /** The fields announce the body, and the limits of the server are kept. */
    ghost predicate Valid(adj: Adjustments) {
      var lengths := ValuesOf(head.fields, CONTENT_LENGTH_NAME);
      var codings := ValuesOf(head.fields, TRANSFER_ENCODING_NAME);
      && 4 < adj.maxHeader && |head.Render()| + 2 < adj.maxHeader
      && head.Valid() && !adj.uriRefused(head.line.uri)
      && !Repeats(head.fields) && !AsksToContinue(head)
      && match body
         case NoContent =>
           (codings == [] || head.line.version != Ascii("1.1")) && (lengths == [] || Spells(lengths[0], 0, 10))
         case Counted(data) =>
           && (codings == [] || head.line.version != Ascii("1.1"))
           && lengths != [] && Spells(lengths[0], |data|, 10) && 0 < |data| < adj.maxBody
         case Chunks(chunks, last) =>
           && head.line.version == Ascii("1.1") && |codings| == 1 && SameText(codings[0], Ascii("chunked"))
           && ValidBody(chunks, last) && |body.Render()| < adj.maxBody
    }

    function Render(): Bytes { EmptyLines(emptyLines) + head.Render() + body.Render() }
  }

  function EmptyLines(n: nat): Bytes {
    if n == 0 then [] else CRLF + EmptyLines(n - 1)
  }

  function RenderRequests(requests: seq<ClientRequest>): Bytes {
    if requests == [] then [] else requests[0].Render() + RenderRequests(requests[1..])
  }

  /** What the server is to enqueue. */
  function Enqueued(requests: seq<ClientRequest>): seq<Request> {
    if requests == [] then []
    else [Complete(requests[0].head.Render(), requests[0].body.Data())] + Enqueued(requests[1..])
  }

  lemma OnePiece(text: Bytes)
    requires SameText(text, Ascii("chunked"))
    ensures COMMA !in text && text != [] && Says(text, Ascii("chunked"))
  {
    hide SameLetter;
    var word := Ascii("chunked");
    assert forall i :: 0 <= i < 7 ==> word[i] >= 97;
    forall i | 0 <= i < |text| ensures text[i] != COMMA {
      LetterCase(text[i], word[i]);
    }
    assert text[..0] == [] && text[|text|..] == [] && text[0..|text|] == text;
  }

  lemma {:induction false} PiecesExist(s: Bytes)
    ensures CommaFree(SplitCommas(s)) && Separated(SplitCommas(s)) == s
    decreases |s|
  {
    hide FindByte;
    var p := FindByte(s, 44);
    assert Ascii(",") == [44];
    if p >= 0 {
      PiecesExist(s[p + 1..]);
      assert s == s[..p] + [44] + s[p + 1..];
      assert SplitCommas(s)[1..] == SplitCommas(s[p + 1..]);
    }
  }

  /** Some pieces: the coding itself when it is the only one. */
  lemma PiecesOf(fields: seq<ClientField>) returns (pieces: seq<Bytes>)
    ensures Pieces(fields, pieces)
    ensures var codings := ValuesOf(fields, TRANSFER_ENCODING_NAME);
      |codings| == 1 && SameText(codings[0], Ascii("chunked"))
      ==> |NonEmpty(pieces)| == 1 && Says(NonEmpty(pieces)[0], Ascii("chunked"))
  {
    hide Says, SameText;
    var codings := ValuesOf(fields, TRANSFER_ENCODING_NAME);
    if codings == [] {
      pieces := [];
    } else if |codings| == 1 && SameText(codings[0], Ascii("chunked")) {
      OnePiece(codings[0]);
      pieces := [codings[0]];
      assert pieces[1..] == [];
    } else {
      PiecesExist(CommaJoin(codings));
      pieces := SplitCommas(CommaJoin(codings));
    }
  }

  lemma HeadVerdict(adj: Adjustments, r: ClientRequest)
    requires r.Valid(adj)
    ensures ReadHeader(adj, r.head.Render()).0 == Head(
      match r.body
      case NoContent => NoBody
      case Counted(data) => Fixed(|data|)
      case Chunks(_, _) => Chunked, false)
  {
    hide RequestHead.Render, RequestHead.Valid, ReadHeader, Spells, Says, Pieces, AsksToContinue;
    var pieces := PiecesOf(r.head.fields);
    HeadIsRead(adj, r.head, pieces);
    if ValuesOf(r.head.fields, TRANSFER_ENCODING_NAME) == [] {
      assert pieces == [] by { NoPieces(r.head.fields, pieces); }
    }
  }

  lemma NoPieces(fields: seq<ClientField>, pieces: seq<Bytes>)
    requires Pieces(fields, pieces) && ValuesOf(fields, TRANSFER_ENCODING_NAME) == []
    ensures pieces == []
  {
  }

  lemma RenderStarts(head: RequestHead)
    requires head.Valid()
    ensures var block := head.Render();
      && block != [] && LStrip(block) == block && block[0] != CR
      && LStrip(CRLF + block) == block
  {
    hide IsRequestLine, LineText, IsSpace, IsWhite;
    var block := head.Render();
    LineIsClean(head);
    JoinStarts(head.Lines());
    var first := LineText(head.line)[0];
    assert LineText(head.line)[0] in LineText(head.line);
    assert block[0] == first;
    Blanks(first);
    Blanks(CR);
    Blanks(LF);
    assert IsWhite(CR) && IsWhite(LF) by { WhiteEol(); }
    var s := CRLF + block;
    assert s[1..] == [LF] + block && s[1..][1..] == block;
    assert LStrip(s) == LStrip(s[1..]) && LStrip(s[1..]) == LStrip(block);
  }

  lemma WhiteEol()
    ensures IsWhite(CR) && IsWhite(LF)
  {
    Blanks(CR);
    Blanks(LF);
  }

  /** The header with or without an empty line in front. */
  function Header(odd: bool, head: RequestHead): Bytes {
    (if odd then CRLF else []) + head.Render()
  }

  lemma HeaderEnds(odd: bool, head: RequestHead)
    requires head.Valid()
    ensures var header := Header(odd, head);
      FindDoubleNewline(header) == |header| && LStrip(header) == head.Render()
  {
    hide RequestHead.Valid, RequestHead.Render, LStrip;
    var block := head.Render();
    RenderStarts(head);
    RenderEnds(head);
    var header := Header(odd, head);
    if odd {
      forall i | 0 <= i < |header| - 4 ensures !BlankAt(header, i) {
        assert i >= 2 ==> !BlankAt(block, i - 2);
      }
      assert BlankAt(block, |block| - 4);
      FindDoubleNewlineUnique(header, |header| - 4);
    } else {
      assert header == block;
    }
  }

  lemma RenderEnds(head: RequestHead)
    requires head.Valid()
    ensures FindDoubleNewline(head.Render()) == |head.Render()|
  {
    hide RequestHead.Valid, RequestHead.Lines, CleanLine;
    LinesAreClean(head);
    BlockEnd(head.Lines(), []);
    assert head.Render() + [] == head.Render();
  }

  lemma BodyIsSent(adj: Adjustments, r: ClientRequest, odd: bool)
    requires r.Valid(adj)
    ensures Message(Header(odd, r.head), r.body.Render(), r.body.Data()).WellFormed(adj)
  {
    hide RequestHead.Valid, RequestHead.Render, ReadHeader, Spells, ValuesOf, AsksToContinue, ValidBody;
    hide RenderBody, DataOf, Decode, LStrip;
    HeaderEnds(odd, r.head);
    RenderStarts(r.head);
    HeadVerdict(adj, r);
    if r.body.Chunks? {
      DecodeBody(r.body.chunks, r.body.last, []);
      assert r.body.Render() + [] == r.body.Render();
    }
  }

  /** One request and anything after it: the request is enqueued as it was sent, the empty lines in
      front of it are dropped, and the rest is read as a new stream. */
  lemma {:induction false} RequestReadsBack(
    adj: Adjustments, r: ClientRequest, n: nat, queued: seq<Request>, rest: Bytes)
    requires r.Valid(adj)
    ensures FeedStream(adj, Reading(FreshRequest, queued), EmptyLines(n) + (r.head.Render() + r.body.Render() + rest))
      == FeedStream(adj, Reading(FreshRequest, queued + [Complete(r.head.Render(), r.body.Data())]), rest)
    decreases n
  {
    hide FeedStream, RequestHead.Render, ClientBody.Render, ClientBody.Data, Message.WellFormed, LStrip;
    hide RequestHead.Valid, ReadHeader;
    var s := r.head.Render() + r.body.Render() + rest;
    if n >= 2 {
      RequestReadsBack(adj, r, n - 2, queued, rest);
      assert EmptyLines(n) == CRLF + (CRLF + EmptyLines(n - 2));
      assert EmptyLines(n) + s == CRLF + CRLF + (EmptyLines(n - 2) + s);
      SkipBlank(adj, queued, EmptyLines(n - 2) + s);
    } else {
      var m := Message(Header(n == 1, r.head), r.body.Render(), r.body.Data());
      BodyIsSent(adj, r, n == 1);
      HeaderEnds(n == 1, r.head) by { HeadOk(adj, r); }
      assert EmptyLines(0) == [];
      assert n == 1 ==> EmptyLines(1) == CRLF + [];
      assert EmptyLines(n) + s == m.header + m.wire + rest;
      ReadMessage(adj, m, queued, rest);
    }
  }

  lemma HeadOk(adj: Adjustments, r: ClientRequest)
    requires r.Valid(adj)
    ensures r.head.Valid()
  {
  }

  /** However the bytes of a list of requests are cut, exactly those requests are enqueued, in order,
      with the data they carry, and nothing is left over. */
  lemma ClientRequestsReadBack(adj: Adjustments, requests: seq<ClientRequest>, pieces: seq<Bytes>)
    requires forall i :: 0 <= i < |requests| ==> requests[i].Valid(adj)
    requires Join(pieces) == RenderRequests(requests)
    ensures FeedPieces(adj, Reading(FreshRequest, []), pieces) == Reading(FreshRequest, Enqueued(requests))
  {
    hide FeedStream, FeedPieces, ClientRequest.Valid;
    StreamCutIndependence(adj, Reading(FreshRequest, []), pieces);
    AllReadBack(adj, requests, []);
    assert [] + Enqueued(requests) == Enqueued(requests);
  }

  lemma {:induction false} AllReadBack(adj: Adjustments, requests: seq<ClientRequest>, queued: seq<Request>)
    requires forall i :: 0 <= i < |requests| ==> requests[i].Valid(adj)
    ensures FeedStream(adj, Reading(FreshRequest, queued), RenderRequests(requests))
      == Reading(FreshRequest, queued + Enqueued(requests))
    decreases |requests|
  {
    hide FeedStream, ClientRequest.Valid, RequestHead.Render, ClientBody.Render, ClientBody.Data;
    if requests == [] {
      FeedStreamNothing(adj, Reading(FreshRequest, queued));
      assert queued + [] == queued;
    } else {
      var r := requests[0];
      RequestReadsBack(adj, r, r.emptyLines, queued, RenderRequests(requests[1..]));
      var queued' := queued + [Complete(r.head.Render(), r.body.Data())];
      assert RenderRequests(requests) == EmptyLines(r.emptyLines)
        + (r.head.Render() + r.body.Render() + RenderRequests(requests[1..]));
      AllReadBack(adj, requests[1..], queued');
      assert queued' + Enqueued(requests[1..]) == queued + Enqueued(requests);
    }
  }

  /** An HTTP/1.1 head that asks to be told to continue suspends the stream, whatever follows it. */
  lemma AskingSuspends(adj: Adjustments, head: RequestHead, pieces: seq<Bytes>, queued: seq<Request>, rest: Bytes)
    requires head.Valid() && !adj.uriRefused(head.line.uri) && |head.Render()| < adj.maxHeader
    requires !Repeats(head.fields) && AsksToContinue(head) && Pieces(head.fields, pieces)
    requires var codings := NonEmpty(pieces);
      codings == [] || (|codings| == 1 && Says(codings[0], Ascii("chunked")))
    ensures FeedStream(adj, Reading(FreshRequest, queued), head.Render() + rest) == Suspended(queued)
  {
    hide RequestHead.Render, RequestHead.Valid, ReadHeader, Spells, Says, Pieces, FeedStream, FeedRequest, Taken;
    var block := head.Render();
    HeadIsRead(adj, head, pieces);
    HeaderEnds(false, head);
    assert Header(false, head) == block;
    FeedHeader(adj, [], block);
    assert [] + block == block && block[..|block|] == block && block[|block|..] == [];
    FeedRequestNothing(adj, AfterHeader(adj, block));
    StreamFollowsRequest(adj, FreshRequest, queued, block);
    FeedStreamNothing(adj, Suspended(queued));
    FeedStreamSplit(adj, Reading(FreshRequest, queued), block, rest);
    StaysSuspended(adj, queued, rest);
  }

  lemma StaysSuspended(adj: Adjustments, queued: seq<Request>, s: Bytes)
    ensures FeedStream(adj, Suspended(queued), s) == Suspended(queued)
  {
  }
}
