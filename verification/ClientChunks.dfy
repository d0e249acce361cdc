/** Chunked bodies as clients may write them: sizes in either case of letters and with leading zeros,
    chunk extensions, trailer fields. */
module ClientChunks {
  import opened ByteStrings
  import opened ChunkedCoding
  import opened ChunkFraming
  import opened Spelling

  // ---------- chunk extensions ----------

  predicate IsToken(s: Bytes) {
    s != [] && forall i :: 0 <= i < |s| ==> IsTokenChar(s[i])
  }

  /** What may stand between the quotes: text, with a backslash before any quote or backslash. */
  predicate IsQuotedText(s: Bytes)
    decreases |s|
  {
    || s == []
    || (s[0] == 92 && |s| >= 2 && IsText(s[1]) && IsQuotedText(s[2..]))
    || (s[0] != 92 && s[0] != 34 && IsText(s[0]) && IsQuotedText(s[1..]))
  }

  datatype ExtensionValue = NoValue | Token(text: Bytes) | Quoted(text: Bytes) {
    predicate Valid() {
      match this
      case NoValue => true
      case Token(t) => IsToken(t)
      case Quoted(t) => IsQuotedText(t)
    }

    function Render(): Bytes {
      match this
      case NoValue => []
      case Token(t) => [61] + t
      case Quoted(t) => [61, 34] + t + [34]
    }
  }

  datatype Extension = Extension(name: Bytes, value: ExtensionValue) {
    predicate Valid() { IsToken(name) && value.Valid() }

    function Render(): Bytes { [59] + name + value.Render() }
  }

  predicate ValidExtensions(exts: seq<Extension>) {
    forall e :: e in exts ==> e.Valid()
  }

  function RenderAll(exts: seq<Extension>): Bytes {
    if exts == [] then [] else exts[0].Render() + RenderAll(exts[1..])
  }

  lemma {:induction false} TokenEnds(t: Bytes, rest: Bytes)
    requires forall i :: 0 <= i < |t| ==> IsTokenChar(t[i])
    requires rest == [] || !IsTchar(rest[0])
    ensures TokenLength(t + rest) == |t|
    decreases |t|
  {
    hide IsTokenChar, IsTchar;
    if t == [] {
      assert t + rest == rest;
    } else {
      TokenChars(t[0]);
      assert (t + rest)[1..] == t[1..] + rest;
      TokenEnds(t[1..], rest);
    }
  }

  lemma {:induction false} TokenFound(s: Bytes)
    ensures var n := TokenLength(s);
      && (forall i :: 0 <= i < n ==> IsTokenChar(s[i]))
      && (n < |s| ==> !IsTchar(s[n]))
    decreases |s|
  {
    hide IsTokenChar, IsTchar;
    if s != [] && IsTchar(s[0]) {
      TokenChars(s[0]);
      TokenFound(s[1..]);
      forall i | 0 <= i < TokenLength(s) ensures IsTokenChar(s[i]) {
        assert i > 0 ==> s[i] == s[1..][i - 1];
      }
    }
  }

  lemma {:induction false} QuotedEnds(t: Bytes, rest: Bytes)
    requires IsQuotedText(t)
    ensures QuotedLength(t + [34] + rest) == |t| + 1
    decreases |t|
  {
    hide IsText, IsQdText, IsQuotable;
    var s := t + [34] + rest;
    if t != [] {
      TextChars(t[0]);
      if t[0] == 92 {
        TextChars(t[1]);
        assert s[2..] == t[2..] + [34] + rest;
        QuotedEnds(t[2..], rest);
      } else {
        assert s[1..] == t[1..] + [34] + rest;
        QuotedEnds(t[1..], rest);
      }
    }
  }

  lemma {:induction false} QuotedFound(s: Bytes)
    requires QuotedLength(s) > 0
    ensures var n := QuotedLength(s); s[n - 1] == 34 && IsQuotedText(s[..n - 1])
    decreases |s|
  {
    hide IsText, IsQdText, IsQuotable;
    var n := QuotedLength(s);
    TextChars(s[0]);
    if s[0] == 92 {
      TextChars(s[1]);
      QuotedFound(s[2..]);
      assert s[..n - 1][2..] == s[2..][..n - 3];
    } else if s[0] != 34 {
      QuotedFound(s[1..]);
      assert s[..n - 1][1..] == s[1..][..n - 2];
    }
  }

  lemma RenderedStart(exts: seq<Extension>, end: Bytes)
    requires end == [] || end == [LF]
    ensures var s := RenderAll(exts) + end; s == [] || s[0] == 59 || s[0] == LF
  {
  }

  /** Well-formed extensions are accepted, and so is a final LF after them. */
  lemma {:induction false} ExtensionsAccepted(exts: seq<Extension>, end: Bytes)
    requires ValidExtensions(exts) && (end == [] || end == [LF])
    ensures IsChunkExtension(RenderAll(exts) + end)
    decreases |exts|
  {
    hide IsTokenChar, IsToken, IsQuotedText;
    var s := RenderAll(exts) + end;
    if exts == [] {
      assert s == end;
    } else {
      var e := exts[0];
      assert e in exts;
      var tail := RenderAll(exts[1..]) + end;
      ExtensionsAccepted(exts[1..], end);
      RenderedStart(exts[1..], end);
      assert s == e.Render() + tail;
      OneExtension(e, tail);
    }
  }

  lemma Rendered(e: Extension, t: Bytes, tail: Bytes)
    requires t == e.value.Render() + tail
    ensures [59] + e.name + t == e.Render() + tail
  {
    hide ExtensionValue.Render;
  }

  lemma OneExtension(e: Extension, tail: Bytes)
    requires e.Valid() && IsChunkExtension(tail)
    requires tail == [] || tail[0] == 59 || tail[0] == LF
    ensures IsChunkExtension(e.Render() + tail)
  {
    hide IsTokenChar, IsChunkExtension, TokenLength, ExtensionValueLength, ExtensionValue.Valid;
    hide Extension.Render;
    var u := e.value.Render() + tail;
    Rendered(e, u, tail);
    var s := [59] + e.name + u;
    assert s[1..] == e.name + u;
    TokenEnds(e.name, u);
    ExtensionStep(s, e.name, u);
    if e.value == NoValue {
      assert u == tail;
    } else {
      OneValue(e.value, tail);
      assert u[1 + ExtensionValueLength(u[1..])..] == tail;
    }
  }

  lemma OneValue(v: ExtensionValue, tail: Bytes)
    requires v != NoValue && v.Valid()
    requires tail == [] || tail[0] == 59 || tail[0] == LF
    ensures var u := v.Render() + tail;
      && u[0] == 61
      && ExtensionValueLength(u[1..]) == |v.Render()| - 1 > 0
      && u[|v.Render()|..] == tail
  {
    hide IsTokenChar, IsQuotedText;
    match v
    case Token(t) => TokenValue(t, tail);
    case Quoted(t) => QuotedValue(t, tail);
  }

  lemma TokenValue(t: Bytes, tail: Bytes)
    requires IsToken(t) && (tail == [] || tail[0] == 59 || tail[0] == LF)
    ensures var u := [61] + t + tail; ExtensionValueLength(u[1..]) == |t| && u[|t| + 1..] == tail
  {
    hide IsTokenChar, TokenLength;
    assert ([61] + t + tail)[1..] == t + tail;
    TokenEnds(t, tail);
    TokenChars(t[0]);
  }

  lemma QuotedValue(t: Bytes, tail: Bytes)
    requires IsQuotedText(t)
    ensures var u := [61, 34] + t + [34] + tail;
      ExtensionValueLength(u[1..]) == |t| + 2 && u[|t| + 3..] == tail
  {
    hide QuotedLength, IsQuotedText;
    var u := [61, 34] + t + [34] + tail;
    assert u[1..][1..] == t + [34] + tail;
    QuotedEnds(t, tail);
  }

  lemma ExtensionStep(s: Bytes, name: Bytes, u: Bytes)
    requires s == [59] + name + u && TokenLength(s[1..]) == |name| > 0
    ensures IsChunkExtension(s) <==>
      if |u| > 0 && u[0] == 61 && ExtensionValueLength(u[1..]) > 0
      then IsChunkExtension(u[1 + ExtensionValueLength(u[1..])..])
      else IsChunkExtension(u)
  {
    assert s[1 + |name|..] == u;
  }

  /** Whatever is accepted is a list of well-formed extensions, but for one final LF. */
  lemma {:induction false} ExtensionsRead(s: Bytes) returns (exts: seq<Extension>, end: Bytes)
    requires IsChunkExtension(s)
    ensures ValidExtensions(exts) && (end == [] || end == [LF]) && s == RenderAll(exts) + end
    decreases |s|
  {
    hide IsTokenChar, IsTchar;
    if s == [] || s == [LF] {
      exts, end := [], s;
    } else {
      var e, tail := FirstExtension(s);
      var more;
      more, end := ExtensionsRead(tail);
      exts := [e] + more;
      assert exts[1..] == more;
      assert s == e.Render() + RenderAll(more) + end;
    }
  }

  lemma ExtensionHead(s: Bytes)
    requires IsChunkExtension(s) && s != [] && s != [LF]
    ensures s[0] == 59 && TokenLength(s[1..]) > 0
  {
  }

  lemma FirstExtension(s: Bytes) returns (e: Extension, tail: Bytes)
    requires IsChunkExtension(s) && s != [] && s != [LF]
    ensures e.Valid() && s == e.Render() + tail && IsChunkExtension(tail)
  {
    hide IsTokenChar, IsTchar, TokenLength, ExtensionValueLength, IsChunkExtension, ExtensionValue.Valid;
    ExtensionHead(s);
    var n := TokenLength(s[1..]);
    var name, t := s[1..][..n], s[1 + n..];
    TokenFound(s[1..]);
    assert s == [59] + name + t;
    ExtensionStep(s, name, t);
    var v;
    if |t| > 0 && t[0] == 61 && ExtensionValueLength(t[1..]) > 0 {
      v, tail := FirstValue(t);
    } else {
      v, tail := NoValue, t;
      PlainName(t);
    }
    e := Extension(name, v);
    Rendered(e, t, tail);
  }

  lemma PlainName(t: Bytes)
    ensures NoValue.Valid() && t == NoValue.Render() + t
  {
  }

  lemma FirstValue(t: Bytes) returns (v: ExtensionValue, tail: Bytes)
    requires |t| > 0 && t[0] == 61 && ExtensionValueLength(t[1..]) > 0
    ensures v.Valid() && t == v.Render() + tail && tail == t[1 + ExtensionValueLength(t[1..])..]
  {
    hide IsTokenChar, IsTchar, TokenLength, QuotedLength, IsQuotedText;
    var u := t[1..];
    var k := ExtensionValueLength(u);
    tail := t[1 + k..];
    if u[0] == 34 {
      QuotedInside(u);
      v := Quoted(u[1..k - 1]);
    } else {
      TokenFound(u);
      v := Token(u[..k]);
    }
  }

  lemma QuotedInside(u: Bytes)
    requires u != [] && u[0] == 34 && QuotedLength(u[1..]) > 0
    ensures var k := QuotedLength(u[1..]) + 1; u[k - 1] == 34 && IsQuotedText(u[1..k - 1])
  {
    hide IsQuotedText, QuotedLength;
    QuotedFound(u[1..]);
    var n := QuotedLength(u[1..]);
    assert u[1..][..n - 1] == u[1..n];
  }

  // ---------- size lines ----------

  /** The digits of a control line: everything before the first semicolon. */
  function SizePart(line: Bytes): Bytes {
    var semi := FindSemicolon(line);
    if semi < 0 then line else line[..semi]
  }

  /** s spells n, or does so before one final LF. */
  predicate SpellsUpToLf(s: Bytes, n: nat) {
    Spells(s, n, 16) || (s != [] && s[|s| - 1] == LF && Spells(s[..|s| - 1], n, 16))
  }

  /** A control line announces a size exactly when its digits spell that size, up to one final LF, and
      what follows them is nothing or extensions. */
  lemma SizeLineMeaning(line: Bytes, n: nat)
    ensures ReadSizeLine(line) == Size(n) <==>
      && SpellsUpToLf(SizePart(line), n)
      && (SizePart(line) != line ==> IsChunkExtension(line[|SizePart(line)|..]))
    ensures ReadSizeLine(line) == NoLine <==> line == []
    ensures ReadSizeLine(line) == Rejected(BadExtension)
      <==> 59 in line && !IsChunkExtension(line[|SizePart(line)|..])
  {
    hide Spells, HexValue, IsHexDigit, IsChunkExtension;
    var d := SizePart(line);
    HexSpelling(d, n);
    if d != [] && d[|d| - 1] == LF {
      HexSpelling(d[..|d| - 1], n);
      PlainHexDigit(LF);
      assert !AllHex(d);
    }
    if line == [] {
      assert FindSemicolon(line) == -1;
    }
  }

  lemma ClientSizeLine(size: Bytes, n: nat, exts: seq<Extension>)
    requires Spells(size, n, 16) && ValidExtensions(exts)
    ensures var line := size + RenderAll(exts);
      ReadSizeLine(line) == Size(n) && CR !in line && line != []
  {
    hide Spells, IsChunkExtension, IsHexDigit, HexDigitValue;
    HexSpelling(size, n);
    var ext := RenderAll(exts);
    var line := size + ext;
    forall i | 0 <= i < |size| ensures size[i] != 59 && size[i] != CR && size[i] != LF {
      PlainHexDigit(size[i]);
    }
    ExtensionsAccepted(exts, []);
    assert ext + [] == ext;
    NoReturnInside(exts);
    RenderedStart(exts, []);
    FirstSemicolon(size, ext);
    assert SizePart(line) == size;
    assert line[|size|..] == ext;
    SizeLineMeaning(line, n);
  }

  lemma PlainHexDigit(b: byte)
    ensures IsHexDigit(b) ==> b != 59 && b != CR && b != LF
  {
  }

  lemma FirstSemicolon(a: Bytes, b: Bytes)
    requires forall i :: 0 <= i < |a| ==> a[i] != 59
    requires b == [] || b[0] == 59
    ensures FindSemicolon(a + b) == if b == [] then -1 else |a|
  {
    var s := a + b;
    assert forall i :: 0 <= i < |a| ==> s[i] == a[i];
    if b != [] {
      assert s[|a|] == 59;
    }
  }

  lemma {:induction false} NoReturnInside(exts: seq<Extension>)
    requires ValidExtensions(exts)
    ensures CR !in RenderAll(exts)
  {
    hide IsTokenChar, IsQuotedText;
    if exts != [] {
      var e := exts[0];
      assert e in exts;
      NoReturnInToken(e.name);
      match e.value {
        case NoValue =>
        case Token(t) => NoReturnInToken(t);
        case Quoted(t) => NoReturnInQuotes(t);
      }
      NoReturnInside(exts[1..]);
    }
  }

  lemma NoReturnInToken(s: Bytes)
    requires IsToken(s)
    ensures CR !in s
  {
    TokenChars(CR);
  }

  lemma {:induction false} NoReturnInQuotes(s: Bytes)
    requires IsQuotedText(s)
    ensures CR !in s
    decreases |s|
  {
    if s != [] {
      if s[0] == 92 {
        NoReturnInQuotes(s[2..]);
        assert s == [s[0], s[1]] + s[2..];
      } else {
        NoReturnInQuotes(s[1..]);
        assert s == [s[0]] + s[1..];
      }
    }
  }

  // ---------- bodies ----------

  datatype ClientChunk = ClientChunk(size: Bytes, exts: seq<Extension>, data: Bytes) {
    predicate Valid() {
      data != [] && Spells(size, |data|, 16) && ValidExtensions(exts)
    }

    function Render(): Bytes { size + RenderAll(exts) + CRLF + data + CRLF }
  }

  function RenderChunks(chunks: seq<ClientChunk>): Bytes {
    if chunks == [] then [] else chunks[0].Render() + RenderChunks(chunks[1..])
  }

  function DataOf(chunks: seq<ClientChunk>): Bytes {
    if chunks == [] then [] else chunks[0].data + DataOf(chunks[1..])
  }

  datatype LastChunk = LastChunk(size: Bytes, exts: seq<Extension>, trailer: seq<Bytes>) {
    ghost predicate Valid() {
      Spells(size, 0, 16) && ValidExtensions(exts) && forall l :: l in trailer ==> CleanLine(l)
    }

    function Trailer(): Bytes {
      if trailer == [] then CRLF else JoinLines(trailer) + CRLF + CRLF
    }

    function Render(): Bytes { size + RenderAll(exts) + CRLF + Trailer() }
  }

  ghost predicate ValidBody(chunks: seq<ClientChunk>, last: LastChunk) {
    last.Valid() && forall c :: c in chunks ==> c.Valid()
  }

  function RenderBody(chunks: seq<ClientChunk>, last: LastChunk): Bytes {
    RenderChunks(chunks) + last.Render()
  }

  lemma TrailerStops(last: LastChunk, rest: Bytes)
    requires last.Valid()
    ensures TrailerEnd(last.Trailer() + rest) == |last.Trailer()|
  {
    hide Spells, ValidExtensions;
    var t := last.Trailer() + rest;
    if last.trailer == [] {
      assert CrlfAt(t, 0);
    } else {
      var lines := last.trailer;
      assert lines[0] in lines && CleanLine(lines[0]);
      assert lines[0][0] in lines[0];
      JoinStarts(lines);
      BlockEnd(lines, rest);
      assert t[0] == lines[0][0];
    }
  }

  lemma ClientLine(size: Bytes, n: nat, exts: seq<Extension>, rest: Bytes)
    requires Spells(size, n, 16) && ValidExtensions(exts)
    ensures var line := size + RenderAll(exts); var s := line + CRLF + rest;
      && FindCrlf(s) == |line| && ReadSizeLine(s[..|line|]) == Size(n) && s[|line| + 2..] == rest
  {
    hide Spells, ValidExtensions, ReadSizeLine;
    ClientSizeLine(size, n, exts);
    var line := size + RenderAll(exts);
    assert line[|line| - 1] in line;
    forall i ensures !CrlfAt(line, i) {
      assert 0 <= i < |line| ==> line[i] in line;
    }
    LineThenRest(line, rest);
  }

  lemma DecodeLast(last: LastChunk, rest: Bytes)
    requires last.Valid()
    ensures Decode(last.Render() + rest) == Ended([], |last.Render()|)
  {
    hide Spells, ValidExtensions, ReadSizeLine, FindCrlf, TrailerEnd, LastChunk.Trailer, Decode;
    var t := last.Trailer() + rest;
    var line := last.size + RenderAll(last.exts);
    assert last.Render() + rest == line + CRLF + t;
    ClientLine(last.size, 0, last.exts, t);
    TrailerStops(last, rest);
    DecodeZero(line + CRLF + t, |line|);
  }

  lemma DecodeChunk(c: ClientChunk, rest: Bytes)
    requires c.Valid()
    ensures Decode(c.Render() + rest) == After(c.data, |c.Render()|, Decode(rest))
  {
    hide Spells, ValidExtensions, ReadSizeLine, FindCrlf, Decode;
    var t := c.data + CRLF + rest;
    var line := c.size + RenderAll(c.exts);
    assert c.Render() + rest == line + CRLF + t;
    ClientLine(c.size, |c.data|, c.exts, t);
    assert t[..|c.data|] == c.data && CrlfAt(t, |c.data|) && t[|c.data| + 2..] == rest;
    DecodeSize(line + CRLF + t, |line|, |c.data|);
  }

  /** The one-shot decoder reads any well-formed chunked body as the data of its chunks, and stops at
      its end. */
  lemma {:induction false} DecodeBody(chunks: seq<ClientChunk>, last: LastChunk, rest: Bytes)
    requires ValidBody(chunks, last)
    ensures var s := RenderBody(chunks, last); Decode(s + rest) == Ended(DataOf(chunks), |s|)
    decreases |chunks|
  {
    hide Decode, LastChunk.Valid, LastChunk.Render, ClientChunk.Valid, ClientChunk.Render;
    if chunks == [] {
      assert RenderBody(chunks, last) == last.Render();
      DecodeLast(last, rest);
    } else {
      var c, more := chunks[0], RenderBody(chunks[1..], last);
      assert c in chunks;
      assert RenderBody(chunks, last) == c.Render() + more;
      assert RenderBody(chunks, last) + rest == c.Render() + (more + rest);
      DecodeChunk(c, more + rest);
      DecodeBody(chunks[1..], last, rest);
    }
  }

  /** However a well-formed chunked body and what follows it are cut into pieces, the decoder ends with
      the data of its chunks and has taken the body and nothing of what follows. */
  lemma ClientChunksReadBack(chunks: seq<ClientChunk>, last: LastChunk, rest: Bytes, pieces: seq<Bytes>)
    requires ValidBody(chunks, last)
    requires Join(pieces) == RenderBody(chunks, last) + rest
    ensures FeedAll(FreshDecoder, pieces) == Decoder(Done, DataOf(chunks))
    ensures EatenAll(FreshDecoder, pieces) == |RenderBody(chunks, last)|
  {
    DecoderMeetsOneShot(pieces);
    DecodeBody(chunks, last, rest);
  }
}
