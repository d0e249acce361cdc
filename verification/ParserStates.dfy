/** The values of a request parser's fields, and the request they stand for. */
module ParserStates {
  import opened ByteStrings
  import opened Wrappers
  import opened ChunkedCoding
  import opened Headers
  import opened Requests

  datatype Receiver =
    | NoReceiver
    | FixedReceiver(remain: int, received: Bytes)
    | ChunkReceiver(decoder: Decoder)

  datatype Parser = Parser(
    completed: bool,
    empty: bool,
    expectContinue: bool,
    headersFinished: bool,
    headerPlus: Bytes,
    headerBytes: nat,
    bodyBytes: nat,
    contentLength: nat,
    receiver: Receiver,
    error: Option<Refusal>,
    headers: HeaderMap,
    block: Bytes)
  {
    function Body(): Bytes {
      match receiver
      case NoReceiver => []
      case FixedReceiver(_, body) => body
      case ChunkReceiver(d) => d.body
    }

    function State(): Request {
      if completed then
        if error.Some? then Refused(error.value, expectContinue)
        else if empty then Blank
        else Complete(block, Body())
      else
        match receiver
        case NoReceiver => InHeader(headerPlus)
        case FixedReceiver(remain, body) => InFixed(block, |body| + if remain < 0 then 0 else remain, body)
        case ChunkReceiver(d) => InChunked(block, d, bodyBytes)
    }

    /** What the application sees of the header block: the length of a chunked body is that of the
        decoded one. */
    function Dictionary(adj: Adjustments): HeaderMap {
      var h := ReadHeader(adj, block).1;
      if State().Complete? && receiver.ChunkReceiver? then h[CONTENT_LENGTH := Decimal(|Body()|)] else h
    }

    /** Nothing has been made of the header yet. */
    predicate BeforeHeader() {
      && !completed && error.None? && receiver.NoReceiver?
      && !empty && !headersFinished && !expectContinue
      && headers == map[] && contentLength == 0 && bodyBytes == 0 && block == []
    }

    /** The fields agree with the state they stand for. Sending a 100 Continue can break this,
        because it marks the request as not completed. */
    ghost predicate Tracks(adj: Adjustments) {
      && RequestExpects(adj, State()) == expectContinue
      && (empty ==> completed && error.None?)
      && (expectContinue ==> headersFinished)
      && (State().InFixed? || State().InChunked? || State().Complete? ==> block != [])
      && (block != [] ==> headers == Dictionary(adj))
      && (!completed ==>
        match receiver
        case NoReceiver =>
          BeforeHeader() && headerBytes == |headerPlus| && (headerPlus == [] || |headerPlus| < adj.maxHeader)
        case FixedReceiver(remain, body) =>
          && error.None? && !empty && headersFinished
          && remain > 0 && contentLength == remain + |body| < adj.maxBody && bodyBytes == |body|
        case ChunkReceiver(d) =>
          && error.None? && !empty && headersFinished
          && !d.Halted() && d.Wf() && (bodyBytes == 0 || bodyBytes < adj.maxBody))
    }
  }

  const NewParser := Parser(false, false, false, false, [], 0, 0, 0, NoReceiver, None, map[], [])

  /** The effect of `parse_header`, given its verdict. */
  function WithHead(p: Parser, head: Head, h: HeaderMap): Parser {
    match head
    case Malformed(e) => p.(expectContinue := e, headers := h)
    case Unsupported => p.(headers := h)
    case Head(NoBody, e) => p.(expectContinue := e, headers := h, contentLength := 0)
    case Head(Fixed(n), e) =>
      p.(expectContinue := e, headers := h, contentLength := n, receiver := FixedReceiver(n, []))
    case Head(Chunked, e) =>
      p.(expectContinue := e, headers := h, receiver := ChunkReceiver(FreshDecoder))
  }

  /** The effect of that verdict on the request, once the receiver is in place. */
  function Decided(adj: Adjustments, q: Parser, head: Head): Parser {
    match head
    case Malformed(_) => q.(error := Some(BadHeader), completed := true)
    case Unsupported => q.(error := Some(CodingNotImplemented), completed := true)
    case Head(_, _) =>
      var q' := if q.receiver.NoReceiver? then q.(completed := true) else q;
      if q'.contentLength > 0 && q'.contentLength >= adj.maxBody
      then q'.(error := Some(BodyTooLarge), completed := true) else q'
  }

  function WithBlock(adj: Adjustments, p: Parser, blk: Bytes): Parser {
    var r := ReadHeaderInto(adj, blk, p.headers);
    Decided(adj, WithHead(p.(block := blk), r.0, r.1), r.0)
  }

  /** The effect of a complete header block. */
  function HeaderDone(adj: Adjustments, p: Parser, blk: Bytes): Parser {
    if blk == [] then p.(empty := true, completed := true, headersFinished := true)
    else WithBlock(adj, p, blk).(headersFinished := true)
  }

  /** The effect of the checks made after a piece of the body has been received. */
  function Checked(adj: Adjustments, q: Parser): Parser {
    if q.bodyBytes >= adj.maxBody then q.(error := Some(BodyTooLarge), completed := true)
    else
      match q.receiver
      case NoReceiver => q
      case FixedReceiver(remain, _) => if remain == 0 then q.(completed := true) else q
      case ChunkReceiver(d) =>
        match d.phase
        case Failed(e) => q.(error := Some(BadBody(e)), completed := true)
        case Done => q.(completed := true, headers := q.headers[CONTENT_LENGTH := Decimal(|d.body|)])
        case _ => q
  }

  /** Once its body is whole or refused, a request is completed; nothing else changes. */
  lemma CheckedFacts(adj: Adjustments, q: Parser)
    ensures var r := Checked(adj, q);
      && r.expectContinue == q.expectContinue && r.receiver == q.receiver
      && (q.receiver.FixedReceiver? && q.receiver.remain == 0 ==> r.completed)
      && (q.receiver.ChunkReceiver? && q.receiver.decoder.Halted() ==> r.completed)
  {
  }

  /** The effect of a piece of the body: the receiver took n bytes and is now r. */
  function BodyPiece(adj: Adjustments, p: Parser, r: Receiver, n: nat): Parser {
    Checked(adj, p.(receiver := r, bodyBytes := p.bodyBytes + n))
  }

  /** Cutting the stream differently can only turn a refused chunked body into one that is too large. */
  predicate Refines(spec: Request, got: Request) {
    || got == spec
    || (spec.Refused? && spec.reason.BadBody? && got == Refused(BodyTooLarge, spec.expects))
  }

  /** A chunk error is refused as the byte-at-a-time reader refuses it, unless the bytes that the call
      reports after the offending one reach the body limit. */
  predicate SameRefusal(adj: Adjustments, v: Parser, data: Bytes)
    requires v.receiver.ChunkReceiver? && !v.receiver.decoder.Halted() && v.receiver.decoder.Wf()
  {
    var d := v.receiver.decoder;
    Feed(d, data).phase.Failed? ==>
      !(v.bodyBytes + Eaten(d, data) < adj.maxBody <= v.bodyBytes + Reported(d, data))
  }

  /** What a call on a chunked body consumes and makes of it, from the state and the data alone. */
  ghost predicate ChunksExactly(adj: Adjustments, v: Parser, data: Bytes, n: nat, v': Parser) {
    v.receiver.ChunkReceiver? && !v.completed && v.Tracks(adj) && data != [] ==>
      && n == Reported(v.receiver.decoder, data)
      && (v'.State() == FeedRequest(adj, v.State(), data) <==> SameRefusal(adj, v, data))
  }

  /** What one call of `received` owes: progress, and the byte-at-a-time reader's view of the n
      bytes it consumed. */
  ghost predicate Advances(adj: Adjustments, v: Parser, data: Bytes, n: nat, v': Parser) {
    && n <= |data|
    && (data != [] && n == 0 ==> v'.completed)
    && (data != [] && !v.completed && v.Tracks(adj) ==> 1 <= n)
    && ChunksExactly(adj, v, data, n, v')
    && (v.Tracks(adj) && data != [] ==>
      && v'.Tracks(adj)
      && Refines(FeedRequest(adj, v.State(), data[..n]), v'.State())
      && (!v'.State().Refused? ==> n == Taken(adj, v.State(), data[..n])))
  }

  lemma HeaderDoneTracks(adj: Adjustments, p: Parser, blk: Bytes)
    requires p.BeforeHeader() && blk == LStrip(blk)
    ensures var q := HeaderDone(adj, p, blk);
      && q.Tracks(adj) && q.State() == AfterHeader(adj, blk)
      && q.headerPlus == p.headerPlus
  {
    hide ReadHeaderInto, LStrip, Decimal;
    if blk != [] {
      assert Expects(adj, blk) == match ReadHeaderInto(adj, blk, map[]).0
        case Head(_, e) => e
        case Malformed(e) => e
        case Unsupported => false;
      var head := ReadHeaderInto(adj, blk, map[]).0;
      if head.Head? && head.framing.Fixed? {
        FixedIsPositive(adj, blk);
      }
    }
  }

  /** The effect of a piece of the header, and the bytes it consumes. */
  function HeaderStep(adj: Adjustments, p: Parser, data: Bytes): (Parser, int)
    requires FindDoubleNewline(p.headerPlus) < 0
  {
    var s := p.headerPlus + data;
    var index := FindDoubleNewline(s);
    var q := p.(headerBytes := if index >= 0 then index else p.headerBytes + |data|);
    var consumed := if index >= 0 then |data| - (|s| - index) else |data|;
    if q.headerBytes >= adj.maxHeader then (q.(error := Some(HeaderTooLarge), completed := true), consumed)
    else if index >= 0 then (HeaderDone(adj, q, LStrip(s[..index])), consumed)
    else (q.(headerPlus := s), consumed)
  }

  lemma HeaderStepTakes(adj: Adjustments, p: Parser, data: Bytes)
    requires FindDoubleNewline(p.headerPlus) < 0
    ensures var n := HeaderStep(adj, p, data).1; 0 <= n <= |data| && (data != [] ==> 1 <= n)
  {
    hide FindDoubleNewline, HeaderDone;
    NewBlankLine(p.headerPlus, data);
  }

  /** A piece of the header moves fields and reader alike. */
  lemma HeaderStepTracks(adj: Adjustments, p: Parser, data: Bytes)
    requires p.Tracks(adj) && !p.completed && p.receiver.NoReceiver? && data != []
    requires FindDoubleNewline(p.headerPlus) < 0
    ensures var (q, n) := HeaderStep(adj, p, data);
      && 0 <= n <= |data| && q.Tracks(adj)
      && q.State() == FeedRequest(adj, p.State(), data[..n])
      && (!q.State().Refused? ==> n == Taken(adj, p.State(), data[..n]))
  {
    hide FeedRequest, Taken, FindDoubleNewline, AfterHeader, HeaderDone, Decimal, LStrip, ReadHeader;
    HeaderStepTakes(adj, p, data);
    HeaderPiece(adj, p.headerPlus, data);
    var s := p.headerPlus + data;
    var index := FindDoubleNewline(s);
    if 0 <= index < adj.maxHeader {
      LStripTwice(s[..index]);
      AfterHeaderStripped(adj, s[..index]);
      HeaderDoneTracks(adj, p.(headerBytes := index), LStrip(s[..index]));
    }
  }

  lemma FixedIsPositive(adj: Adjustments, blk: Bytes)
    requires ReadHeader(adj, blk).0.Head? && ReadHeader(adj, blk).0.framing.Fixed?
    ensures ReadHeader(adj, blk).0.framing.length > 0
  {
    hide AddLines, FoldLines, CrackFirstLine, Encodings, SplitCommas, FindCrlf, RStrip, SplitLines, VisibleHeaders,
      OnlyDigits, DecimalValue;
  }

  lemma FixedPieceTracks(adj: Adjustments, p: Parser, data: Bytes)
    requires p.Tracks(adj) && !p.completed && p.receiver.FixedReceiver?
    requires 0 < |data| <= p.receiver.remain
    ensures var q := BodyPiece(adj, p, FixedReceiver(p.receiver.remain - |data|, p.receiver.received + data), |data|);
      && q.Tracks(adj)
      && q.State() == FeedRequest(adj, p.State(), data)
      && |data| == Taken(adj, p.State(), data)
  {
    hide FeedRequest, Taken, Expects, Decimal, ReadHeader, Decoder.Wf;
    var body := p.receiver.received;
    FeedFixed(adj, p.block, |body| + p.receiver.remain, body, data);
    assert data[..|data|] == data;
  }

  lemma ChunkPieceTracks(adj: Adjustments, p: Parser, data: Bytes, n: nat)
    requires p.Tracks(adj) && !p.completed && p.receiver.ChunkReceiver? && data != []
    requires var d := p.receiver.decoder;
      Eaten(d, data) <= n <= |data| && (!Feed(d, data).phase.Failed? ==> n == Eaten(d, data))
    ensures 1 <= n
    ensures var q := BodyPiece(adj, p, ChunkReceiver(Feed(p.receiver.decoder, data)), n);
      && q.Tracks(adj)
      && Refines(FeedRequest(adj, p.State(), data[..n]), q.State())
      && (!q.State().Refused? ==> n == Taken(adj, p.State(), data[..n]))
  {
    hide FeedRequest, Taken, Expects, Feed, Eaten, Decimal, ReadHeader, Decoder.Wf;
    FeedKeepsWf(p.receiver.decoder, data);
    FeedPrefix(p.receiver.decoder, data, n);
    FeedChunked(adj, p.block, p.receiver.decoder, p.bodyBytes, data[..n]);
  }

  lemma RefusalByCut(adj: Adjustments, p: Parser, data: Bytes)
    requires p.Tracks(adj) && !p.completed && p.receiver.ChunkReceiver? && data != []
    ensures var d := p.receiver.decoder;
      var got := BodyPiece(adj, p, ChunkReceiver(Feed(d, data)), Reported(d, data)).State();
      && (got == FeedRequest(adj, p.State(), data) <==> SameRefusal(adj, p, data))
      && (!SameRefusal(adj, p, data) ==> got == Refused(BodyTooLarge, p.expectContinue))
  {
    hide FeedRequest, Taken, Expects, Feed, Eaten, Decimal, Reported, ReadHeader;
    var d := p.receiver.decoder;
    FeedChunked(adj, p.block, d, p.bodyBytes, data);
    ReportsClean(d, data);
    assert Expects(adj, p.block) == p.expectContinue;
  }

  lemma StillDecoding(adj: Adjustments, p: Parser)
    requires p.Tracks(adj) && !p.completed && p.receiver.ChunkReceiver?
    ensures !p.receiver.decoder.Halted() && p.receiver.decoder.Wf()
  {
  }

  lemma ReportsClean(d: Decoder, s: Bytes)
    requires !d.Halted() && d.Wf()
    ensures !Feed(d, s).phase.Failed? ==> Reported(d, s) == Eaten(d, s)
    ensures Eaten(d, s) <= Reported(d, s)
  {
    ReportedBounds(d, s);
  }

  /** A size line of two bytes, refused; with four more bytes in the same piece it is refused as too large. */
  lemma RefusalDependsOnTheCut(adj: Adjustments, p: Parser)
    requires p.Tracks(adj) && !p.completed && p.receiver == ChunkReceiver(FreshDecoder)
    requires p.bodyBytes == 0 && adj.maxBody == 5
    ensures var d := FreshDecoder; var line: Bytes := [122, 122, CR, LF]; var more := line + line;
      && BodyPiece(adj, p, ChunkReceiver(Feed(d, line)), Reported(d, line)).State() == Refused(BadBody(BadSize), p.expectContinue)
      && BodyPiece(adj, p, ChunkReceiver(Feed(d, more)), Reported(d, more)).State() == Refused(BodyTooLarge, p.expectContinue)
  {
    hide Feed, Eaten, Decimal, FeedRequest, ReadHeader;
    var line: Bytes := [122, 122, CR, LF];
    BadLine([]);
    BadLine(line);
    assert line + [] == line;
  }

  lemma BadLine(rest: Bytes)
    ensures var s: Bytes := [122, 122, CR, LF] + rest;
      Feed(FreshDecoder, s).phase == Failed(BadSize) && Eaten(FreshDecoder, s) == 4
  {
    hide Feed, Eaten;
    var s: Bytes := [122, 122, CR, LF] + rest;
    FeedLine([], [], s);
    assert [] + s == s;
    FindCrlfUnique(s, 2);
    var line := s[..2];
    assert line == [122, 122] && FindSemicolon(line) < 0;
    assert DropFinalLf(line) == line && !IsHexDigit(line[0]);
    assert ReadSizeLine(line) == Rejected(BadSize);
    FeedHalted(Decoder(Failed(BadSize), []), s[4..]);
  }
}
