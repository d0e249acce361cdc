/** Reading requests off a connection one byte at a time: the reference that the parser and the
    channel are held to. */
module Requests {
  import opened ByteStrings
  import opened ChunkedCoding
  import opened Headers

  datatype Refusal =
    | BadHeader              // 400
    | CodingNotImplemented   // 501
    | HeaderTooLarge         // 431
    | BodyTooLarge           // 413
    | BadBody(error: ChunkError)  // 400

  datatype Request =
    | InHeader(carry: Bytes)
    | InFixed(block: Bytes, length: nat, body: Bytes)
    | InChunked(block: Bytes, decoder: Decoder, count: nat)
    | Blank
    | Complete(block: Bytes, body: Bytes)
    | Refused(reason: Refusal, expects: bool)
  {
    predicate Finished() { Blank? || Complete? || Refused? }

    /** What the carried-over bytes and counters can be. */
    predicate Wf(adj: Adjustments) {
      match this
      case InHeader(c) => FindDoubleNewline(c) < 0 && (c == [] || |c| < adj.maxHeader)
      case InFixed(_, n, body) => |body| < n
      case InChunked(_, d, k) => d.Wf() && !d.Halted() && (k == 0 || k < adj.maxBody)
      case _ => true
    }
  }

  const FreshRequest := InHeader([])

  function Expects(adj: Adjustments, block: Bytes): bool {
    match ReadHeader(adj, block).0
    case Head(_, e) => e
    case Malformed(e) => e
    case Unsupported => false
  }

  /** A header block with its blank line: what follows it, or the verdict. */
  function AfterHeader(adj: Adjustments, raw: Bytes): Request {
    var block := LStrip(raw);
    if block == [] then Blank
    else
      match ReadHeader(adj, block).0
      case Malformed(e) => Refused(BadHeader, e)
      case Unsupported => Refused(CodingNotImplemented, false)
      case Head(NoBody, _) => Complete(block, [])
      case Head(Fixed(n), e) =>
        if n == 0 then Complete(block, [])
        else if n >= adj.maxBody then Refused(BodyTooLarge, e)
        else InFixed(block, n, [])
      case Head(Chunked, _) => InChunked(block, FreshDecoder, 0)
  }

  lemma {:induction false} LStripTwice(s: Bytes)
    ensures LStrip(LStrip(s)) == LStrip(s)
  {
    var t := LStrip(s);
    assert t == [] || !IsSpace(t[0]);
  }

  lemma AfterHeaderStripped(adj: Adjustments, raw: Bytes)
    ensures AfterHeader(adj, LStrip(raw)) == AfterHeader(adj, raw)
  {
    hide ReadHeader, LStrip;
    LStripTwice(raw);
  }

  function StepChunked(adj: Adjustments, block: Bytes, d: Decoder, count: nat): Request {
    if count >= adj.maxBody then Refused(BodyTooLarge, Expects(adj, block))
    else
      match d.phase
      case Failed(e) => Refused(BadBody(e), Expects(adj, block))
      case Done => Complete(block, d.body)
      case _ => InChunked(block, d, count)
  }

  function StepRequest(adj: Adjustments, r: Request, b: byte): Request {
    match r
    case InHeader(c) =>
      var t := c + [b];
      if |t| >= adj.maxHeader then Refused(HeaderTooLarge, false)
      else if BlankAt(t, |t| - 4) then AfterHeader(adj, t)
      else InHeader(t)
    case InFixed(block, n, body) =>
      if |body| + 1 >= n then Complete(block, body + [b]) else InFixed(block, n, body + [b])
    case InChunked(block, d, k) => StepChunked(adj, block, Step(d, b), k + 1)
    case _ => r
  }

  function FeedRequest(adj: Adjustments, r: Request, s: Bytes): Request
    decreases |s|
  {
    if s == [] || r.Finished() then r else FeedRequest(adj, StepRequest(adj, r, s[0]), s[1..])
  }

  /** How many bytes of s are taken until the request is finished. */
  function Taken(adj: Adjustments, r: Request, s: Bytes): (n: nat)
    ensures n <= |s|
    ensures !FeedRequest(adj, r, s).Finished() ==> n == |s|
    ensures s != [] && !r.Finished() ==> 1 <= n
    decreases |s|
  {
    if s == [] || r.Finished() then 0 else 1 + Taken(adj, StepRequest(adj, r, s[0]), s[1..])
  }

  lemma FeedRequestNothing(adj: Adjustments, r: Request)
    ensures FeedRequest(adj, r, []) == r && Taken(adj, r, []) == 0
  {
  }

  lemma FeedRequestFinished(adj: Adjustments, r: Request, s: Bytes)
    ensures r.Finished() ==> FeedRequest(adj, r, s) == r && Taken(adj, r, s) == 0
  {
  }

  lemma FeedRequestFirst(adj: Adjustments, r: Request, s: Bytes)
    requires s != [] && !r.Finished()
    ensures FeedRequest(adj, r, s) == FeedRequest(adj, StepRequest(adj, r, s[0]), s[1..])
    ensures Taken(adj, r, s) == 1 + Taken(adj, StepRequest(adj, r, s[0]), s[1..])
  {
    hide StepRequest;
  }

  lemma {:induction false} FeedRequestSplit(adj: Adjustments, r: Request, a: Bytes, b: Bytes)
    ensures FeedRequest(adj, r, a + b) == FeedRequest(adj, FeedRequest(adj, r, a), b)
    ensures Taken(adj, r, a + b) == Taken(adj, r, a) + Taken(adj, FeedRequest(adj, r, a), b)
    decreases |a|
  {
    hide StepRequest;
    if a == [] {
      assert a + b == b;
    } else if !r.Finished() {
      assert (a + b)[1..] == a[1..] + b;
      FeedRequestSplit(adj, StepRequest(adj, r, a[0]), a[1..], b);
    }
  }

  /** Whatever has been read, what is carried over is not yet a header block, the body is not yet whole,
      and no limit has been reached. */
  lemma {:induction false} FeedRequestKeepsWf(adj: Adjustments, r: Request, s: Bytes)
    requires r.Wf(adj)
    ensures FeedRequest(adj, r, s).Wf(adj)
    decreases |s|
  {
    hide Request.Wf, StepRequest;
    if s != [] && !r.Finished() {
      StepRequestKeepsWf(adj, r, s[0]);
      FeedRequestKeepsWf(adj, StepRequest(adj, r, s[0]), s[1..]);
    }
  }

  lemma StepRequestKeepsWf(adj: Adjustments, r: Request, b: byte)
    requires r.Wf(adj)
    ensures StepRequest(adj, r, b).Wf(adj)
  {
    hide ReadHeader, Step, FindDoubleNewline, LStrip;
    match r
    case InHeader(c) => HeaderByteKeepsWf(adj, c, b);
    case InChunked(_, d, _) => StepKeepsWf(d, b);
    case _ =>
  }

  lemma HeaderByteKeepsWf(adj: Adjustments, c: Bytes, b: byte)
    requires FindDoubleNewline(c) < 0
    ensures StepRequest(adj, InHeader(c), b).Wf(adj)
  {
    hide ReadHeader, LStrip;
    var t := c + [b];
    NothingTaken();
    if !BlankAt(t, |t| - 4) {
      assert forall i :: !BlankAt(c, i);
      assert forall i :: i < |t| - 4 ==> (BlankAt(t, i) <==> BlankAt(c, i));
    }
  }

  lemma NothingTaken()
    ensures FreshDecoder.Wf() && !FreshDecoder.Halted()
  {
  }

  // ---------- what a run of bytes does in each phase ----------

  lemma {:induction false} FeedHeader(adj: Adjustments, c: Bytes, s: Bytes)
    requires FindDoubleNewline(c) < 0 && s != []
    requires c == [] || |c| < adj.maxHeader
    ensures var t := c + s; var p := FindDoubleNewline(t); var r := InHeader(c);
      if p >= 0 && p < adj.maxHeader then
        && |c| < p
        && FeedRequest(adj, r, s) == FeedRequest(adj, AfterHeader(adj, t[..p]), t[p..])
        && Taken(adj, r, s) == p - |c| + Taken(adj, AfterHeader(adj, t[..p]), t[p..])
      else if p >= 0 || |t| >= adj.maxHeader then
        && (p >= 0 ==> |c| < p)
        && FeedRequest(adj, r, s) == Refused(HeaderTooLarge, false)
        && Taken(adj, r, s) <= if p >= 0 then p - |c| else |s|
      else FeedRequest(adj, r, s) == InHeader(t)
    decreases |s|
  {
    hide AfterHeader;
    var t := c + s;
    var p := FindDoubleNewline(t);
    var c' := c + [s[0]];
    assert c' + s[1..] == t;
    NewBlankLine(c, s);
    if |c'| >= adj.maxHeader {
      FeedRequestFinished(adj, Refused(HeaderTooLarge, false), s[1..]);
    } else if BlankAt(c', |c'| - 4) {
      assert BlankAt(t, |c'| - 4);
      forall i | 0 <= i < |c'| - 4 ensures !BlankAt(t, i) {
        assert !BlankAt(c, i);
      }
      FindDoubleNewlineUnique(t, |c'| - 4);
      assert t[..p] == c' && t[p..] == s[1..];
    } else {
      forall i ensures !BlankAt(c', i) {
        assert !BlankAt(c, i);
      }
      if s[1..] != [] {
        FeedHeader(adj, c', s[1..]);
      } else {
        assert t == c';
      }
    }
  }

  /** A piece of the header, up to the blank line if it has come. */
  lemma HeaderPiece(adj: Adjustments, c: Bytes, s: Bytes)
    requires FindDoubleNewline(c) < 0 && s != []
    requires c == [] || |c| < adj.maxHeader
    ensures var t := c + s; var p := FindDoubleNewline(t); var r := InHeader(c);
      var n := if p >= 0 then p - |c| else |s|;
      && 0 < n
      && (if (if p >= 0 then p else |t|) >= adj.maxHeader then
          FeedRequest(adj, r, s[..n]) == Refused(HeaderTooLarge, false)
        else
          && FeedRequest(adj, r, s[..n]) == (if p >= 0 then AfterHeader(adj, t[..p]) else InHeader(t))
          && Taken(adj, r, s[..n]) == n)
  {
    hide AfterHeader, FeedRequest, Taken;
    var t := c + s;
    var p := FindDoubleNewline(t);
    NewBlankLine(c, s);
    var n := if p >= 0 then p - |c| else |s|;
    var u := c + s[..n];
    if p >= 0 {
      assert u == t[..p];
      assert BlankAt(u, p - 4);
      forall i | 0 <= i < p - 4 ensures !BlankAt(u, i) {
        assert !BlankAt(t, i);
      }
      FindDoubleNewlineUnique(u, p - 4);
      FeedRequestNothing(adj, AfterHeader(adj, u));
      assert u[..p] == u && u[p..] == [];
    } else {
      assert u == t;
    }
    FeedHeader(adj, c, s[..n]);
  }

  /** A blank line that was not there ends inside what is appended. */
  lemma NewBlankLine(c: Bytes, s: Bytes)
    requires FindDoubleNewline(c) < 0
    ensures FindDoubleNewline(c + s) >= 0 ==> |c| < FindDoubleNewline(c + s)
  {
    var p := FindDoubleNewline(c + s);
    if p >= 0 {
      assert p <= |c| ==> BlankAt(c, p - 4);
    }
  }

  lemma {:induction false} FeedFixed(adj: Adjustments, block: Bytes, n: nat, body: Bytes, s: Bytes)
    requires |body| < n
    ensures var r := InFixed(block, n, body); var k := n - |body|;
      if |s| < k then FeedRequest(adj, r, s) == InFixed(block, n, body + s)
      else
        && FeedRequest(adj, r, s) == Complete(block, body + s[..k])
        && Taken(adj, r, s) == k
    decreases |s|
  {
    hide AfterHeader, StepChunked;
    if s == [] {
      assert body + s == body;
    } else {
      var body' := body + [s[0]];
      assert body' + s[1..] == body + s;
      if |body'| >= n {
        assert s[..1] == [s[0]];
        FeedRequestFinished(adj, Complete(block, body'), s[1..]);
      } else {
        FeedFixed(adj, block, n, body', s[1..]);
        if |s| >= n - |body| {
          assert body' + s[1..][..n - |body'|] == body + s[..n - |body|];
        }
      }
    }
  }

  lemma {:induction false} FeedChunked(adj: Adjustments, block: Bytes, d: Decoder, count: nat, s: Bytes)
    requires !d.Halted() && s != []
    requires count == 0 || count < adj.maxBody
    ensures var r := InChunked(block, d, count); var d' := Feed(d, s); var k := Eaten(d, s);
      && FeedRequest(adj, r, s) == StepChunked(adj, block, d', count + k)
      && (if count + k >= adj.maxBody then Taken(adj, r, s) <= k else Taken(adj, r, s) == k)
    decreases |s|
  {
    hide AfterHeader, Expects, Step, Feed, Eaten, FeedRequest, Taken;
    FeedFirst(d, s);
    FeedRequestFirst(adj, InChunked(block, d, count), s);
    var d1 := Step(d, s[0]);
    if count + 1 >= adj.maxBody {
      assert StepChunked(adj, block, d1, count + 1).Finished();
      FeedRequestFinished(adj, StepChunked(adj, block, d1, count + 1), s[1..]);
    } else if d1.Halted() {
      FeedHalted(d1, s[1..]);
      FeedRequestFinished(adj, StepChunked(adj, block, d1, count + 1), s[1..]);
    } else if s[1..] == [] {
      FeedNothing(d1);
      FeedRequestNothing(adj, InChunked(block, d1, count + 1));
    } else {
      FeedChunked(adj, block, d1, count + 1, s[1..]);
    }
  }

  // ---------- the stream of requests ----------

  /** Requests enqueued so far. The stream is followed up to the first refused request, or up to a
      request that asks for a 100 Continue. */
  datatype Stream =
    | Reading(current: Request, queued: seq<Request>)
    | Stopped(queued: seq<Request>)
    | Suspended(queued: seq<Request>)

  predicate RequestExpects(adj: Adjustments, r: Request) {
    match r
    case InFixed(block, _, _) => Expects(adj, block)
    case InChunked(block, _, _) => Expects(adj, block)
    case Complete(block, _) => Expects(adj, block)
    case Refused(_, e) => e
    case _ => false
  }

  /** What becomes of the stream when the current request has become r. */
  function Settle(adj: Adjustments, r: Request, queued: seq<Request>): Stream {
    if RequestExpects(adj, r) then Suspended(queued)
    else
      match r
      case Blank => Reading(FreshRequest, queued)
      case Complete(_, _) => Reading(FreshRequest, queued + [r])
      case Refused(_, _) => Stopped(queued + [r])
      case _ => Reading(r, queued)
  }

  function FeedStream(adj: Adjustments, st: Stream, s: Bytes): Stream
    decreases |s|
  {
    if s == [] || !st.Reading? then st
    else FeedStream(adj, Settle(adj, StepRequest(adj, st.current, s[0]), st.queued), s[1..])
  }

  lemma {:induction false} FeedStreamSplit(adj: Adjustments, st: Stream, a: Bytes, b: Bytes)
    ensures FeedStream(adj, st, a + b) == FeedStream(adj, FeedStream(adj, st, a), b)
    decreases |a|
  {
    hide StepRequest, Settle;
    if a == [] {
      assert a + b == b;
    } else if st.Reading? {
      assert (a + b)[1..] == a[1..] + b;
      FeedStreamSplit(adj, Settle(adj, StepRequest(adj, st.current, a[0]), st.queued), a[1..], b);
    }
  }

  function FeedPieces(adj: Adjustments, st: Stream, pieces: seq<Bytes>): Stream
    decreases |pieces|
  {
    if pieces == [] then st else FeedPieces(adj, FeedStream(adj, st, pieces[0]), pieces[1..])
  }

  /** No cut of the stream changes what is enqueued or what is pending. */
  lemma {:induction false} StreamCutIndependence(adj: Adjustments, st: Stream, pieces: seq<Bytes>)
    ensures FeedPieces(adj, st, pieces) == FeedStream(adj, st, Join(pieces))
    decreases |pieces|
  {
    if pieces != [] {
      FeedStreamSplit(adj, st, pieces[0], Join(pieces[1..]));
      StreamCutIndependence(adj, FeedStream(adj, st, pieces[0]), pieces[1..]);
    }
  }

  /** Until a request finishes or asks to be told to continue, the stream follows the request. */
  lemma {:induction false} StreamFollowsRequest(adj: Adjustments, r: Request, queued: seq<Request>, s: Bytes)
    requires !r.Finished() && !RequestExpects(adj, r) && s != []
    ensures var r' := FeedRequest(adj, r, s); var n := Taken(adj, r, s);
      FeedStream(adj, Reading(r, queued), s) ==
        if r'.Finished() || RequestExpects(adj, r') then FeedStream(adj, Settle(adj, r', queued), s[n..])
        else Reading(r', queued)
    decreases |s|
  {
    hide StepRequest, RequestExpects;
    var r1 := StepRequest(adj, r, s[0]);
    if RequestExpects(adj, r1) {
      ExpectationLasts(adj, r1, s[1..]);
    } else if r1.Finished() {
      FeedRequestFinished(adj, r1, s[1..]);
    } else if s[1..] == [] {
      FeedRequestNothing(adj, r1);
    } else {
      StreamFollowsRequest(adj, r1, queued, s[1..]);
      var n := Taken(adj, r1, s[1..]);
      assert s[1..][n..] == s[1 + n..];
    }
  }

  lemma {:induction false} ExpectationLasts(adj: Adjustments, r: Request, s: Bytes)
    requires RequestExpects(adj, r)
    ensures RequestExpects(adj, FeedRequest(adj, r, s))
    decreases |s|
  {
    hide AfterHeader, Expects;
    if s != [] && !r.Finished() {
      ExpectationLasts(adj, StepRequest(adj, r, s[0]), s[1..]);
    }
  }

  /** Requests queued earlier do not matter. */
  lemma {:induction false} StreamShift(adj: Adjustments, r: Request, before: seq<Request>, queued: seq<Request>, s: Bytes)
    ensures var a := FeedStream(adj, Reading(r, queued), s);
      FeedStream(adj, Reading(r, before + queued), s) == a.(queued := before + a.queued)
    decreases |s|
  {
    hide StepRequest, RequestExpects;
    if s != [] {
      var r1 := StepRequest(adj, r, s[0]);
      assert before + queued + [r1] == before + (queued + [r1]);
      var next := Settle(adj, r1, queued);
      if next.Reading? {
        StreamShift(adj, next.current, before, next.queued, s[1..]);
      }
    }
  }

  // ---------- what clients send is what is enqueued ----------

  datatype Message = Message(header: Bytes, wire: Bytes, body: Bytes) {
    /** White space before the request line is dropped. */
    function Block(): Bytes { LStrip(header) }

    /** A header that ends at its only blank line, and the body it announces as sent. */
    ghost predicate WellFormed(adj: Adjustments) {
      && FindDoubleNewline(header) == |header| && |header| < adj.maxHeader
      && Block() != []
      && var head := ReadHeader(adj, Block()).0;
      && head.Head? && !head.expectsContinue
      && match head.framing
         case NoBody => wire == [] && body == []
         case Fixed(n) => wire == body && |body| == n && n < adj.maxBody
         case Chunked => Decode(wire) == Ended(body, |wire|) && |wire| < adj.maxBody
    }
  }

  function Transmit(messages: seq<Message>): Bytes {
    if messages == [] then [] else messages[0].header + messages[0].wire + Transmit(messages[1..])
  }

  function Received(messages: seq<Message>): seq<Request> {
    if messages == [] then [] else [Complete(messages[0].Block(), messages[0].body)] + Received(messages[1..])
  }

  lemma ReadBlock(adj: Adjustments, m: Message)
    requires m.WellFormed(adj)
    ensures FeedRequest(adj, FreshRequest, m.header) == AfterHeader(adj, m.header)
    ensures Taken(adj, FreshRequest, m.header) == |m.header|
  {
    hide AfterHeader, ReadHeader, FeedRequest, Taken, Decode, LStrip;
    FeedHeader(adj, [], m.header);
    assert [] + m.header == m.header;
    assert m.header[..|m.header|] == m.header && m.header[|m.header|..] == [];
    FeedRequestNothing(adj, AfterHeader(adj, m.header));
  }

  lemma ReadBody(adj: Adjustments, m: Message)
    requires m.WellFormed(adj)
    ensures var r := AfterHeader(adj, m.header);
      FeedRequest(adj, r, m.wire) == Complete(m.Block(), m.body) && Taken(adj, r, m.wire) == |m.wire|
  {
    hide ReadHeader, Decode, StepRequest;
    var r := AfterHeader(adj, m.header);
    match ReadHeader(adj, m.Block()).0.framing
    case NoBody =>
    case Fixed(n) =>
      if n > 0 {
        FeedFixed(adj, m.Block(), n, [], m.wire);
        assert [] + m.wire[..n] == m.wire;
      } else {
        assert m.wire == [];
      }
    case Chunked =>
      DecodeFrom([], m.wire);
      AfterNothing(Decode(m.wire));
      assert m.wire != [] by {
        if m.wire == [] {
          FeedNothing(FreshDecoder);
        }
      }
      FeedChunked(adj, m.Block(), FreshDecoder, 0, m.wire);
  }

  lemma ReadMessage(adj: Adjustments, m: Message, queued: seq<Request>, rest: Bytes)
    requires m.WellFormed(adj)
    ensures FeedStream(adj, Reading(FreshRequest, queued), m.header + m.wire + rest)
      == FeedStream(adj, Reading(FreshRequest, queued + [Complete(m.Block(), m.body)]), rest)
  {
    hide AfterHeader, FeedRequest, Taken, ReadHeader, FeedStream;
    var s := m.header + m.wire;
    ReadBlock(adj, m);
    ReadBody(adj, m);
    FeedRequestSplit(adj, FreshRequest, m.header, m.wire);
    StreamFollowsRequest(adj, FreshRequest, queued, s);
    assert s[|s|..] == [];
    FeedStreamNothing(adj, Settle(adj, Complete(m.Block(), m.body), queued));
    FeedStreamSplit(adj, Reading(FreshRequest, queued), s, rest);
    assert s + rest == m.header + m.wire + rest;
  }

  lemma NothingLeft(adj: Adjustments)
    ensures AfterHeader(adj, CRLF + CRLF) == Blank
  {
    var s := CRLF + CRLF;
    assert LStrip(s) == LStrip(s[1..]) && LStrip(s[1..]) == LStrip(s[2..]);
    assert LStrip(s[2..]) == LStrip(s[3..]) && LStrip(s[3..]) == LStrip(s[4..]);
  }

  /** A header with nothing in it is dropped. */
  lemma SkipBlank(adj: Adjustments, queued: seq<Request>, rest: Bytes)
    requires 4 < adj.maxHeader
    ensures FeedStream(adj, Reading(FreshRequest, queued), CRLF + CRLF + rest)
      == FeedStream(adj, Reading(FreshRequest, queued), rest)
  {
    hide FeedRequest, Taken, AfterHeader, FeedStream;
    var s := CRLF + CRLF;
    FindDoubleNewlineUnique(s, 0);
    FeedHeader(adj, [], s);
    assert [] + s == s && s[..4] == s && s[4..] == [];
    NothingLeft(adj);
    FeedRequestNothing(adj, Blank);
    StreamFollowsRequest(adj, FreshRequest, queued, s);
    FeedStreamNothing(adj, Settle(adj, Blank, queued));
    FeedStreamSplit(adj, Reading(FreshRequest, queued), s, rest);
  }

  lemma FeedStreamNothing(adj: Adjustments, st: Stream)
    ensures FeedStream(adj, st, []) == st
  {
  }

  /** However the bytes of a list of well-formed messages are cut, exactly those requests are
      enqueued, in order, and nothing is left over. */
  lemma {:induction false} MessagesReadBack(adj: Adjustments, messages: seq<Message>, queued: seq<Request>, pieces: seq<Bytes>)
    requires forall i :: 0 <= i < |messages| ==> messages[i].WellFormed(adj)
    requires Join(pieces) == Transmit(messages)
    ensures FeedPieces(adj, Reading(FreshRequest, queued), pieces)
      == Reading(FreshRequest, queued + Received(messages))
  {
    hide FeedStream, ReadHeader, Decode, FindDoubleNewline, LStrip, FeedPieces;
    StreamCutIndependence(adj, Reading(FreshRequest, queued), pieces);
    TransmissionReadsBack(adj, messages, queued);
  }

  lemma {:induction false} TransmissionReadsBack(adj: Adjustments, messages: seq<Message>, queued: seq<Request>)
    requires forall i :: 0 <= i < |messages| ==> messages[i].WellFormed(adj)
    ensures FeedStream(adj, Reading(FreshRequest, queued), Transmit(messages))
      == Reading(FreshRequest, queued + Received(messages))
    decreases |messages|
  {
    hide FeedStream, ReadHeader, Decode, FindDoubleNewline, LStrip;
    if messages == [] {
      FeedStreamNothing(adj, Reading(FreshRequest, queued));
      assert queued + [] == queued;
    } else {
      var m := messages[0];
      assert m.WellFormed(adj);
      ReadMessage(adj, m, queued, Transmit(messages[1..]));
      var queued' := queued + [Complete(m.Block(), m.body)];
      TransmissionReadsBack(adj, messages[1..], queued');
      assert queued' + Received(messages[1..]) == queued + Received(messages);
    }
  }
}
