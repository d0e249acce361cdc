/** The resumable request parser. */
module RequestParsers {
  import opened ByteStrings
  import opened Wrappers
  import opened ChunkedCoding
  import opened Headers
  import opened Requests
  import opened ParserStates
  import opened Files
  import opened Buffers
  import opened Receivers

  class HTTPRequestParser {
    const adj: Adjustments
    var completed: bool
    var empty: bool
    var expectContinue: bool
    var headersFinished: bool
    var headerPlus: Bytes
    var contentLength: nat
    var headerBytesReceived: nat
    var bodyBytesReceived: nat
    // `body_rcv` is one of these, or neither; `chunked` says that it is the second
    var fixedRcv: FixedStreamReceiver?
    var chunkedRcv: ChunkedReceiver?
    var error: Option<Refusal>
    var headers: HeaderMap

    ghost var block: Bytes
    ghost var Repr: set<object>

    ghost predicate Valid()
      reads this, Repr
      ensures Valid() ==> this in Repr
    {
      && this in Repr
      && (fixedRcv != null ==>
        fixedRcv in Repr && fixedRcv.Repr <= Repr && this !in fixedRcv.Repr && fixedRcv.Valid())
      && (chunkedRcv != null ==>
        chunkedRcv in Repr && chunkedRcv.Repr <= Repr && this !in chunkedRcv.Repr && chunkedRcv.Valid())
      && (fixedRcv == null || chunkedRcv == null)
      && FindDoubleNewline(headerPlus) < 0
    }

    ghost function BodyReceiver(): Receiver
      reads this, Repr
      requires Valid()
    {
      if fixedRcv != null then FixedReceiver(fixedRcv.remain, fixedRcv.Body())
      else if chunkedRcv != null then ChunkReceiver(chunkedRcv.State())
      else NoReceiver
    }

    ghost function View(): Parser
      reads this, Repr
      requires Valid()
    {
      Parser(completed, empty, expectContinue, headersFinished, headerPlus, headerBytesReceived,
             bodyBytesReceived, contentLength, BodyReceiver(), error, headers, block)
    }

    constructor (adj: Adjustments)
      ensures Valid() && fresh(Repr) && this.adj == adj && View() == NewParser
    {
      this.adj := adj;
      completed, empty, expectContinue, headersFinished := false, false, false, false;
      headerPlus, contentLength, headerBytesReceived, bodyBytesReceived := [], 0, 0, 0;
      fixedRcv, chunkedRcv, error, headers := null, null, None, map[];
      block := [];
      Repr := {this};
    }

    method StartFixed(length: nat)
      requires Valid() && BodyReceiver().NoReceiver?
      modifies this
      ensures Valid() && fresh(Repr - old(Repr))
      ensures View() == old(View()).(contentLength := length, receiver := FixedReceiver(length, []))
    {
      hide ChunkedReceiver.Valid, ChunkedReceiver.State, FixedStreamReceiver.Valid;
      hide OverflowableBuffer.Valid, OverflowableBuffer.Unread;
      hide FindDoubleNewline;
      contentLength := length;
      var buf := new OverflowableBuffer(adj.inbufOverflow);
      fixedRcv := new FixedStreamReceiver(length, buf);
      Repr := Repr + fixedRcv.Repr;
    }

    method StartChunked()
      requires Valid() && BodyReceiver().NoReceiver?
      modifies this
      ensures Valid() && fresh(Repr - old(Repr))
      ensures View() == old(View()).(receiver := ChunkReceiver(FreshDecoder))
    {
      hide ChunkedReceiver.Valid, ChunkedReceiver.State, FixedStreamReceiver.Valid, FixedStreamReceiver.Body;
      hide OverflowableBuffer.Valid, OverflowableBuffer.Unread;
      hide FindDoubleNewline;
      var buf := new OverflowableBuffer(adj.inbufOverflow);
      chunkedRcv := new ChunkedReceiver(buf);
      Repr := Repr + chunkedRcv.Repr;
    }

    /** The framing part of `parse_header`. */
    method ParseHeader(blk: Bytes) returns (head: Head)
      requires Valid() && BodyReceiver().NoReceiver?
      modifies this
      ensures Valid() && fresh(Repr - old(Repr))
      ensures var r := ReadHeaderInto(adj, blk, old(headers));
        head == r.0 && View() == WithHead(old(View()), r.0, r.1)
    {
      hide ChunkedReceiver.Valid, ChunkedReceiver.State, FixedStreamReceiver.Valid, FixedStreamReceiver.Body;
      hide OverflowableBuffer.Valid, OverflowableBuffer.Unread;
      hide ReadHeaderInto, FindDoubleNewline;
      head, headers := ParseBlock(adj, blk, headers);
      match head
      case Malformed(e) => expectContinue := e;
      case Unsupported =>
      case Head(framing, e) =>
        expectContinue := e;
        match framing {
          case NoBody => contentLength := 0;
          case Fixed(length) => StartFixed(length);
          case Chunked => StartChunked();
        }
    }

    method Decide(head: Head)
      requires Valid()
      modifies this
      ensures Valid() && Repr == old(Repr)
      ensures View() == Decided(adj, old(View()), head)
    {
      hide ChunkedReceiver.Valid, ChunkedReceiver.State, FixedStreamReceiver.Valid, FixedStreamReceiver.Body;
      hide OverflowableBuffer.Valid, OverflowableBuffer.Unread;
      hide FindDoubleNewline;
      match head
      case Malformed(_) =>
        error := Some(BadHeader);
        completed := true;
      case Unsupported =>
        error := Some(CodingNotImplemented);
        completed := true;
      case Head(_, _) =>
        if fixedRcv == null && chunkedRcv == null {
          completed := true;
        }
        if contentLength > 0 {
          if contentLength >= adj.maxBody {
            error := Some(BodyTooLarge);
            completed := true;
          }
        }
    }

    /** A complete header block, stripped of blank lines before it. */
    method FinishHeader(blk: Bytes)
      requires Valid() && BodyReceiver().NoReceiver?
      modifies this
      ensures Valid() && fresh(Repr - old(Repr))
      ensures View() == HeaderDone(adj, old(View()), blk)
    {
      hide ChunkedReceiver.Valid, ChunkedReceiver.State, FixedStreamReceiver.Valid, FixedStreamReceiver.Body;
      hide OverflowableBuffer.Valid, OverflowableBuffer.Unread;
      hide ReadHeaderInto, FindDoubleNewline, Decided, WithHead;
      if blk == [] {
        empty := true;
        completed := true;
      } else {
        block := blk;
        var head := ParseHeader(blk);
        Decide(head);
      }
      headersFinished := true;
    }

    /** What a call of `received` owes to the byte-at-a-time reader for the n bytes it consumed. */
    twostate predicate Follows(data: Bytes, n: nat)
      requires old(Valid()) && Valid()
      reads this, Repr
    {
      && n <= |data|
      && (old(View()).Tracks(adj) && data != [] ==>
        && View().Tracks(adj)
        && Refines(FeedRequest(adj, old(View()).State(), data[..n]), View().State())
        && (!View().State().Refused? ==> n == Taken(adj, old(View()).State(), data[..n])))
    }

    method ReceiveHeader(data: Bytes) returns (n: nat)
      requires Valid() && BodyReceiver().NoReceiver? && !completed
      modifies Repr
      ensures Valid() && fresh(Repr - old(Repr))
      ensures (View(), n as int) == HeaderStep(adj, old(View()), data)
    {
      hide ChunkedReceiver.Valid, ChunkedReceiver.State, FixedStreamReceiver.Valid, FixedStreamReceiver.Body;
      hide FindDoubleNewline, HeaderDone, LStrip;
      HeaderStepTakes(adj, View(), data);
      var s := headerPlus + data;
      var index := FindDoubleNewline(s);
      var consumed := |data|;
      if index >= 0 {
        headerBytesReceived := index;
        consumed := |data| - (|s| - index);
      } else {
        headerBytesReceived := headerBytesReceived + |data|;
      }
      if headerBytesReceived >= adj.maxHeader {
        error := Some(HeaderTooLarge);
        completed := true;
        return consumed;
      }
      if index >= 0 {
        FinishHeader(LStrip(s[..index]));
        return consumed;
      }
      headerPlus := s;
      return |data|;
    }

    /** The checks made after the receiver has been fed. */
    method CheckBody()
      requires Valid() && !BodyReceiver().NoReceiver?
      requires fixedRcv != null ==> (fixedRcv.completed <==> fixedRcv.remain == 0)
      modifies this
      ensures Valid() && Repr == old(Repr)
      ensures View() == Checked(adj, old(View()))
    {
      hide ChunkedReceiver.Valid, ChunkedReceiver.State, FixedStreamReceiver.Valid, FixedStreamReceiver.Body;
      hide FindDoubleNewline, Decimal;
      if bodyBytesReceived >= adj.maxBody {
        error := Some(BodyTooLarge);
        completed := true;
      } else if chunkedRcv != null && chunkedRcv.error.Some? {
        error := Some(BadBody(chunkedRcv.error.value));
        completed := true;
      } else if fixedRcv != null && fixedRcv.completed {
        completed := true;
      } else if chunkedRcv != null && chunkedRcv.completed {
        completed := true;
        headers := headers[CONTENT_LENGTH := Decimal(chunkedRcv.Length())];
      }
    }

    method FeedFixedReceiver(data: Bytes) returns (n: nat)
      requires Valid() && fixedRcv != null
      modifies Repr
      ensures Valid() && fresh(Repr - old(Repr)) && fixedRcv == old(fixedRcv)
      ensures fixedRcv.completed <==> fixedRcv.remain == 0
      ensures var r := old(View()).receiver;
        && n == Min(r.remain, |data|)
        && View() == old(View()).(
          receiver := FixedReceiver(r.remain - n, r.received + data[..n]), bodyBytes := old(bodyBytesReceived) + n)
    {
      hide ChunkedReceiver.Valid, ChunkedReceiver.State, FixedStreamReceiver.Valid, FixedStreamReceiver.Body;
      hide FindDoubleNewline;
      n := fixedRcv.Received(data);
      Repr := Repr + fixedRcv.Repr;
      bodyBytesReceived := bodyBytesReceived + n;
    }

    method FeedChunkedReceiver(data: Bytes) returns (n: nat)
      requires Valid() && chunkedRcv != null
      modifies Repr
      ensures Valid() && fresh(Repr - old(Repr)) && chunkedRcv == old(chunkedRcv)
      ensures var d := old(View()).receiver.decoder;
        && Eaten(d, data) <= n <= |data| && d.Wf()
        && (!Feed(d, data).phase.Failed? ==> n == Eaten(d, data))
        && (!d.Halted() ==> n == Reported(d, data))
        && View() == old(View()).(
          receiver := ChunkReceiver(Feed(d, data)), bodyBytes := old(bodyBytesReceived) + n)
    {
      hide ChunkedReceiver.Valid, ChunkedReceiver.State, FixedStreamReceiver.Valid, FixedStreamReceiver.Body;
      hide FindDoubleNewline, Feed, Eaten, Reported, Decoder.Wf;
      n := chunkedRcv.Received(data);
      Repr := Repr + chunkedRcv.Repr;
      bodyBytesReceived := bodyBytesReceived + n;
    }

    method ReceiveFixed(data: Bytes) returns (n: nat)
      requires Valid() && fixedRcv != null && !completed
      modifies Repr
      ensures Valid() && fresh(Repr - old(Repr))
      ensures data != [] && n == 0 ==> completed
      ensures data != [] && old(View()).Tracks(adj) ==> 1 <= n
      ensures expectContinue == old(expectContinue)
      ensures Follows(data, n)
    {
      hide FeedRequest, Taken, FindDoubleNewline, RequestExpects, Decimal, Valid, Checked;
      ghost var before := View();
      n := FeedFixedReceiver(data);
      CheckedFacts(adj, View());
      CheckBody();
      if before.Tracks(adj) && data != [] {
        FixedPieceTracks(adj, before, data[..n]);
      }
    }

    method ReceiveChunked(data: Bytes) returns (n: nat)
      requires Valid() && fixedRcv == null && chunkedRcv != null && !completed
      modifies Repr
      ensures Valid() && fresh(Repr - old(Repr))
      ensures data != [] && n == 0 ==> completed
      ensures data != [] && old(View()).Tracks(adj) ==> 1 <= n
      ensures expectContinue == old(expectContinue)
      ensures Follows(data, n) && ChunksExactly(adj, old(View()), data, n, View())
    {
      hide FeedRequest, Taken, FindDoubleNewline, RequestExpects, Feed, Eaten, Decimal, Valid, Checked, Reported;
      hide Parser.Tracks, Refines, SameRefusal, Decoder.Wf;
      ghost var before := View();
      ghost var d := before.receiver.decoder;
      n := FeedChunkedReceiver(data);
      CheckedFacts(adj, View());
      CheckBody();
      FeedHalted(d, data);
      if before.Tracks(adj) && data != [] {
        StillDecoding(adj, before);
        ChunkPieceTracks(adj, before, data, n);
        RefusalByCut(adj, before, data);
      }
    }

    /** Returns the number of bytes consumed; sets `completed` once the request is over. */
    method Received(data: Bytes) returns (n: nat)
      requires Valid()
      modifies Repr
      ensures Valid() && fresh(Repr - old(Repr))
      ensures Advances(adj, old(View()), data, n, View())
    {
      hide ChunkedReceiver.Valid, ChunkedReceiver.State, FixedStreamReceiver.Valid, FixedStreamReceiver.Body;
      hide FeedRequest, Taken, FindDoubleNewline, RequestExpects, Decimal, HeaderStep, Parser.Tracks, ReadHeader;
      if completed {
        FeedRequestNothing(adj, View().State());
        assert data[..0] == [];
        return 0;
      }
      if fixedRcv != null {
        n := ReceiveFixed(data);
      } else if chunkedRcv != null {
        n := ReceiveChunked(data);
      } else {
        ghost var before := View();
        n := ReceiveHeader(data);
        HeaderStepTakes(adj, before, data);
        if before.Tracks(adj) && data != [] {
          HeaderStepTracks(adj, before, data);
        }
      }
    }

    /** The stream handed to the application yields the decoded body. */
    method GetBodyStream() returns (f: ByteFile)
      requires Valid()
      modifies Repr
      ensures Valid() && fresh(Repr - old(Repr)) && !f.closed
      ensures View() == old(View())
      ensures f.pos <= |f.data| && f.data[f.pos..] == View().Body()
    {
      hide FindDoubleNewline;
      if fixedRcv != null {
        f := fixedRcv.GetFile();
        Repr := Repr + fixedRcv.Repr;
      } else if chunkedRcv != null {
        f := chunkedRcv.GetFile();
        Repr := Repr + chunkedRcv.Repr;
      } else {
        f := new ByteFile(false);
      }
    }
  }
}
