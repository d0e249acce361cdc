/** The reading half of a channel: bytes from the socket become queued requests. */
module Channels {
  import opened ByteStrings
  import opened Headers
  import opened Requests
  import opened ParserStates
  import opened Receivers
  import opened RequestParsers
  import opened Output
  import opened Wrappers
  import Responses

  ghost predicate ParserSlot(p: HTTPRequestParser, footprint: set<object>, adj: Adjustments, view: Parser)
    reads footprint + {p}
    ensures ParserSlot(p, footprint, adj, view) ==>
      p in footprint && p.completed == view.completed && p.empty == view.empty && p.error == view.error
      && p.expectContinue == view.expectContinue && p.headersFinished == view.headersFinished
  {
    p in footprint && p.Repr == footprint && p.adj == adj && p.Valid() && p.View() == view
  }

  method ReceiveOn(p: HTTPRequestParser, data: Bytes, adj: Adjustments,
                   ghost footprint: set<object>, ghost view: Parser)
    returns (n: nat, ghost after: set<object>, ghost view': Parser)
    requires ParserSlot(p, footprint, adj, view)
    modifies footprint
    ensures ParserSlot(p, after, adj, view') && fresh(after - footprint)
    ensures Advances(adj, view, data, n, view')
  {
    hide Advances;
    n := p.Received(data);
    after, view' := p.Repr, p.View();
  }

  method NewRequest(adj: Adjustments) returns (p: HTTPRequestParser)
    ensures fresh(p.Repr) && ParserSlot(p, p.Repr, adj, NewParser)
  {
    p := new HTTPRequestParser(adj);
  }

  /** The request's part in `send_continue`: before the line is sent, and after. */
  method StopExpecting(p: HTTPRequestParser, ghost footprint: set<object>, ghost adj: Adjustments, ghost view: Parser)
    requires ParserSlot(p, footprint, adj, view)
    modifies p`expectContinue
    ensures ParserSlot(p, footprint, adj, view.(expectContinue := false))
  {
    hide ChunkedReceiver.Valid, FixedStreamReceiver.Valid;
    p.expectContinue := false;
  }

  method MarkIncomplete(p: HTTPRequestParser, ghost footprint: set<object>, ghost adj: Adjustments, ghost view: Parser)
    requires ParserSlot(p, footprint, adj, view)
    modifies p`completed
    ensures ParserSlot(p, footprint, adj, view.(completed := false))
  {
    hide ChunkedReceiver.Valid, FixedStreamReceiver.Valid;
    p.completed := false;
  }

  function States(views: seq<Parser>): seq<Request> {
    seq(|views|, i requires 0 <= i < |views| => views[i].State())
  }

  lemma StatesAppend(views: seq<Parser>, v: Parser)
    ensures States(views + [v]) == States(views) + [v.State()]
  {
  }

  /** The queue and the pending request are those of the stream, as far as the stream is followed. */
  predicate Matches(s: Stream, queue: seq<Request>, current: Request) {
    match s
    case Reading(c, q) => queue == q && current == c
    case Stopped(q) =>
      && 0 < |q| <= |queue|
      && queue[..|q| - 1] == q[..|q| - 1]
      && Refines(q[|q| - 1], queue[|q| - 1])
    case Suspended(q) => q <= queue
  }

  function Lines(n: nat): Bytes {
    if n == 0 then [] else Lines(n - 1) + CONTINUE_LINE
  }

  /** A client reads the line for what it is: an interim response, whatever follows it. */
  lemma ContinueLineReads(rest: Bytes)
    ensures Responses.ReadResponse(CONTINUE_LINE + rest) == Some(Responses.Reading([], rest))
  {
    hide Responses.ReadResponse;
    var version, status := Ascii("1.1"), Ascii("100 Continue");
    assert status[0] == 49 && status[1] == 48 && status[2] == 48 && status[3] == 32;
    assert Responses.Code(status) == 100;
    assert Responses.Sort([]) == [] && Responses.HeaderLines([]) == [];
    var lines := [Responses.StatusLine(version, status)];
    assert lines + [] == lines;
    assert Responses.Render(version, status, []) == CONTINUE_LINE;
    Responses.BodilessReadsBack(version, status, [], rest);
  }

  /** One parse of the pending request moves the stream on by the bytes it consumed. */
  lemma ParseStep(adj: Adjustments, v: Parser, q: seq<Request>, data: Bytes, n: nat, v': Parser)
    requires v.Tracks(adj) && !v.completed && !v.expectContinue && data != []
    requires Advances(adj, v, data, n, v')
    ensures v'.Tracks(adj)
    ensures var s := FeedStream(adj, Reading(v.State(), q), data); var r := v'.State();
      if v'.expectContinue then s == Suspended(q)
      else if r.Refused? then s.Stopped? && Matches(s, q + [r], FreshRequest)
      else if r.Complete? then s == FeedStream(adj, Reading(FreshRequest, q + [r]), data[n..])
      else if r.Blank? then s == FeedStream(adj, Reading(FreshRequest, q), data[n..])
      else s == FeedStream(adj, Reading(r, q), data[n..])
  {
    hide FeedStream, FeedRequest, Taken;
    var piece := data[..n];
    var rest := data[n..];
    assert data == piece + rest;
    var spec := FeedRequest(adj, v.State(), piece);
    var k := Taken(adj, v.State(), piece);
    FeedStreamSplit(adj, Reading(v.State(), q), piece, rest);
    StreamFollowsRequest(adj, v.State(), q, piece);
    assert RequestExpects(adj, spec) == v'.expectContinue;
    var settled := Settle(adj, spec, q);
    FeedStreamHalted(adj, settled, piece[k..]);
    FeedStreamHalted(adj, settled, rest);
    if k == n {
      assert piece[k..] == [];
    }
  }

  /** Where the stream stands for the bytes still to be parsed: in step with the fields while `live`,
      and otherwise followed as far as it goes. */
  ghost predicate InStep(adj: Adjustments, stream: Stream, live: bool, v: Parser, q: seq<Parser>, rest: Bytes) {
    if live then
      && v.Tracks(adj) && !v.expectContinue
      && stream == FeedStream(adj, Reading(v.State(), States(q)), rest)
    else !stream.Reading? && Matches(stream, States(q), FreshRequest)
  }

  lemma MatchesGrows(s: Stream, q: seq<Parser>, q': seq<Parser>)
    requires !s.Reading? && Matches(s, States(q), FreshRequest) && q <= q'
    ensures Matches(s, States(q'), FreshRequest)
  {
    var a, b := States(q), States(q');
    assert forall i :: 0 <= i < |q| ==> q[i] == q'[i];
    assert a == b[..|a|];
    if s.Stopped? {
      var k := |s.queued|;
      assert b[..k - 1] == a[..k - 1];
    }
  }

  /** One turn of the parsing loop: the pending request v became v', and then the channel kept it or
      queued it. */
  lemma StaysInStep(adj: Adjustments, stream: Stream, live: bool, v: Parser, q: seq<Parser>,
                    data: Bytes, n: nat, v': Parser, v1: Parser, q1: seq<Parser>)
    returns (live1: bool)
    requires data != [] && !v.completed && InStep(adj, stream, live, v, q, data)
    requires Advances(adj, v, data, n, v')
    requires q <= q1
    requires !v'.expectContinue ==>
      if v'.completed then v1 == NewParser && q1 == q + (if v'.empty then [] else [v'])
      else v1 == v' && q1 == q
    ensures n <= |data| && InStep(adj, stream, live1, v1, q1, data[n..])
    ensures live1 <==> live && !v'.expectContinue && !v'.State().Refused?
    ensures live && !stream.Suspended? ==> live1 || q1 != []
  {
    hide Advances, Matches, FeedStream, RequestExpects;
    AdvancesFacts(adj, v, data, n, v');
    live1 := false;
    if !live {
      MatchesGrows(stream, q, q1);
      return;
    }
    ParseStep(adj, v, States(q), data, n, v');
    if v'.expectContinue {
      SuspendedMatches(States(q));
      MatchesGrows(stream, q, q1);
      return;
    }
    StatesAppend(q, v');
    NewParserTracks(adj);
    assert q + [] == q;
    assert v'.completed ==> (v'.empty <==> v'.State().Blank?);
    assert v'.completed <==> v'.State().Finished();
    live1 := !v'.State().Refused?;
  }

  /** A stream that is not suspended expects no 100 Continue while it is followed. */
  lemma NothingExpected(adj: Adjustments, stream: Stream, v: Parser, q: seq<Parser>, data: Bytes, n: nat, v': Parser)
    requires data != [] && !v.completed && InStep(adj, stream, true, v, q, data) && !stream.Suspended?
    requires Advances(adj, v, data, n, v')
    ensures !v'.expectContinue
  {
    hide Advances, FeedStream;
    ParseStep(adj, v, States(q), data, n, v');
  }

  /** Once the stream is no longer followed, a 100 Continue has been tried exactly when the stream was
      suspended with nothing queued. */
  predicate Told(stream: Stream, live: bool, told: bool) {
    if live then !told else told <==> stream == Suspended([])
  }

  /** One turn of the parsing loop with no line sent for the pending request before: a line is tried in
      that turn exactly when the request asks for one and nothing is queued. */
  lemma ToldInTime(adj: Adjustments, stream: Stream, live: bool, told: bool, v: Parser, q: seq<Parser>,
                   data: Bytes, n: nat, v': Parser, tried: bool, live1: bool)
    requires data != [] && !v.completed && InStep(adj, stream, live, v, q, data) && Told(stream, live, told)
    requires Advances(adj, v, data, n, v')
    requires tried ==> v'.expectContinue && q == []
    requires live && v'.expectContinue && v'.headersFinished && q == [] ==> tried
    requires live1 <==> live && !v'.expectContinue && !v'.State().Refused?
    ensures Told(stream, live1, told || tried)
  {
    hide Advances, FeedStream, RequestExpects;
    if live {
      ParseStep(adj, v, States(q), data, n, v');
      if v'.expectContinue {
        ExpectsInTime(adj, v');
      }
    }
  }

  lemma ExpectsInTime(adj: Adjustments, v: Parser)
    requires v.Tracks(adj) && v.expectContinue
    ensures v.headersFinished
  {
  }

  lemma SuspendedMatches(q: seq<Request>)
    ensures Matches(Suspended(q), q, FreshRequest)
  {
  }

  lemma InStepAtStart(adj: Adjustments, v: Parser, q: seq<Parser>, data: Bytes)
    requires v.Tracks(adj) && !v.expectContinue
    ensures InStep(adj, FeedStream(adj, Reading(v.State(), States(q)), data), true, v, q, data)
  {
  }

  /** When every byte has been parsed, the queue and the pending request are those of the stream. */
  lemma InStepAtEnd(adj: Adjustments, stream: Stream, live: bool, v: Parser, q: seq<Parser>)
    requires InStep(adj, stream, live, v, q, [])
    ensures Matches(stream, States(q), v.State())
    ensures stream.Reading? ==> v.Tracks(adj) && !v.expectContinue
    ensures live ==> stream.Reading?
  {
  }

  lemma FeedStreamHalted(adj: Adjustments, st: Stream, s: Bytes)
    ensures s == [] || !st.Reading? ==> FeedStream(adj, st, s) == st
  {
  }

  lemma AdvancesFacts(adj: Adjustments, v: Parser, data: Bytes, n: nat, v': Parser)
    requires Advances(adj, v, data, n, v')
    ensures n <= |data|
    ensures data != [] && n == 0 ==> v'.completed
    ensures data != [] && !v.completed && v.Tracks(adj) ==> 1 <= n
    ensures v.Tracks(adj) && data != [] ==> v'.Tracks(adj)
  {
    hide FeedRequest, Taken, Parser.Tracks;
  }

  lemma NewParserTracks(adj: Adjustments)
    ensures NewParser.Tracks(adj) && NewParser.State() == FreshRequest
  {
  }

  lemma LinesOneMore(before: Bytes, n: nat)
    ensures before + Lines(n) + CONTINUE_LINE == before + Lines(n + 1)
  {
  }

  datatype ReceiveEnd = Ignored | Parsed | Raised

  class HTTPChannel {
    const adj: Adjustments
    const out: ChannelOutput
    // a request that has not been received yet completely
    var request: HTTPRequestParser?
    var requests: seq<HTTPRequestParser>
    var sentContinue: bool
    // calls of the server's `add_task` for this channel
    var tasksAdded: nat

    ghost var current: Parser
    ghost var currentPrint: set<object>
    ghost var queue: seq<Parser>
    ghost var prints: seq<set<object>>
    ghost var Repr: set<object>

    ghost predicate Queued()
      reads this, Repr, out
    {
      && |queue| == |prints| == |requests|
      && (forall i :: 0 <= i < |requests| ==>
        && requests[i] in prints[i] && prints[i] <= Repr
        && this !in prints[i] && prints[i] !! out.Repr && prints[i] !! currentPrint)
      && (forall i :: 0 <= i < |requests| ==> ParserSlot(requests[i], prints[i], adj, queue[i]))
      && (forall i, j :: 0 <= i < j < |requests| ==> prints[i] !! prints[j])
    }

    ghost predicate Valid()
      reads this, Repr, out, out.Repr
    {
      && this in Repr && out in Repr && out.Repr <= Repr && this !in out.Repr
      && out in out.Repr
      && (out.connected ==> out.Valid())
      && currentPrint <= Repr && this !in currentPrint && currentPrint !! out.Repr
      && (request == null ==> current == NewParser && currentPrint == {})
      && (request != null ==> request in currentPrint && ParserSlot(request, currentPrint, adj, current))
      && Queued()
    }

    /** Between calls: the pending request is not over, and it is in step with its bytes unless a
        100 Continue has been sent for it. */
    ghost predicate Settled()
      reads this
    {
      !current.completed && (current.Tracks(adj) || sentContinue)
    }

    ghost function Queue(): seq<Request>
      reads this
    {
      States(queue)
    }

    constructor (adj: Adjustments, out: ChannelOutput)
      requires out.Valid() && out in out.Repr
      ensures Valid() && Settled() && Queue() == [] && current.State() == FreshRequest
      ensures this.adj == adj && this.out == out
    {
      this.adj, this.out := adj, out;
      request, requests, sentContinue, tasksAdded := null, [], false, 0;
      current, currentPrint, queue, prints := NewParser, {}, [], [];
      Repr := {this, out} + out.Repr;
    }

    /** `if self.request is None: self.request = self.parser_class(self.adj)` */
    method StartRequest()
      requires Valid()
      modifies this
      ensures Valid() && fresh(Repr - old(Repr)) && request != null
      ensures current == old(current) && queue == old(queue) && requests == old(requests)
      ensures sentContinue == old(sentContinue) && tasksAdded == old(tasksAdded)
    {
      hide ParserSlot, ChannelOutput.Valid;
      if request == null {
        var p := NewRequest(adj);
        request, currentPrint := p, p.Repr;
        Repr := Repr + p.Repr;
      }
    }

    method Parse(data: Bytes) returns (n: nat)
      requires Valid() && request != null
      modifies Repr
      ensures Valid() && fresh(Repr - old(Repr)) && request != null
      ensures Advances(adj, old(current), data, n, current)
      ensures queue == old(queue) && requests == old(requests) && unchanged(out)
      ensures sentContinue == old(sentContinue) && tasksAdded == old(tasksAdded)
    {
      hide ParserSlot, ChannelOutput.Valid, Advances;
      ghost var after;
      n, after, current := ReceiveOn(request, data, adj, currentPrint, current);
      currentPrint := after;
      Repr := Repr + after;
    }

    method ClearExpect()
      requires Valid() && request != null
      modifies Repr
      ensures Valid() && Repr == old(Repr) && request != null && unchanged(out) && out.Valid() == old(out.Valid())
      ensures queue == old(queue) && requests == old(requests) && tasksAdded == old(tasksAdded)
      ensures sentContinue == old(sentContinue) && current == old(current).(expectContinue := false)
    {
      hide ParserSlot, ChannelOutput.Valid;
      StopExpecting(request, currentPrint, adj, current);
      current := current.(expectContinue := false);
    }

    method SendLine() returns (end: FlushEnd)
      requires Valid() && request != null && out.connected
      modifies Repr
      ensures Valid() && fresh(Repr - old(Repr)) && request != null
      ensures queue == old(queue) && requests == old(requests) && tasksAdded == old(tasksAdded)
      ensures current == old(current)
      ensures sentContinue && out.accepted == old(out.accepted) + CONTINUE_LINE
    {
      hide ParserSlot, ChannelOutput.Valid;
      end := out.SendContinue();
      Repr := Repr + out.Repr;
      sentContinue := true;
    }

    method SendContinue() returns (raised: bool)
      requires Valid() && request != null && out.connected
      modifies Repr
      ensures Valid() && fresh(Repr - old(Repr)) && request != null
      ensures queue == old(queue) && requests == old(requests) && tasksAdded == old(tasksAdded)
      ensures sentContinue && out.accepted == old(out.accepted) + CONTINUE_LINE
      ensures current == old(current).(expectContinue := false,
        completed := if raised then old(current.completed) else false)
    {
      hide ParserSlot, ChannelOutput.Valid;
      ClearExpect();
      var end := SendLine();
      if end.Failed? {
        return true;
      }
      MarkIncomplete(request, currentPrint, adj, current);
      current := current.(completed := false);
      raised := false;
    }

    /** A completed request leaves the parser, and is queued unless it was blank. */
    method TakeRequest()
      requires Valid() && request != null && current.completed
      modifies this
      ensures Valid() && Repr == old(Repr) && request == null && !sentContinue
      ensures queue == old(queue) + if old(current).empty then [] else [old(current)]
      ensures requests == old(requests) + if old(current).empty then [] else [old(request)]
      ensures tasksAdded == old(tasksAdded) + if requests != [] && old(requests) == [] then 1 else 0
    {
      hide ParserSlot, ChannelOutput.Valid;
      sentContinue := false;
      if !request.empty {
        requests := requests + [request];
        queue, prints := queue + [current], prints + [currentPrint];
        if |requests| == 1 {
          tasksAdded := tasksAdded + 1;
        }
      }
      request, current, currentPrint := null, NewParser, {};
    }

    /** One turn of the loop in `received`. The pending request has become `parsed` when the channel
        decides what to do with it. */
    method ParseOnce(rest: Bytes) returns (n: nat, raised: bool, sent: bool, ghost parsed: Parser)
      requires Valid() && Settled() && rest != []
      modifies Repr
      ensures Valid() && fresh(Repr - old(Repr))
      ensures Advances(adj, old(current), rest, n, parsed) && n <= |rest|
      ensures !raised ==> Settled()
      ensures !raised ==> 1 <= n || (current.Tracks(adj) && !old(current).Tracks(adj))
      ensures old(queue) <= queue && old(requests) <= requests
      ensures !raised && !parsed.expectContinue ==>
        if parsed.completed then
          current == NewParser && queue == old(queue) + if parsed.empty then [] else [parsed]
        else current == parsed && queue == old(queue)
      ensures tasksAdded == old(tasksAdded) + if requests != [] && old(requests) == [] then 1 else 0
      ensures out.accepted == old(out.accepted) + if sent then CONTINUE_LINE else []
      ensures sent || raised
        <==> parsed.expectContinue && parsed.headersFinished && old(requests) == [] && !old(sentContinue)
      ensures old(out.connected) && raised ==> sent
      ensures !sent ==> unchanged(out) && (sentContinue ==> old(sentContinue))
    {
      hide ParserSlot, ChannelOutput.Valid, Queued, Parser.Tracks, Advances;
      raised, sent := false, false;
      assert out.accepted + [] == out.accepted;
      StartRequest();
      ghost var v := current;
      n := Parse(rest);
      parsed := current;
      AdvancesFacts(adj, v, rest, n, parsed);
      if request.expectContinue && request.headersFinished && requests == [] && !sentContinue {
        if !out.connected {
          // the socket is gone; nothing can be sent
          raised := true;
          return;
        }
        raised := SendContinue();
        sent := true;
        if raised {
          return;
        }
      }
      if request.completed {
        TakeRequest();
        NewParserTracks(adj);
      }
    }

    lemma QueueLength()
      requires Valid()
      ensures |queue| == |requests|
    {
      hide ParserSlot, ChannelOutput.Valid;
    }

    /** One turn of the loop, in step with the stream reference while that is followed. */
    method ParseInStep(rest: Bytes, ghost stream: Stream, ghost followed: bool, ghost live: bool, ghost told: bool)
      returns (n: nat, raised: bool, ghost lines: nat, ghost live': bool)
      requires Valid() && Settled() && rest != []
      requires followed ==> InStep(adj, stream, live, current, queue, rest)
      requires followed && !stream.Suspended? ==> live || queue != []
      modifies Repr
      ensures Valid() && fresh(Repr - old(Repr)) && n <= |rest|
      ensures !raised ==> Settled() && (1 <= n || (current.Tracks(adj) && !old(current).Tracks(adj)))
      ensures old(queue) <= queue && old(requests) <= requests
      ensures tasksAdded == old(tasksAdded) + if requests != [] && old(requests) == [] then 1 else 0
      ensures out.accepted == old(out.accepted) + Lines(lines) && (lines > 0 ==> old(requests) == [])
      ensures old(requests) != [] || (followed && !stream.Suspended?) ==> !raised && lines == 0 && unchanged(out)
      ensures !raised && followed ==> InStep(adj, stream, live', current, queue, rest[n..])
      ensures followed && Told(stream, live, told) && (live ==> !old(sentContinue)) ==>
        Told(stream, live', told || lines > 0 || raised) && (live' ==> !sentContinue)
      ensures !raised && followed && !stream.Suspended? ==> live' || queue != []
    {
      hide ParserSlot, ChannelOutput.Valid, Queued, FeedStream, RequestExpects, Parser.Tracks, Matches, Advances, States, InStep;
      ghost var v, q, sentBefore := current, queue, sentContinue;
      ghost var accepted := out.accepted;
      QueueLength();
      var sent;
      ghost var parsed;
      n, raised, sent, parsed := ParseOnce(rest);
      if followed && live && !stream.Suspended? {
        NothingExpected(adj, stream, v, q, rest, n, parsed);
      }
      lines, live' := if sent then 1 else 0, live;
      LinesOneMore(accepted, 0);
      assert accepted + Lines(0) == accepted;
      if followed {
        if raised {
          live' := false;
        } else {
          live' := StaysInStep(adj, stream, live, v, q, rest, n, parsed, current, queue);
        }
        if Told(stream, live, told) && (live ==> !sentBefore) {
          ToldInTime(adj, stream, live, told, v, q, rest, n, parsed, sent || raised, live');
        }
      }
    }

    /** Assigns one or more requests to the channel. `lines` counts the 100 Continue lines sent. */
    method Received(data: Bytes) returns (end: ReceiveEnd, ghost lines: nat)
      requires Valid() && Settled() && out.connected
      modifies Repr
      ensures Valid() && fresh(Repr - old(Repr))
      ensures end.Ignored? <==> data == [] || old(out.willClose || out.closeWhenFlushed)
      ensures end.Ignored? ==> unchanged(this) && unchanged(out) && lines == 0
      ensures old(queue) <= queue && old(requests) <= requests
      ensures tasksAdded == old(tasksAdded) + if requests != [] && old(requests) == [] then 1 else 0
      ensures out.accepted == old(out.accepted) + Lines(lines)
      ensures lines > 0 ==> old(requests) == []
      ensures end.Parsed? ==> Settled()
      ensures old(requests) != [] || (old(current.Tracks(adj) && !current.expectContinue)
          && !FeedStream(adj, Reading(old(current).State(), old(Queue())), data).Suspended?)
        ==> !end.Raised? && unchanged(out)
      ensures !end.Ignored? && old(current.Tracks(adj) && !current.expectContinue && !sentContinue) ==>
        (lines > 0 || end.Raised? <==>
          FeedStream(adj, Reading(old(current).State(), old(Queue())), data) == Suspended([]))
      ensures end.Parsed? && old(current.Tracks(adj) && !current.expectContinue) ==>
        var stream := FeedStream(adj, Reading(old(current).State(), old(Queue())), data);
        && Matches(stream, Queue(), current.State())
        && (stream.Reading? ==> current.Tracks(adj) && !current.expectContinue)
    {
      hide ParserSlot, ChannelOutput.Valid, Queued, FeedStream, Parser.Tracks, Matches, States, InStep, Lines;
      lines := 0;
      ghost var followed := current.Tracks(adj) && !current.expectContinue;
      ghost var stream := FeedStream(adj, Reading(current.State(), Queue()), data);
      if followed {
        InStepAtStart(adj, current, queue, data);
      }
      NoLines(out.accepted);
      if data == [] || out.willClose || out.closeWhenFlushed {
        return Ignored, 0;
      }
      ghost var watched := followed && !sentContinue;
      ghost var live := true;
      var rest := data;
      while rest != []
        invariant Valid() && fresh(Repr - old(Repr)) && Settled()
        invariant old(queue) <= queue && old(requests) <= requests
        invariant tasksAdded == old(tasksAdded) + if requests != [] && old(requests) == [] then 1 else 0
        invariant out.accepted == old(out.accepted) + Lines(lines) && (lines > 0 ==> old(requests) == [])
        invariant followed ==> InStep(adj, stream, live, current, queue, rest)
        invariant old(requests) != [] || (followed && !stream.Suspended?) ==> unchanged(out)
        invariant followed && !stream.Suspended? ==> live || queue != []
        invariant watched ==> Told(stream, live, lines > 0) && (live ==> !sentContinue)
        decreases |rest|, if current.Tracks(adj) then 0 else 1
      {
        var n, raised;
        ghost var more;
        n, raised, more, live := ParseInStep(rest, stream, followed, live, lines > 0);
        LinesAdd(old(out.accepted), lines, more);
        lines := lines + more;
        if raised {
          return ReceiveEnd.Raised, lines;
        }
        rest := rest[n..];
      }
      if followed {
        InStepAtEnd(adj, stream, live, current, queue);
      }
      end := Parsed;
    }

    /** Workers serve queued requests and pop them, at most k and up to the first refused one, whose task
        would close the channel. */
    method Serve(k: nat) returns (ghost gone: seq<Request>)
      requires Valid()
      modifies this
      ensures Valid() && Repr == old(Repr) && current == old(current) && sentContinue == old(sentContinue)
      ensures gone + Queue() == old(Queue()) && forall r :: r in gone ==> !r.Refused?
    {
      hide ParserSlot, ChannelOutput.Valid, Parser.State, States;
      gone := [];
      for i := 0 to k
        invariant Valid() && Repr == old(Repr) && current == old(current) && sentContinue == old(sentContinue)
        invariant gone + Queue() == old(Queue()) && forall r :: r in gone ==> !r.Refused?
      {
        if requests == [] || requests[0].error.Some? {
          break;
        }
        ghost var first := queue[0];
        assert queue == [first] + queue[1..];
        StatesFirst(queue);
        assert !first.State().Refused? by { SlotError(); }
        requests, queue, prints := requests[1..], queue[1..], prints[1..];
        gone := gone + [first.State()];
      }
    }

    lemma SlotError()
      requires Valid() && requests != [] && requests[0].error.None?
      ensures !queue[0].State().Refused?
    {
      assert ParserSlot(requests[0], prints[0], adj, queue[0]);
    }

    /** Several calls of `received` on an open channel, between which workers serve requests: however the
        stream was cut, the requests served and queued and the pending one are those of the whole stream.
        Only a stream with an expectation can end the reading early, when the 100 Continue cannot be sent
        or closes the channel. */
    method ReceiveAll(pieces: seq<Bytes>, served: seq<nat>) returns (end: ReceiveEnd, ghost gone: seq<Request>)
      requires Valid() && Settled() && out.connected && !out.willClose && !out.closeWhenFlushed
      requires current.Tracks(adj) && !current.expectContinue && |served| == |pieces|
      modifies Repr
      ensures Valid() && fresh(Repr - old(Repr)) && forall r :: r in gone ==> !r.Refused?
      ensures var stream := FeedStream(adj, Reading(old(current).State(), old(Queue())), Join(pieces));
        && (end.Parsed? ==> Matches(stream, gone + Queue(), current.State()))
        && (!end.Parsed? ==> stream.Suspended?)
    {
      hide ParserSlot, ChannelOutput.Valid, Queued, FeedStream, Parser.Tracks, Matches, States;
      ghost var start := Reading(current.State(), Queue());
      gone := [];
      assert gone + Queue() == Queue();
      FeedStreamHalted(adj, start, []);
      ReadingMatches(start);
      for i := 0 to |pieces|
        invariant Valid() && fresh(Repr - old(Repr)) && Settled()
        invariant out.connected && !out.willClose && !out.closeWhenFlushed && forall r :: r in gone ==> !r.Refused?
        invariant var stream := FeedStream(adj, start, Join(pieces[..i]));
          && Matches(stream, gone + Queue(), current.State())
          && (stream.Reading? ==> current.Tracks(adj) && !current.expectContinue)
      {
        ghost var stream := FeedStream(adj, start, Join(pieces[..i]));
        ghost var more := Serve(served[i]);
        assert gone + more + Queue() == gone + (more + Queue());
        gone := gone + more;
        ghost var q, c, views := Queue(), current.State(), queue;
        StreamGoesOn(adj, start, pieces, i, gone, q, c);
        QueueLength();
        StatesPrefix(views, views);
        var e, _ := Received(pieces[i]);
        StatesPrefix(views, queue);
        if pieces[i] == [] {
          FeedStreamHalted(adj, Reading(c, q), []);
          ReadingMatches(Reading(c, q));
        } else if !e.Parsed? {
          return e, gone;
        } else if !out.connected || out.willClose || out.closeWhenFlushed {
          return Ignored, gone;
        }
        StreamArrives(adj, start, pieces, i, gone, q, c, Queue(), current.State());
      }
      assert pieces[..|pieces|] == pieces;
      end := Parsed;
    }
  }

  lemma NoLines(s: Bytes)
    ensures s + Lines(0) == s
  {
  }

  lemma {:induction false} LinesJoin(n: nat, m: nat)
    ensures Lines(n) + Lines(m) == Lines(n + m)
  {
    hide CONTINUE_LINE;
    if m > 0 {
      LinesJoin(n, m - 1);
    }
  }

  lemma LinesAdd(s: Bytes, n: nat, m: nat)
    ensures s + Lines(n) + Lines(m) == s + Lines(n + m)
  {
    hide Lines;
    LinesJoin(n, m);
  }

  lemma StatesFirst(views: seq<Parser>)
    requires views != []
    ensures States(views) == [views[0].State()] + States(views[1..])
  {
  }

  lemma StatesPrefix(a: seq<Parser>, b: seq<Parser>)
    requires a <= b
    ensures States(a) <= States(b) && |States(a)| == |a|
  {
    assert forall i :: 0 <= i < |a| ==> a[i] == b[i];
    assert States(a) == States(b)[..|a|];
  }

  /** A stream stops only with a refused request. */
  lemma {:induction false} StopsRefused(adj: Adjustments, st: Stream, s: Bytes)
    requires st.Reading?
    ensures var r := FeedStream(adj, st, s); r.Stopped? ==> r.queued != [] && r.queued[|r.queued| - 1].Refused?
    decreases |s|
  {
    hide StepRequest, RequestExpects;
    if s != [] {
      var next := Settle(adj, StepRequest(adj, st.current, s[0]), st.queued);
      if next.Reading? {
        StopsRefused(adj, next, s[1..]);
      }
    }
  }

  /** The stream after one more piece, before that is received. */
  lemma StreamGoesOn(adj: Adjustments, start: Stream, pieces: seq<Bytes>, i: nat, gone: seq<Request>,
                     q: seq<Request>, c: Request)
    requires start.Reading? && i < |pieces| && forall r :: r in gone ==> !r.Refused?
    requires Matches(FeedStream(adj, start, Join(pieces[..i])), gone + q, c)
    ensures var s0 := FeedStream(adj, start, Join(pieces[..i])); var s1 := FeedStream(adj, start, Join(pieces[..i + 1]));
      var a := FeedStream(adj, Reading(c, q), pieces[i]);
      && (s0.Reading? ==> s1 == a.(queued := gone + a.queued))
      && (!s0.Reading? ==> s1 == s0)
      && (s0.Stopped? ==> q != [])
      && (s1.Suspended? ==> FeedStream(adj, start, Join(pieces)).Suspended?)
  {
    hide FeedStream, Refines;
    var s0 := FeedStream(adj, start, Join(pieces[..i]));
    assert pieces[..i + 1] == pieces[..i] + [pieces[i]];
    assert pieces[..i + 1] + pieces[i + 1..] == pieces;
    JoinAppend(pieces[..i], pieces[i]);
    JoinBoth(pieces[..i + 1], pieces[i + 1..]);
    FeedStreamSplit(adj, start, Join(pieces[..i]), pieces[i]);
    FeedStreamSplit(adj, start, Join(pieces[..i + 1]), Join(pieces[i + 1..]));
    FeedStreamHalted(adj, s0, pieces[i]);
    FeedStreamHalted(adj, FeedStream(adj, start, Join(pieces[..i + 1])), Join(pieces[i + 1..]));
    StreamShift(adj, c, gone, q, pieces[i]);
    StopsRefused(adj, start, Join(pieces[..i]));
    if s0.Stopped? {
      StoppedIsQueued(s0, gone, q, c);
    }
  }

  /** A refused request is still queued when those before it have been served. */
  lemma StoppedIsQueued(s: Stream, gone: seq<Request>, q: seq<Request>, c: Request)
    requires s.Stopped? && Matches(s, gone + q, c) && s.queued != [] && s.queued[|s.queued| - 1].Refused?
    requires forall r :: r in gone ==> !r.Refused?
    ensures q != []
  {
    var k := |s.queued| - 1;
    assert (gone + q)[k].Refused?;
    assert forall j :: 0 <= j < |gone| ==> (gone + q)[j] == gone[j] && gone[j] in gone;
  }

  /** The same after that piece has been received. */
  lemma StreamArrives(adj: Adjustments, start: Stream, pieces: seq<Bytes>, i: nat, gone: seq<Request>,
                      q: seq<Request>, c: Request, q': seq<Request>, c': Request)
    requires i < |pieces| && q <= q'
    requires var s0 := FeedStream(adj, start, Join(pieces[..i])); var s1 := FeedStream(adj, start, Join(pieces[..i + 1]));
      var a := FeedStream(adj, Reading(c, q), pieces[i]);
      if s0.Reading? then s1 == a.(queued := gone + a.queued) && Matches(a, q', c')
      else s1 == s0 && Matches(s0, gone + q, c)
    ensures Matches(FeedStream(adj, start, Join(pieces[..i + 1])), gone + q', c')
  {
    hide FeedStream, Refines, Join;
    var s1 := FeedStream(adj, start, Join(pieces[..i + 1]));
    var a := FeedStream(adj, Reading(c, q), pieces[i]);
    if FeedStream(adj, start, Join(pieces[..i])).Reading? {
      MatchesShift(a, gone, q', c');
    } else {
      MatchesMore(s1, gone + q, gone + q', c, c');
    }
  }

  lemma MatchesShift(s: Stream, gone: seq<Request>, q: seq<Request>, c: Request)
    requires Matches(s, q, c)
    ensures Matches(s.(queued := gone + s.queued), gone + q, c)
  {
    hide Refines;
    if s.Stopped? {
      var k := |s.queued|;
      assert (gone + q)[..|gone| + k - 1] == gone + q[..k - 1];
      assert (gone + s.queued)[..|gone| + k - 1] == gone + s.queued[..k - 1];
    }
  }

  lemma MatchesMore(s: Stream, q: seq<Request>, q': seq<Request>, c: Request, c': Request)
    requires !s.Reading? && Matches(s, q, c) && q <= q'
    ensures Matches(s, q', c')
  {
    hide Refines;
    if s.Stopped? {
      var k := |s.queued|;
      assert q'[..k - 1] == q[..k - 1];
    }
  }

  lemma ReadingMatches(s: Stream)
    requires s.Reading?
    ensures Matches(s, s.queued, s.current)
  {
  }

  /** Two readings of one stream: the same requests and the same pending one, or the same requests up
      to one that both have refused. */
  predicate Agree(a: seq<Request>, pendingA: Request, b: seq<Request>, pendingB: Request) {
    || (a == b && pendingA == pendingB)
    || exists k :: 0 <= k < |a| && k < |b| && a[..k] == b[..k] && a[k].Refused? && b[k].Refused?
  }

  lemma MatchesAgree(adj: Adjustments, start: Stream, s: Bytes, a: seq<Request>, pendingA: Request, b: seq<Request>, pendingB: Request)
    requires start.Reading? && var stream := FeedStream(adj, start, s);
      !stream.Suspended? && Matches(stream, a, pendingA) && Matches(stream, b, pendingB)
    ensures Agree(a, pendingA, b, pendingB)
  {
    var stream := FeedStream(adj, start, s);
    StopsRefused(adj, start, s);
    if stream.Stopped? {
      var k := |stream.queued| - 1;
      assert a[..k] == b[..k] && a[k].Refused? && b[k].Refused?;
    }
  }

  /** Two open channels in the same state, fed with two cuts of one stream that expects no 100 Continue,
      whatever their workers serve in between: both read it to the end and agree on the requests. */
  method ReceiveTwoCuts(a: HTTPChannel, b: HTTPChannel, piecesA: seq<Bytes>, servedA: seq<nat>, piecesB: seq<Bytes>, servedB: seq<nat>)
    returns (ghost goneA: seq<Request>, ghost goneB: seq<Request>)
    requires a.Valid() && b.Valid() && a.Repr !! b.Repr && a.adj == b.adj
    requires a.Settled() && a.out.connected && !a.out.willClose && !a.out.closeWhenFlushed
    requires b.Settled() && b.out.connected && !b.out.willClose && !b.out.closeWhenFlushed
    requires a.current.Tracks(a.adj) && !a.current.expectContinue && b.current.Tracks(b.adj) && !b.current.expectContinue
    requires a.current.State() == b.current.State() && a.Queue() == b.Queue()
    requires |servedA| == |piecesA| && |servedB| == |piecesB| && Join(piecesA) == Join(piecesB)
    requires !FeedStream(a.adj, Reading(a.current.State(), a.Queue()), Join(piecesA)).Suspended?
    modifies a.Repr, b.Repr
    ensures Agree(goneA + a.Queue(), a.current.State(), goneB + b.Queue(), b.current.State())
  {
    hide HTTPChannel.Valid, FeedStream, Parser.Tracks, Matches, States, Agree;
    ghost var start := Reading(a.current.State(), a.Queue());
    var endA, endB;
    Apart(a, b);
    endA, goneA := a.ReceiveAll(piecesA, servedA);
    ghost var queueA, pendingA := a.Queue(), a.current.State();
    endB, goneB := b.ReceiveAll(piecesB, servedB);
    MatchesAgree(a.adj, start, Join(piecesA), goneA + queueA, pendingA, goneB + b.Queue(), b.current.State());
  }

  lemma Apart(a: HTTPChannel, b: HTTPChannel)
    requires a.Valid() && b.Valid() && a.Repr !! b.Repr
    ensures a !in b.Repr && b !in a.Repr && a in a.Repr && b in b.Repr
    ensures b.out in b.Repr && b.out.Repr <= b.Repr
  {
  }
}
