/** What a WSGI task hands to its channel, as a function of what the application does, and why a client
    can read it back. */
module TaskRuns {
  import opened ByteStrings
  import opened Wrappers
  import opened ChunkFraming
  import opened Headers
  import opened Responses

  // ---------- the application ----------

  /** How a call ends: normally, with an OSError, or with any other exception. */
  datatype Fault = NoFault | SocketFault | OtherFault

  /** What the application does, in order. `excInfo` is the exception it passes to `start_response`,
      `caught` says that it handles what the call raises. */
  datatype Action =
    | Start(status: Bytes, headers: seq<Header>, excInfo: Fault, caught: bool)
    | Write(data: Bytes, caught: bool)
    | Yield(data: Bytes)
    | Fail(fault: Fault)

  /** The request, the settings, and `int()`, which is partial. */
  datatype Settings = Settings(
    context: Context,
    isHead: bool,
    logSocketErrors: bool,
    toInt: Bytes -> Option<int>)

  // ---------- the task ----------

  /** `patience` is the number of writes that the channel takes before the client has gone. */
  datatype Task = Task(
    status: Bytes,
    headers: seq<Header>,
    wroteHeader: bool,
    contentLength: Option<int>,
    written: int,
    chunked: bool,
    closes: bool,
    complete: bool,
    patience: Option<nat>,
    out: Bytes)

  datatype Outcome = Outcome(task: Task, fault: Fault)

  const OK_STATUS := Ascii("200 OK")

  function NewTask(patience: Option<nat>): Task {
    Task(OK_STATUS, [], false, None, 0, false, false, false, patience, [])
  }

  /** Any other version is answered as 1.0. */
  function Supported(s: Settings): Settings {
    if s.context.version in {VERSION_1_0, VERSION_1_1} then s
    else s.(context := s.context.(version := VERSION_1_0))
  }

  predicate Gone(t: Task) { t.patience == Some(0) }

  /** `channel.write_soon` */
  function Put(t: Task, data: Bytes): Outcome {
    if Gone(t) then Outcome(t, OtherFault)
    else
      var left := if t.patience.Some? then Some(t.patience.value - 1) else None;
      Outcome(t.(out := t.out + data, patience := left), NoFault)
  }

  function SetCloseOnFinish(t: Task): Task {
    t.(headers := if t.wroteHeader then t.headers else WithClose(t.headers), closes := true)
  }

  function WriteHeader(s: Settings, t: Task): Outcome {
    if t.wroteHeader then Outcome(t, NoFault)
    else
      var b := BuildHeaders(s.context, t.headers, t.contentLength, t.closes, HasBody(t.status));
      var t1 := t.(headers := b.headers, closes := b.closes, chunked := t.chunked || b.chunked);
      var r := Put(t1, Render(s.context.version, t1.status, t1.headers));
      if r.fault.NoFault? then r.(task := r.task.(wroteHeader := true)) else r
  }

  /** Python's `data[:k]` */
  function Prefix(data: Bytes, k: int): (r: Bytes)
    ensures r <= data
    ensures k >= 0 ==> |r| == Min(k, |data|)
  {
    if k >= 0 then data[..Min(k, |data|)]
    else if |data| + k > 0 then data[..|data| + k]
    else []
  }

  function WriteBody(t: Task, data: Bytes): Outcome {
    if data == [] then Outcome(t, NoFault)
    else if !HasBody(t.status) then Outcome(t.(written := t.written + |data|), NoFault)
    else if t.chunked then Put(t, EncodeChunk(data))
    else if t.contentLength.None? then Put(t, data)
    else
      var towrite := Prefix(data, t.contentLength.value - t.written);
      var t1 := t.(written := t.written + |towrite|);
      if towrite == [] then Outcome(t1, NoFault) else Put(t1, towrite)
  }

  function WriteData(s: Settings, t: Task, data: Bytes): Outcome {
    if !t.complete then Outcome(t, OtherFault)
    else
      var r := WriteHeader(s, t);
      if r.fault.NoFault? then WriteBody(r.task, data) else r
  }

  predicate IsHopByHop(name: Bytes) {
    Lower(name) in {
      Ascii("connection"), Ascii("keep-alive"), Ascii("proxy-authenticate"), Ascii("proxy-authorization"),
      Ascii("te"), Ascii("trailer"), Ascii("transfer-encoding"), Ascii("upgrade")}
  }

  /** The length noted after the headers have been looked at, and whether they pass. */
  function CheckHeaders(s: Settings, headers: seq<Header>, noted: Option<int>): (Option<int>, bool) {
    if headers == [] then (noted, true)
    else
      var h := headers[0];
      if !NoEol(h.value) || !NoEol(h.name) then (noted, false)
      else if Named(h, CONTENT_LENGTH_NAME) then
        var n := s.toInt(h.value);
        if n.None? then (noted, false) else CheckHeaders(s, headers[1..], n)
      else if IsHopByHop(h.name) then (noted, false)
      else CheckHeaders(s, headers[1..], noted)
  }

  function StartResponse(s: Settings, t: Task, status: Bytes, headers: seq<Header>, excInfo: Fault): Outcome {
    if t.complete && excInfo.NoFault? then Outcome(t, OtherFault)
    else if !excInfo.NoFault? && t.wroteHeader then Outcome(t, excInfo)
    else
      var t1 := t.(headers := if excInfo.NoFault? then t.headers else [], complete := true);
      if !NoEol(status) then Outcome(t1, OtherFault)
      else
        var (noted, passed) := CheckHeaders(s, headers, t1.contentLength);
        var t2 := t1.(status := status, contentLength := noted);
        if passed then Outcome(t2.(headers := t2.headers + headers), NoFault) else Outcome(t2, OtherFault)
  }

  /** One piece of the iterable. `first` says that it is the first, `count` is `len()` of the iterable. */
  function TakePiece(s: Settings, t: Task, data: Bytes, first: bool, count: Option<nat>): Outcome {
    var t1 := if first && t.contentLength.None? && count == Some(1) then t.(contentLength := Some(|data|)) else t;
    if data == [] then Outcome(t1, NoFault) else WriteData(s, t1, data)
  }

  function Perform(s: Settings, t: Task, actions: seq<Action>, first: bool, count: Option<nat>): Outcome
    decreases |actions|
  {
    if actions == [] then Outcome(t, NoFault)
    else
      match actions[0]
      case Start(status, headers, excInfo, caught) =>
        var r := StartResponse(s, t, status, headers, excInfo);
        if r.fault.NoFault? || caught then Perform(s, r.task, actions[1..], first, count) else r
      case Write(data, caught) =>
        var r := WriteData(s, t, data);
        if r.fault.NoFault? || caught then Perform(s, r.task, actions[1..], first, count) else r
      case Yield(data) =>
        var r := TakePiece(s, t, data, first, count);
        if r.fault.NoFault? then Perform(s, r.task, actions[1..], false, count) else r
      case Fail(fault) =>
        if fault.NoFault? then Perform(s, t, actions[1..], first, count) else Outcome(t, fault)
  }

  /** A body shorter than its declared length cannot be followed by another response. */
  function CheckLength(s: Settings, t: Task): Task {
    if t.contentLength.Some? && t.written != t.contentLength.value && !s.isHead then SetCloseOnFinish(t) else t
  }

  function Execute(s: Settings, t: Task, actions: seq<Action>, count: Option<nat>): Outcome {
    var r := Perform(s, t, actions, true, count);
    if r.fault.NoFault? then r.(task := CheckLength(s, r.task)) else r
  }

  function Finish(s: Settings, t: Task): Outcome {
    var r := if t.wroteHeader then Outcome(t, NoFault) else WriteData(s, t, []);
    if r.fault.NoFault? && r.task.chunked then Put(r.task, LAST_CHUNK) else r
  }

  function Respond(s: Settings, t: Task, actions: seq<Action>, count: Option<nat>): Outcome {
    var r := Execute(s, t, actions, count);
    if r.fault.NoFault? then Finish(s, r.task) else r
  }

  /** `service` swallows an OSError, unless socket errors are logged. */
  function Service(s: Settings, t: Task, actions: seq<Action>, count: Option<nat>): Outcome {
    var r := Respond(s, t, actions, count);
    if !r.fault.SocketFault? then r
    else Outcome(r.task.(closes := true), if s.logSocketErrors then SocketFault else NoFault)
  }

  // ---------- what the claims assume and speak of ----------

  /** `int()` reads a string of digits as the number it is, where it reads it at all. */
  ghost predicate ReadsDigits(s: Settings) {
    forall v :: AllDigits(v) && s.toInt(v).Some? ==> s.toInt(v) == Some(DecimalValue(v))
  }

  /** Token names, and at most one Content-Length, which is a string of digits. */
  ghost predicate GoodHeaders(hs: seq<Header>) {
    && (forall h :: h in hs ==> IsToken(h.name))
    && (forall h :: h in hs && Named(h, CONTENT_LENGTH_NAME) ==> AllDigits(h.value))
    && (forall i, j :: 0 <= i < j < |hs| ==> !(Named(hs[i], CONTENT_LENGTH_NAME) && Named(hs[j], CONTENT_LENGTH_NAME)))
  }

  ghost predicate GoodActions(actions: seq<Action>) {
    forall a :: a in actions && a.Start? ==> GoodStatus(a.status) && GoodHeaders(a.headers)
  }

  /** The non-empty pieces of body that the application has handed over, in order. A `write` before
      `start_response` is refused. */
  function Pieces(actions: seq<Action>, complete: bool): seq<Bytes>
    decreases |actions|
  {
    if actions == [] then []
    else
      match actions[0]
      case Start(_, _, _, _) => Pieces(actions[1..], true)
      case Write(data, _) => (if complete then Piece(data) else []) + Pieces(actions[1..], complete)
      case Yield(data) => Piece(data) + Pieces(actions[1..], complete)
      case Fail(_) => Pieces(actions[1..], complete)
  }

  function Piece(data: Bytes): seq<Bytes> {
    if data == [] then [] else [data]
  }

  // ---------- invariants ----------

  /** Before the header section is written. */
  ghost predicate Unsent(t: Task) {
    && !t.wroteHeader && t.out == [] && t.written == 0 && !t.chunked
    && NoEol(t.status) && GoodStatus(t.status) && Sound(t.headers, t.contentLength)
    && (!t.complete ==> t.headers == [])
    && (t.closes <==> SaysClose(t.headers))
  }

  /** After it. `declared` is the length in it, `early` says that the task had decided to close before. */
  ghost predicate Sent(c: Context, t: Task, pieces: seq<Bytes>, declared: Option<nat>, early: bool, payload: Bytes) {
    && t.wroteHeader && t.complete
    && t.out == Render(c.version, t.status, t.headers) + payload && CleanHeaders(t.status, t.headers)
    && (t.closes <==> early || !PeerKeeps(c) || declared.None?)
    && (t.closes <==> AnnouncesClose(c.version, t.headers))
    && (Bodiless(Code(t.status)) ==> Unframed(t.headers) && payload == [])
    && (forall i :: 0 <= i < |pieces| ==> pieces[i] != [])
    && (declared.Some? ==>
      && HasBody(t.status) && !t.chunked && Delimits(t.status, t.headers, declared.value)
      && t.contentLength == Some(declared.value as int) && t.written == |payload|)
    && (t.chunked ==> DelimitsChunked(t.status, t.headers) && payload == EncodeChunks(pieces))
    && (!t.chunked ==> if HasBody(t.status) then Truncated(t, pieces, payload) else payload == [])
  }

  /** The payload is what the application gave, up to the length that is known. */
  predicate Truncated(t: Task, pieces: seq<Bytes>, payload: Bytes) {
    && payload <= Join(pieces)
    && (t.contentLength.None? ==> t.written == 0 && payload == Join(pieces))
    && (t.contentLength.Some? ==> 0 <= t.written <= t.contentLength.value)
    && (t.contentLength.Some? && t.written < t.contentLength.value ==> payload == Join(pieces))
  }

  ghost predicate Running(c: Context, t: Task, pieces: seq<Bytes>) {
    && (t.wroteHeader ==> t.complete)
    && (|| Gone(t)
        || (Unsent(t) && !t.closes && pieces == [])
        || (exists declared, payload :: Sent(c, t, pieces, declared, false, payload)))
  }

  lemma {:induction false} EncodeAppend(pieces: seq<Bytes>, data: Bytes)
    ensures EncodeChunks(pieces + [data]) == EncodeChunks(pieces) + EncodeChunk(data)
    decreases |pieces|
  {
    hide EncodeChunk;
    if pieces == [] {
      assert [data][1..] == [];
    } else {
      assert (pieces + [data])[1..] == pieces[1..] + [data];
      EncodeAppend(pieces[1..], data);
    }
  }

  // ---------- start_response ----------

  lemma HopByHop(h: Header)
    requires Named(h, TRANSFER_ENCODING_NAME) || Named(h, CONNECTION_NAME)
    ensures IsHopByHop(h.name)
  {
    assert Lower(TRANSFER_ENCODING_NAME) == Ascii("transfer-encoding");
    assert Lower(CONNECTION_NAME) == Ascii("connection");
  }

  /** Headers that pass leave a noted length that they all agree with. */
  lemma {:induction false} CheckedHeaders(s: Settings, headers: seq<Header>, noted: Option<int>)
    requires ReadsDigits(s) && GoodHeaders(headers) && (noted.Some? ==> noted.value >= 0)
    ensures var (after, passed) := CheckHeaders(s, headers, noted);
      && (after.Some? ==> after.value >= 0)
      && (passed ==> Sound(headers, after) && forall h :: h in headers ==> !Named(h, CONNECTION_NAME))
      && (passed && (forall h :: h in headers ==> !Named(h, CONTENT_LENGTH_NAME)) ==> after == noted)
    decreases |headers|
  {
    hide Named, IsHopByHop, AllDigits, DecimalValue, IsToken, NoEol;
    if headers != [] {
      var h := headers[0];
      var more := headers[1..];
      assert h in headers;
      GoodTail(headers);
      if Named(h, CONTENT_LENGTH_NAME) {
        forall g | g in more ensures !Named(g, CONTENT_LENGTH_NAME) {
          var j :| 0 <= j < |more| && more[j] == g;
          assert headers[j + 1] == g;
        }
        if NoEol(h.value) && NoEol(h.name) && s.toInt(h.value).Some? {
          CheckedHeaders(s, more, s.toInt(h.value));
          LengthHeader(h);
        }
      } else if NoEol(h.value) && NoEol(h.name) && !IsHopByHop(h.name) {
        CheckedHeaders(s, more, noted);
        if Named(h, TRANSFER_ENCODING_NAME) || Named(h, CONNECTION_NAME) {
          HopByHop(h);
        }
      }
    }
  }

  /** The header fields of one hop that an application must not set, by section 13.5.1 of RFC 2616. */
  predicate OfOneHop(h: Header) {
    || Named(h, Ascii("Connection")) || Named(h, Ascii("Keep-Alive"))
    || Named(h, Ascii("Proxy-Authenticate")) || Named(h, Ascii("Proxy-Authorization"))
    || Named(h, Ascii("TE")) || Named(h, Ascii("Trailer"))
    || Named(h, Ascii("Transfer-Encoding")) || Named(h, Ascii("Upgrade"))
  }

  lemma HopNames(h: Header)
    requires OfOneHop(h)
    ensures IsHopByHop(h.name) && !Named(h, CONTENT_LENGTH_NAME)
  {
    FirstHopNames();
    MoreHopNames();
    assert |Lower(CONTENT_LENGTH_NAME)| == 14;
  }

  lemma FirstHopNames()
    ensures Lower(Ascii("Connection")) == Ascii("connection") && Lower(Ascii("Keep-Alive")) == Ascii("keep-alive")
    ensures Lower(Ascii("TE")) == Ascii("te") && Lower(Ascii("Trailer")) == Ascii("trailer")
    ensures Lower(Ascii("Upgrade")) == Ascii("upgrade")
  {
  }

  lemma MoreHopNames()
    ensures Lower(Ascii("Proxy-Authenticate")) == Ascii("proxy-authenticate")
    ensures Lower(Ascii("Proxy-Authorization")) == Ascii("proxy-authorization")
    ensures Lower(Ascii("Transfer-Encoding")) == Ascii("transfer-encoding")
  {
  }

  /** No such header gets through `start_response`, in whatever letter case and company. */
  lemma {:induction false} HopByHopIsRefused(s: Settings, headers: seq<Header>, noted: Option<int>)
    requires exists h :: h in headers && OfOneHop(h)
    ensures !CheckHeaders(s, headers, noted).1
    decreases |headers|
  {
    hide Named, IsHopByHop, NoEol, OfOneHop;
    var h := headers[0];
    if OfOneHop(h) {
      HopNames(h);
    } else {
      var g :| g in headers && OfOneHop(g);
      assert g in headers[1..];
      HopByHopIsRefused(s, headers[1..], noted);
      if s.toInt(h.value).Some? {
        HopByHopIsRefused(s, headers[1..], s.toInt(h.value));
      }
    }
  }

  lemma GoodTail(headers: seq<Header>)
    requires GoodHeaders(headers) && headers != []
    ensures GoodHeaders(headers[1..])
  {
    hide Named, AllDigits, IsToken;
    var more := headers[1..];
    forall i, j | 0 <= i < j < |more| ensures !(Named(more[i], CONTENT_LENGTH_NAME) && Named(more[j], CONTENT_LENGTH_NAME)) {
      assert more[i] == headers[i + 1] && more[j] == headers[j + 1];
    }
  }

  lemma LengthHeader(h: Header)
    requires Named(h, CONTENT_LENGTH_NAME)
    ensures !Named(h, TRANSFER_ENCODING_NAME) && !Named(h, CONNECTION_NAME)
  {
    LengthNames();
  }

  lemma StartKeeps(s: Settings, t: Task, status: Bytes, headers: seq<Header>, excInfo: Fault, pieces: seq<Bytes>)
    requires ReadsDigits(s) && GoodStatus(status) && GoodHeaders(headers) && Running(s.context, t, pieces)
    ensures var r := StartResponse(s, t, status, headers, excInfo);
      Running(s.context, r.task, pieces) && r.task.complete
  {
    hide ReadsDigits, GoodHeaders, CheckHeaders, NoEol, Render, Truncated, Sent, SoundHeader, Lower, GoodStatus;
    var r := StartResponse(s, t, status, headers, excInfo);
    if Gone(t) {
      assert Gone(r.task);
    } else if Unsent(t) && !t.closes && pieces == [] {
      CheckedHeaders(s, headers, t.contentLength);
      FieldNames();
      assert (t.complete && excInfo.NoFault?) || Unsent(r.task);
    } else {
      SentFacts(s.context, t, pieces);
    }
  }

  lemma SentFacts(c: Context, t: Task, pieces: seq<Bytes>)
    requires exists declared, payload :: Sent(c, t, pieces, declared, false, payload)
    ensures t.wroteHeader && t.complete
  {
  }

  // ---------- write ----------

  /** Writing the header section fixes how the body is delimited. */
  lemma HeaderKeeps(s: Settings, t: Task)
    requires Unsent(t) && t.complete && GoodContext(s.context) && !Gone(t)
    ensures var r := WriteHeader(s, t);
      && r.fault.NoFault?
      && var declared := if HasBody(t.status) && t.contentLength.Some? then Some(t.contentLength.value as nat) else None;
        Sent(s.context, r.task, [], declared, t.closes, [])
  {
    hide BuildHeaders, Render, PeerKeeps, HasBody, Delimits, DelimitsChunked, Sound;
    HeaderSection(s.context, t.status, t.headers, t.contentLength, t.closes);
    assert t.contentLength.Some? ==> t.contentLength.value >= 0 by { SoundLength(t); }
    var r := WriteHeader(s, t);
    var head := Render(s.context.version, r.task.status, r.task.headers);
    assert t.out + head == head + [];
  }

  lemma SoundLength(t: Task)
    requires Sound(t.headers, t.contentLength)
    ensures t.contentLength.Some? ==> t.contentLength.value >= 0
  {
  }

  /** What the next piece adds to a body that is not chunked. */
  function Sendable(t: Task, data: Bytes): Bytes {
    if t.contentLength.None? then data else Prefix(data, t.contentLength.value - t.written)
  }

  lemma PlainBody(t: Task, data: Bytes, pieces: seq<Bytes>, payload: Bytes)
    requires Truncated(t, pieces, payload)
    ensures var more := Sendable(t, data);
      var n := if t.contentLength.Some? then |more| else 0;
      Truncated(t.(written := t.written + n), pieces + [data], payload + more)
  {
    JoinAppend(pieces, data);
    hide Join;
    var more := Sendable(t, data);
    assert more <= data;
    assert payload == Join(pieces) ==> payload + more <= Join(pieces) + data;
    if t.contentLength.Some? && t.written == t.contentLength.value {
      assert payload + more == payload;
    }
  }

  lemma BodyStep(t: Task, data: Bytes)
    requires data != [] && HasBody(t.status) && !Gone(t)
    ensures var r := WriteBody(t, data);
      var more := if t.chunked then EncodeChunk(data) else Sendable(t, data);
      var n := if t.chunked || t.contentLength.None? then 0 else |more|;
      r.fault.NoFault? && r.task == t.(out := t.out + more, written := t.written + n, patience := r.task.patience)
  {
    hide EncodeChunk, HasBody;
  }

  lemma BodyKeeps(c: Context, t: Task, data: Bytes, pieces: seq<Bytes>, declared: Option<nat>, payload: Bytes)
    requires Sent(c, t, pieces, declared, false, payload) && !Gone(t)
    ensures var r := WriteBody(t, data); r.fault.NoFault? && Running(c, r.task, pieces + Piece(data))
  {
    hide Render, PeerKeeps, HasBody, Delimits, DelimitsChunked, EncodeChunk, EncodeChunks, Join, Truncated;
    hide GoodStatus, Bodiless, Code, AnnouncesClose, Unframed;
    BodyByCode(t.status);
    var r := WriteBody(t, data);
    var pieces' := pieces + Piece(data);
    if data == [] {
      assert pieces' == pieces;
      assert Sent(c, r.task, pieces', declared, false, payload);
    } else if !HasBody(t.status) {
      assert pieces' == pieces + [data];
      if t.chunked {
        ChunkedHasBody(t.status, t.headers);
      }
      assert Sent(c, r.task, pieces', declared, false, payload);
    } else {
      hide WriteBody;
      BodyStep(t, data);
      assert pieces' == pieces + [data];
      EncodeAppend(pieces, data);
      var head := Render(c.version, t.status, t.headers);
      var more := if t.chunked then EncodeChunk(data) else Sendable(t, data);
      assert r.task.out == head + (payload + more);
      if !t.chunked {
        PlainBody(t, data, pieces, payload);
        var n := if t.contentLength.Some? then |more| else 0;
        TruncatedFields(t.(written := t.written + n), r.task, pieces', payload + more);
      }
      assert Sent(c, r.task, pieces', declared, false, payload + more);
    }
  }

  lemma TruncatedFields(t: Task, u: Task, pieces: seq<Bytes>, payload: Bytes)
    requires Truncated(t, pieces, payload) && t.contentLength == u.contentLength && t.written == u.written
    ensures Truncated(u, pieces, payload)
  {
  }

  lemma ChunkedHasBody(status: Bytes, hs: seq<Header>)
    requires DelimitsChunked(status, hs)
    ensures HasBody(status)
  {
  }

  lemma GoneStays(s: Settings, t: Task, data: Bytes)
    requires Gone(t)
    ensures Gone(WriteHeader(s, t).task) && Gone(WriteBody(t, data).task)
    ensures WriteHeader(s, t).task.complete == WriteBody(t, data).task.complete == t.complete
  {
    hide BuildHeaders, Render, HasBody, EncodeChunk;
  }

  /** Once the header section is out, or can go out, a write knows how the body is delimited. */
  lemma HeaderDone(s: Settings, t: Task, pieces: seq<Bytes>) returns (declared: Option<nat>, payload: Bytes)
    requires Running(s.context, t, pieces) && GoodContext(s.context) && t.complete && !Gone(t)
    ensures WriteHeader(s, t).fault.NoFault?
    ensures Sent(s.context, WriteHeader(s, t).task, pieces, declared, false, payload)
  {
    hide Sent, Unsent, WriteHeader, GoodContext, HasBody;
    if Unsent(t) && !t.closes && pieces == [] {
      HeaderKeeps(s, t);
      UnsentLength(t);
      declared := if HasBody(t.status) && t.contentLength.Some? then Some(t.contentLength.value as nat) else None;
      payload := [];
    } else {
      declared, payload :| Sent(s.context, t, pieces, declared, false, payload);
      HeaderOnce(s, t, pieces, declared, payload);
    }
  }

  lemma UnsentLength(t: Task)
    requires Unsent(t)
    ensures t.contentLength.Some? ==> t.contentLength.value >= 0
    ensures !t.wroteHeader && t.written == 0 && !t.chunked
  {
  }

  lemma HeaderOnce(s: Settings, t: Task, pieces: seq<Bytes>, declared: Option<nat>, payload: Bytes)
    requires Sent(s.context, t, pieces, declared, false, payload)
    ensures WriteHeader(s, t) == Outcome(t, NoFault)
  {
  }

  lemma BodyComplete(t: Task, data: Bytes)
    ensures WriteBody(t, data).task.complete == t.complete
  {
    hide HasBody, EncodeChunk;
  }

  lemma HeaderComplete(s: Settings, t: Task)
    ensures var u := WriteHeader(s, t).task; u.complete == t.complete && u.contentLength == t.contentLength
  {
    hide BuildHeaders, Render, HasBody;
  }

  lemma WriteKeeps(s: Settings, t: Task, data: Bytes, pieces: seq<Bytes>)
    requires Running(s.context, t, pieces) && GoodContext(s.context)
    ensures var r := WriteData(s, t, data);
      && Running(s.context, r.task, if t.complete then pieces + Piece(data) else pieces)
      && (r.task.complete <==> t.complete)
      && (Gone(t) ==> Gone(r.task))
      && (!Gone(r.task) && t.complete ==> r.fault.NoFault?)
  {
    hide Sent, Unsent, WriteBody, WriteHeader, GoodContext;
    if t.complete {
      var r1 := WriteHeader(s, t);
      HeaderComplete(s, t);
      BodyComplete(r1.task, data);
      if Gone(t) {
        GoneStays(s, t, data);
        GoneStays(s, r1.task, data);
      } else {
        var declared, payload := HeaderDone(s, t, pieces);
        if Gone(r1.task) {
          GoneStays(s, r1.task, data);
        } else {
          BodyKeeps(s.context, r1.task, data, pieces, declared, payload);
        }
      }
    }
  }

  // ---------- a whole run ----------

  lemma PieceKeeps(s: Settings, t: Task, data: Bytes, first: bool, count: Option<nat>, pieces: seq<Bytes>)
    requires Running(s.context, t, pieces) && GoodContext(s.context)
    ensures var r := TakePiece(s, t, data, first, count);
      && (r.fault.NoFault? ==> Running(s.context, r.task, pieces + Piece(data)))
      && (Gone(t) ==> Gone(r.task))
      && (r.task.complete <==> t.complete)
  {
    hide WriteData, GoodContext;
    var t1 := if first && t.contentLength.None? && count == Some(1) then t.(contentLength := Some(|data|)) else t;
    NotedLength(s.context, t, |data|, pieces);
    assert pieces + [] == pieces;
    hide Running;
    if data != [] {
      WriteKeeps(s, t1, data, pieces);
      IncompleteRaises(s, t1, data);
    }
  }

  lemma IncompleteRaises(s: Settings, t: Task, data: Bytes)
    ensures !t.complete ==> !WriteData(s, t, data).fault.NoFault?
  {
    hide WriteHeader, WriteBody;
  }

  /** The length of a single piece, noted before or after the header section went out. */
  lemma NotedLength(c: Context, t: Task, n: nat, pieces: seq<Bytes>)
    requires Running(c, t, pieces)
    ensures t.contentLength.None? ==> Running(c, t.(contentLength := Some(n)), pieces)
  {
    hide Render, HasBody, Delimits, DelimitsChunked, PeerKeeps, Named, CleanHeader, AllDigits, DecimalValue, EncodeChunks, Join;
    if t.contentLength.None? && !Gone(t) {
      var u := t.(contentLength := Some(n));
      if Unsent(t) && !t.closes && pieces == [] {
        assert forall h :: h in t.headers ==> SoundHeader(h, Some(n as int)) by {
          assert forall h :: h in t.headers ==> SoundHeader(h, None);
        }
        assert Unsent(u);
      } else {
        var declared, payload :| Sent(c, t, pieces, declared, false, payload);
        assert Sent(c, u, pieces, declared, false, payload);
      }
    }
  }

  lemma {:induction false} PerformKeeps(s: Settings, t: Task, actions: seq<Action>, first: bool, count: Option<nat>,
                                        pieces: seq<Bytes>)
    requires Running(s.context, t, pieces) && GoodContext(s.context) && ReadsDigits(s) && GoodActions(actions)
    ensures var r := Perform(s, t, actions, first, count);
      r.fault.NoFault? ==> Running(s.context, r.task, pieces + Pieces(actions, t.complete))
    decreases |actions|
  {
    hide Running, StartResponse, WriteData, TakePiece, GoodContext, ReadsDigits, GoodHeaders, Piece;
    if actions == [] {
      assert pieces + [] == pieces;
    } else {
      var more := actions[1..];
      assert actions[0] in actions && forall a :: a in more ==> a in actions;
      match actions[0]
      case Start(status, headers, excInfo, caught) =>
        var r := StartResponse(s, t, status, headers, excInfo);
        StartKeeps(s, t, status, headers, excInfo, pieces);
        if r.fault.NoFault? || caught {
          PerformKeeps(s, r.task, more, first, count, pieces);
        }
      case Write(data, caught) =>
        var r := WriteData(s, t, data);
        WriteKeeps(s, t, data, pieces);
        var pieces' := if t.complete then pieces + Piece(data) else pieces;
        assert pieces' + Pieces(more, t.complete) == pieces + Pieces(actions, t.complete);
        if r.fault.NoFault? || caught {
          PerformKeeps(s, r.task, more, first, count, pieces');
        }
      case Yield(data) =>
        var r := TakePiece(s, t, data, first, count);
        PieceKeeps(s, t, data, first, count, pieces);
        assert pieces + Piece(data) + Pieces(more, t.complete) == pieces + Pieces(actions, t.complete);
        if r.fault.NoFault? {
          PerformKeeps(s, r.task, more, false, count, pieces + Piece(data));
        }
      case Fail(fault) =>
        if fault.NoFault? {
          PerformKeeps(s, t, more, first, count, pieces);
        }
    }
  }

  // ---------- the end of a run ----------

  /** The output of a finished task, its header section and what follows it. */
  ghost predicate Delivered(c: Context, t: Task, pieces: seq<Bytes>, declared: Option<nat>, payload: Bytes) {
    && t.out == Render(c.version, t.status, t.headers) + payload && CleanHeaders(t.status, t.headers)
    && (t.closes <==> !PeerKeeps(c) || declared.None? || |Join(pieces)| < declared.value)
    && (t.closes <==> AnnouncesClose(c.version, t.headers) || (declared.Some? && |Join(pieces)| < declared.value))
    && (Bodiless(Code(t.status)) ==> Unframed(t.headers) && payload == [] && declared.None? && !t.chunked)
    && (declared.Some? ==>
      && Delimits(t.status, t.headers, declared.value) && t.contentLength == Some(declared.value as int) && !t.chunked
      && payload == Prefix(Join(pieces), declared.value))
    && (t.chunked ==> DelimitsChunked(t.status, t.headers) && payload == Encode(pieces))
    && (!t.chunked ==> payload <= Join(pieces))
  }

  lemma FinishSent(s: Settings, t: Task, pieces: seq<Bytes>, declared: Option<nat>, payload: Bytes)
    requires Sent(s.context, t, pieces, declared, false, payload) && !s.isHead && !Gone(t)
    ensures var r := Finish(s, CheckLength(s, t));
      r.fault.NoFault? && exists payload' :: Delivered(s.context, r.task, pieces, declared, payload')
  {
    hide Render, PeerKeeps, HasBody, Delimits, DelimitsChunked, EncodeChunks, Join;
    hide GoodStatus, Bodiless, Code, AnnouncesClose, Unframed, WithClose;
    BodyByCode(t.status);
    var c := s.context;
    var head := Render(c.version, t.status, t.headers);
    var r := Finish(s, CheckLength(s, t));
    if t.chunked {
      ChunkedHasBody(t.status, t.headers);
      assert r.task.out == head + Encode(pieces);
      assert Delivered(c, r.task, pieces, declared, Encode(pieces));
    } else {
      if declared.Some? {
        assert payload == Prefix(Join(pieces), declared.value);
      }
      assert Delivered(c, r.task, pieces, declared, payload);
    }
  }

  lemma FinishUnsent(s: Settings, t: Task)
    requires Unsent(t) && !t.closes && GoodContext(s.context) && !s.isHead
    ensures var r := Finish(s, CheckLength(s, t));
      r.fault.NoFault? && !Gone(t) ==> exists declared, payload :: Delivered(s.context, r.task, [], declared, payload)
  {
    hide WriteHeader, GoodContext, Render, PeerKeeps, HasBody, Delimits, DelimitsChunked, WithClose;
    hide GoodStatus, SaysClose, Bodiless, Code, AnnouncesClose, Unframed;
    var u := CheckLength(s, t);
    SoundCloses(t.headers, t.contentLength);
    WithCloseSays(t.headers);
    WithCloseSound(t.headers, t.contentLength);
    if u.complete && !Gone(t) {
      HeaderKeeps(s, u);
      var r := WriteHeader(s, u);
      UnsentLength(t);
      var declared := if HasBody(u.status) && u.contentLength.Some? then Some(u.contentLength.value as nat) else None;
      HeaderComplete(s, u);
      FinishHeader(s, u, declared);
    }
  }

  lemma WithCloseSound(hs: seq<Header>, contentLength: Option<int>)
    requires Sound(hs, contentLength)
    ensures Sound(WithClose(hs), contentLength)
  {
    WithCloseAdds(hs);
    ConnectionOwn(Header(CONNECTION_NAME, CLOSE));
    OwnHeader(Header(CONNECTION_NAME, CLOSE));
    hide SoundHeader, WithClose;
    assert SoundHeader(Header(CONNECTION_NAME, CLOSE), contentLength) by { OwnSound(contentLength); }
  }

  lemma OwnSound(contentLength: Option<int>)
    ensures SoundHeader(Header(CONNECTION_NAME, CLOSE), contentLength)
  {
    ConnectionOwn(Header(CONNECTION_NAME, CLOSE));
    OwnHeader(Header(CONNECTION_NAME, CLOSE));
  }

  lemma NothingToWrite(s: Settings, t: Task)
    ensures WriteBody(WriteHeader(s, t).task, []) == Outcome(WriteHeader(s, t).task, NoFault)
  {
  }

  lemma NoChunks()
    ensures EncodeChunks([]) == [] && Encode([]) == LAST_CHUNK
  {
  }

  /** A response without body pieces: the header section is written by `finish`. */
  lemma FinishHeader(s: Settings, u: Task, declared: Option<nat>)
    requires !u.wroteHeader && u.complete
    requires u.closes <==> u.contentLength.Some? && u.contentLength.value != 0
    requires declared.None? || u.contentLength == Some(declared.value as int)
    requires WriteHeader(s, u).fault.NoFault? && Sent(s.context, WriteHeader(s, u).task, [], declared, u.closes, [])
    requires WriteHeader(s, u).task.contentLength == u.contentLength
    ensures var r := Finish(s, u); r.fault.NoFault? ==> exists payload :: Delivered(s.context, r.task, [], declared, payload)
  {
    hide WriteHeader, WriteBody, Render, PeerKeeps, HasBody, Delimits, DelimitsChunked, EncodeChunks, LAST_CHUNK;
    hide GoodStatus, Bodiless, Code, AnnouncesClose, Unframed;
    NoChunks();
    assert WriteBody(WriteHeader(s, u).task, []) == Outcome(WriteHeader(s, u).task, NoFault) by { NothingToWrite(s, u); }
    var w := WriteHeader(s, u).task;
    BodyByCode(w.status);
    var r := Finish(s, u);
    if r.fault.NoFault? {
      if w.chunked {
        ChunkedHasBody(w.status, w.headers);
        assert Delivered(s.context, r.task, [], declared, LAST_CHUNK);
      } else {
        assert Delivered(s.context, r.task, [], declared, []);
      }
    }
  }

  /** A task that ends normally while the client is there has written one response: its header section
      and, by the length it declares, that prefix of what the application gave. It stays open exactly
      when the client wants that, a length was declared, and the application gave that much. */
  lemma ResponseDelivered(s: Settings, patience: Option<nat>, actions: seq<Action>, count: Option<nat>)
    requires GoodContext(s.context) && ReadsDigits(s) && GoodActions(actions) && !s.isHead
    ensures var r := Respond(s, NewTask(patience), actions, count);
      r.fault.NoFault? && !Gone(r.task) ==>
        exists declared, payload :: Delivered(s.context, r.task, Pieces(actions, false), declared, payload)
  {
    hide Sent, Unsent, Delivered, Finish, CheckLength, Perform, Pieces, GoodActions, ReadsDigits, GoodContext;
    var t := NewTask(patience);
    FreshTask(s.context, patience);
    PerformKeeps(s, t, actions, true, count, []);
    var pieces := Pieces(actions, false);
    assert [] + pieces == pieces;
    var p := Perform(s, t, actions, true, count);
    if p.fault.NoFault? {
      if Gone(p.task) {
        GoneFinish(s, p.task);
      } else if Unsent(p.task) && !p.task.closes && pieces == [] {
        FinishUnsent(s, p.task);
      } else {
        var declared, payload :| Sent(s.context, p.task, pieces, declared, false, payload);
        FinishSent(s, p.task, pieces, declared, payload);
      }
    }
  }

  ghost predicate GoodService(s: Settings, actions: seq<Action>) {
    GoodContext(s.context) && ReadsDigits(s) && GoodActions(actions) && !s.isHead
  }

  /** What `service` leaves behind when it raises nothing and the client is still there. A connection that
      stays open has got one response, which declares its length, with that much of what the application
      gave. If no exception was swallowed, the output is one delivered response. */
  ghost predicate ServedWell(s: Settings, patience: Option<nat>, actions: seq<Action>, count: Option<nat>, t: Task, fault: Fault) {
    fault.NoFault? && !Gone(t) ==>
      && (!t.closes ==> exists declared: nat, payload ::
        && Delivered(s.context, t, Pieces(actions, false), Some(declared), payload)
        && t.contentLength == Some(declared as int) && |payload| == declared)
      && (Respond(s, NewTask(patience), actions, count).fault.NoFault? ==> exists declared, payload ::
        Delivered(s.context, t, Pieces(actions, false), declared, payload))
  }

  lemma ServiceDelivers(s: Settings, patience: Option<nat>, actions: seq<Action>, count: Option<nat>)
    requires GoodService(s, actions)
    ensures var r := Service(s, NewTask(patience), actions, count); ServedWell(s, patience, actions, count, r.task, r.fault)
  {
    hide Respond, ReadsDigits, GoodActions, GoodContext, Delivered;
    ResponseDelivered(s, patience, actions, count);
    var r := Service(s, NewTask(patience), actions, count);
    if r.fault.NoFault? && !Gone(r.task) && !r.task.closes {
      var declared, payload :| Delivered(s.context, r.task, Pieces(actions, false), declared, payload);
      OpenDeclares(s.context, r.task, Pieces(actions, false), declared, payload);
    }
  }

  lemma OpenDeclares(c: Context, t: Task, pieces: seq<Bytes>, declared: Option<nat>, payload: Bytes)
    requires Delivered(c, t, pieces, declared, payload) && !t.closes
    ensures declared.Some? && t.contentLength == Some(declared.value as int) && |payload| == declared.value
  {
  }

  lemma FreshTask(c: Context, patience: Option<nat>)
    ensures Running(c, NewTask(patience), []) && !NewTask(patience).complete
  {
    assert Unsent(NewTask(patience));
  }

  lemma GoneFinish(s: Settings, t: Task)
    requires Gone(t)
    ensures Gone(Finish(s, CheckLength(s, t)).task)
  {
    hide WriteHeader, WriteBody, WithClose;
    var u := CheckLength(s, t);
    GoneStays(s, u, []);
    if u.complete {
      GoneStays(s, WriteHeader(s, u).task, []);
    }
  }

  // ---------- a connection ----------

  datatype Run = Run(settings: Settings, patience: Option<nat>, actions: seq<Action>, count: Option<nat>)

  function Served(run: Run): Outcome {
    Service(run.settings, NewTask(run.patience), run.actions, run.count)
  }

  ghost predicate GoodRun(run: Run) {
    GoodService(run.settings, run.actions)
  }

  /** The status has a code that allows no body. */
  predicate NoBodyAllowed(status: Bytes) {
    GoodStatus(status) && Bodiless(Code(status))
  }

  /** The task ended without an exception, the client was there for all of it, and the response ends by
      its own framing: the connection stays open, or the body is chunked, or there can be none. */
  predicate EndedWell(run: Run) {
    var r := Respond(run.settings, NewTask(run.patience), run.actions, run.count);
    && r.fault.NoFault? && !Gone(r.task)
    && (!r.task.closes || r.task.chunked || NoBodyAllowed(r.task.status))
  }

  /** What the application gave, cut at the length that the task knew; nothing where the status allows
      no body. */
  function Body(run: Run): Bytes {
    var given := Join(Pieces(run.actions, false));
    var t := Served(run).task;
    if NoBodyAllowed(t.status) then []
    else if t.chunked || t.contentLength.None? then given
    else Prefix(given, t.contentLength.value)
  }

  /** A connection that `service` leaves open has seen the task end without an exception. */
  lemma KeptOpenEndedWell(run: Run)
    requires Served(run).fault.NoFault? && !Served(run).task.closes && !Gone(Served(run).task)
    ensures EndedWell(run)
  {
    hide Respond;
  }

  lemma EndedWellIsFramed(run: Run)
    requires GoodRun(run) && EndedWell(run)
    ensures Framed(Served(run).task.out, Body(run))
  {
    hide Respond, Delivered, GoodActions, ReadsDigits, Pieces, Prefix, Framed, NoBodyAllowed;
    var s := run.settings;
    var pieces := Pieces(run.actions, false);
    ResponseDelivered(s, run.patience, run.actions, run.count);
    PiecesNotEmpty(run.actions, false);
    var t := Served(run).task;
    var declared, payload :| Delivered(s.context, t, pieces, declared, payload);
    DeliveredIsFramed(s.context, t, pieces, declared, payload);
  }

  lemma {:induction false} PiecesNotEmpty(actions: seq<Action>, complete: bool)
    ensures forall p :: p in Pieces(actions, complete) ==> p != []
    decreases |actions|
  {
    if actions != [] {
      PiecesNotEmpty(actions[1..], true);
      PiecesNotEmpty(actions[1..], complete);
    }
  }

  lemma DeliveredIsFramed(c: Context, t: Task, pieces: seq<Bytes>, declared: Option<nat>, payload: Bytes)
    requires Delivered(c, t, pieces, declared, payload) && GoodContext(c)
    requires forall p :: p in pieces ==> p != []
    ensures NoBodyAllowed(t.status) ==> Framed(t.out, []) && !t.chunked && t.closes
    ensures t.chunked ==> Framed(t.out, Join(pieces))
    ensures !t.chunked && !t.closes ==> t.contentLength.Some? && Framed(t.out, Prefix(Join(pieces), t.contentLength.value))
  {
    hide ReadResponse, Render, Delimits, DelimitsChunked, Join, Encode, PeerKeeps, GoodStatus, Bodiless, Code;
    hide CleanHeaders, GoodVersion, AnnouncesClose, Unframed;
    assert forall i :: 0 <= i < |pieces| ==> pieces[i] in pieces;
    if NoBodyAllowed(t.status) {
      assert t.out == Render(c.version, t.status, t.headers);
      forall rest ensures ReadResponse(t.out + rest) == Some(Reading([], rest)) {
        BodilessReadsBack(c.version, t.status, t.headers, rest);
      }
    } else if t.chunked {
      forall rest ensures ReadResponse(t.out + rest) == Some(Reading(Join(pieces), rest)) {
        ChunkedReadsBack(c.version, t.status, t.headers, pieces, rest);
      }
    } else if !t.closes {
      assert |payload| == declared.value;
      forall rest ensures ReadResponse(t.out + rest) == Some(Reading(payload, rest)) {
        ReadsBack(c.version, t.status, t.headers, payload, rest);
      }
    }
  }

  function Outputs(runs: seq<Run>): seq<Bytes> {
    if runs == [] then [] else [Served(runs[0]).task.out] + Outputs(runs[1..])
  }

  function Bodies(runs: seq<Run>): seq<Bytes> {
    if runs == [] then [] else [Body(runs[0])] + Bodies(runs[1..])
  }

  lemma {:induction false} AllFramed(runs: seq<Run>)
    requires forall run :: run in runs ==> GoodRun(run) && EndedWell(run)
    ensures |Outputs(runs)| == |Bodies(runs)| == |runs|
    ensures forall i :: 0 <= i < |runs| ==> Framed(Outputs(runs)[i], Bodies(runs)[i])
  {
    hide GoodRun, EndedWell, Framed, Body, Served;
    if runs != [] {
      EndedWellIsFramed(runs[0]);
      AllFramed(runs[1..]);
    }
  }

  /** A client that reads by section 6.3 of RFC 9112 recovers from one connection exactly the bodies that
      the applications gave, response by response. */
  lemma ConnectionReadsBack(runs: seq<Run>)
    requires forall run :: run in runs ==> GoodRun(run) && EndedWell(run)
    ensures ReadResponses(Join(Outputs(runs))) == Bodies(runs)
  {
    hide GoodRun, EndedWell, Framed, Outputs, Bodies;
    AllFramed(runs);
    KeptOpenStreamReadsBack(Outputs(runs), Bodies(runs));
  }

  // ---------- a body in one piece ----------

  /** The application answers with one piece and declares no length; `len()` of its iterable is 1. */
  ghost predicate OnePiece(run: Run, status: Bytes, headers: seq<Header>, data: Bytes) {
    && run.actions == [Start(status, headers, NoFault, false), Yield(data)]
    && run.count == Some(1) && run.patience.None?
    && !NoBodyAllowed(status) && NoEol(status)
    && forall h :: h in headers ==>
      NoEol(h.name) && NoEol(h.value) && !IsHopByHop(h.name) && !Named(h, CONTENT_LENGTH_NAME)
  }

  lemma {:induction false} PlainHeadersPass(s: Settings, headers: seq<Header>, noted: Option<int>)
    requires forall h :: h in headers ==>
      NoEol(h.name) && NoEol(h.value) && !IsHopByHop(h.name) && !Named(h, CONTENT_LENGTH_NAME)
    ensures CheckHeaders(s, headers, noted) == (noted, true)
    decreases |headers|
  {
    hide NoEol, IsHopByHop, Named;
    if headers != [] {
      assert headers[0] in headers;
      PlainHeadersPass(s, headers[1..], noted);
    }
  }

  lemma TwoActions(s: Settings, t: Task, status: Bytes, headers: seq<Header>, data: Bytes)
    requires StartResponse(s, t, status, headers, NoFault).fault.NoFault?
    ensures var r := TakePiece(s, StartResponse(s, t, status, headers, NoFault).task, data, true, Some(1));
      Perform(s, t, [Start(status, headers, NoFault, false), Yield(data)], true, Some(1)) == r
  {
    hide StartResponse, TakePiece;
    var actions := [Start(status, headers, NoFault, false), Yield(data)];
    assert actions[1..] == [Yield(data)] && actions[1..][1..] == [];
    var r := TakePiece(s, StartResponse(s, t, status, headers, NoFault).task, data, true, Some(1));
    assert Perform(s, r.task, [], false, Some(1)) == Outcome(r.task, NoFault);
    assert Perform(s, StartResponse(s, t, status, headers, NoFault).task, actions[1..], true, Some(1)) == r;
  }

  lemma OnlyUnsent(c: Context, t: Task)
    requires Running(c, t, []) && !Gone(t) && !t.wroteHeader
    ensures Unsent(t) && !t.closes
  {
    hide Unsent;
  }

  /** The task after `start_response`, with the length of the single piece noted. */
  lemma StartOnePiece(run: Run, status: Bytes, headers: seq<Header>, data: Bytes)
    requires GoodRun(run) && OnePiece(run, status, headers, data)
    ensures var r := StartResponse(run.settings, NewTask(None), status, headers, NoFault);
      var t := r.task.(contentLength := Some(|data|));
      && r.fault.NoFault? && r.task.contentLength.None? && Unsent(t) && t.complete && !t.closes
      && t.patience.None? && t.status == status && HasBody(status)
  {
    hide GoodContext, ReadsDigits, IsHopByHop, Named, GoodStatus, Bodiless, Code, CheckHeaders, SaysClose, HasBody;
    var s := run.settings;
    assert run.actions[0] in run.actions;
    PlainHeadersPass(s, headers, None);
    FreshTask(s.context, None);
    StartKeeps(s, NewTask(None), status, headers, NoFault, []);
    var t1 := StartResponse(s, NewTask(None), status, headers, NoFault).task;
    OnlyUnsent(s.context, t1);
    NotedLength(s.context, t1, |data|, []);
    OnlyUnsent(s.context, t1.(contentLength := Some(|data|)));
    BodyByCode(status);
  }

  lemma OnePieceBody(status: Bytes, headers: seq<Header>, data: Bytes)
    ensures var given := Join(Pieces([Start(status, headers, NoFault, false), Yield(data)], false));
      given == data && Prefix(given, |data|) == data
  {
    var actions := [Start(status, headers, NoFault, false), Yield(data)];
    assert actions[1..] == [Yield(data)] && actions[1..][1..] == [];
    assert Pieces(actions[1..], true) == Piece(data) + Pieces([], true);
    assert [data][1..] == [] && Join([data]) == data + Join([]);
  }

  /** The single piece goes out whole behind a header section that declares its length. */
  lemma PieceIsWhole(s: Settings, t: Task, data: Bytes)
    requires Unsent(t) && t.complete && !t.closes && HasBody(t.status) && t.patience.None?
    requires t.contentLength == Some(|data|) && GoodContext(s.context) && PeerKeeps(s.context)
    ensures var r := WriteData(s, t, data);
      && r.fault.NoFault? && r.task.wroteHeader && !r.task.closes && !r.task.chunked
      && r.task.contentLength == Some(|data|) && r.task.written == |data| && r.task.patience.None?
      && r.task.status == t.status
  {
    hide GoodContext, PeerKeeps, HasBody, Unsent, Render, BuildHeaders, EncodeChunk;
    HeaderKeeps(s, t);
    assert t.written == 0 by { UnsentLength(t); }
    var w := WriteHeader(s, t).task;
    assert w.status == t.status && w.written == 0 && w.contentLength == Some(|data|) && w.patience.None?;
    assert !w.closes && !w.chunked;
    if data != [] {
      BodyStep(w, data);
    }
  }

  /** The length of a single piece is declared, so that the connection stays open where the client wants
      that. */
  lemma OnePieceStaysOpen(run: Run, status: Bytes, headers: seq<Header>, data: Bytes)
    requires GoodRun(run) && PeerKeeps(run.settings.context) && OnePiece(run, status, headers, data)
    ensures Served(run).fault.NoFault? && !Served(run).task.closes
    ensures Framed(Served(run).task.out, data)
  {
    hide GoodContext, ReadsDigits, PeerKeeps, Framed, HasBody, Unsent, StartResponse, Perform, WriteData;
    hide GoodActions, NoBodyAllowed;
    var s := run.settings;
    var start := StartResponse(s, NewTask(None), status, headers, NoFault);
    StartOnePiece(run, status, headers, data);
    TwoActions(s, NewTask(None), status, headers, data);
    var t := start.task.(contentLength := Some(|data|));
    PieceIsWhole(s, t, data);
    UnsentLength(t);
    OnePieceBody(status, headers, data);
    EndedWellIsFramed(run);
  }
}
