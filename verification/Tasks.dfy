/** `Task` and `WSGITask`: the response of one request, written to the channel piece by piece. */
module Tasks {
  import opened ByteStrings
  import opened Wrappers
  import opened ChunkFraming
  import opened Headers
  import opened Responses
  import opened TaskRuns

  /** The channel as its running task sees it. `patience` is how many more writes it takes before the
      client has gone. */
  class TaskChannel {
    var accepted: Bytes
    var patience: Option<nat>

    constructor (patience: Option<nat>)
      ensures accepted == [] && this.patience == patience
    {
      accepted, this.patience := [], patience;
    }

    method WriteSoon(data: Bytes) returns (fault: Fault)
      modifies this
      ensures old(patience) == Some(0) ==> fault == OtherFault && accepted == old(accepted) && patience == Some(0)
      ensures old(patience) != Some(0) ==>
        && fault == NoFault && accepted == old(accepted) + data
        && patience == if old(patience).Some? then Some(old(patience).value - 1) else None
    {
      if patience == Some(0) {
        return OtherFault;
      }
      accepted := accepted + data;
      if patience.Some? {
        patience := Some(patience.value - 1);
      }
      fault := NoFault;
    }
  }

  class WSGITask {
    const settings: Settings
    const channel: TaskChannel

    var status: Bytes
    var responseHeaders: seq<Header>
    var wroteHeader: bool
    var contentLength: Option<int>
    var contentBytesWritten: int
    var chunkedResponse: bool
    var closeOnFinish: bool
    var complete: bool

    function State(): Task
      reads this, channel
    {
      Task(status, responseHeaders, wroteHeader, contentLength, contentBytesWritten, chunkedResponse, closeOnFinish,
           complete, channel.patience, channel.accepted)
    }

    predicate HasVersion() { settings.context.version in {VERSION_1_0, VERSION_1_1} }

    constructor (settings: Settings, patience: Option<nat>)
      ensures State() == NewTask(patience) && fresh(channel)
      ensures this.settings == Supported(settings) && HasVersion()
    {
      this.settings := Supported(settings);
      channel := new TaskChannel(patience);
      status, responseHeaders, wroteHeader := OK_STATUS, [], false;
      contentLength, contentBytesWritten, chunkedResponse := None, 0, false;
      closeOnFinish, complete := false, false;
    }

    method SetCloseOnFinish()
      modifies this
      ensures State() == TaskRuns.SetCloseOnFinish(old(State()))
    {
      if !wroteHeader {
        var found := false;
        for i := 0 to |responseHeaders|
          invariant unchanged(this)
          invariant found <==> exists j :: 0 <= j < i && Capitalize(responseHeaders[j].name) == CONNECTION_NAME
        {
          if Capitalize(responseHeaders[i].name) == CONNECTION_NAME {
            found := true;
          }
        }
        if !found {
          responseHeaders := responseHeaders + [Header(CONNECTION_NAME, CLOSE)];
        }
      }
      closeOnFinish := true;
    }

    /** The header names in their usual spelling; the values of three of them. */
    method NormalizeHeaders(hasBody: bool) returns (length: Option<Bytes>, server: Bytes, date: Bytes)
      modifies this`responseHeaders
      ensures responseHeaders == NormalizeAll(old(responseHeaders), hasBody)
      ensures length.Some? <==> HasName(responseHeaders, CONTENT_LENGTH_NAME)
      ensures length.Some? ==> length.value == LastValue(responseHeaders, CONTENT_LENGTH_NAME)
      ensures server == LastValue(responseHeaders, SERVER_NAME) && date == LastValue(responseHeaders, DATE_NAME)
    {
      hide Normalize, SERVER_NAME, DATE_NAME, CONTENT_LENGTH_NAME;
      var kept: seq<Header> := [];
      length, server, date := None, [], [];
      for i := 0 to |responseHeaders|
        invariant responseHeaders == old(responseHeaders)
        invariant kept + NormalizeAll(responseHeaders[i..], hasBody) == NormalizeAll(responseHeaders, hasBody)
        invariant length.Some? <==> HasName(kept, CONTENT_LENGTH_NAME)
        invariant length.Some? ==> length.value == LastValue(kept, CONTENT_LENGTH_NAME)
        invariant server == LastValue(kept, SERVER_NAME) && date == LastValue(kept, DATE_NAME)
      {
        var h := Header(Normalize(responseHeaders[i].name), responseHeaders[i].value);
        assert responseHeaders[i..][1..] == responseHeaders[i + 1..];
        if h.name == CONTENT_LENGTH_NAME {
          if !hasBody {
            continue;
          }
          length := Some(h.value);
        }
        if h.name == DATE_NAME {
          date := h.value;
        }
        if h.name == SERVER_NAME {
          server := h.value;
        }
        LastOf(kept, h);
        kept := kept + [h];
      }
      responseHeaders := kept;
    }

    lemma LastOf(kept: seq<Header>, h: Header)
      ensures forall name {:trigger LastValue(kept + [h], name)} ::
        LastValue(kept + [h], name) == if h.name == name then h.value else LastValue(kept, name)
      ensures forall name {:trigger HasName(kept + [h], name)} ::
        HasName(kept + [h], name) <==> h.name == name || HasName(kept, name)
    {
      var r := kept + [h];
      assert r[..|r| - 1] == kept;
      forall name ensures HasName(r, name) <==> h.name == name || HasName(kept, name) {
        assert r[|kept|] == h;
        assert forall i :: 0 <= i < |kept| ==> r[i] == kept[i];
      }
    }

    /** Whether the connection closes after the response, and whether the body is chunked. */
    method DecidePersistence(lengthKnown: bool, hasBody: bool)
      requires !wroteHeader && HasVersion()
      requires lengthKnown <==> LastValue(responseHeaders, CONTENT_LENGTH_NAME) != []
      modifies this
      ensures var p := Persistence(settings.context, old(responseHeaders), old(closeOnFinish), hasBody);
        State() == old(State()).(headers := p.headers, closes := p.closes, chunked := old(chunkedResponse) || p.chunked)
    {
      hide WithClose, LastValue, KEEP_ALIVE, KEEP_ALIVE_VALUE, CLOSE, CHUNKED, CONNECTION_NAME, TRANSFER_ENCODING_NAME;
      var c := settings.context;
      if c.version == VERSION_1_0 {
        if c.connection == KEEP_ALIVE {
          if !lengthKnown {
            SetCloseOnFinish();
          } else {
            responseHeaders := responseHeaders + [Header(CONNECTION_NAME, KEEP_ALIVE_VALUE)];
          }
        } else {
          SetCloseOnFinish();
        }
      } else {
        if c.connection == CLOSE {
          SetCloseOnFinish();
        }
        if !lengthKnown {
          if hasBody {
            responseHeaders := responseHeaders + [Header(TRANSFER_ENCODING_NAME, CHUNKED)];
            chunkedResponse := true;
          }
          if !closeOnFinish {
            SetCloseOnFinish();
          }
        }
      }
    }

    /** The length that the task knows, when the application gave none. */
    method AddLength(given: Option<Bytes>, hasBody: bool) returns (known: bool)
      requires given.Some? <==> HasName(responseHeaders, CONTENT_LENGTH_NAME)
      requires given.Some? ==> given.value == LastValue(responseHeaders, CONTENT_LENGTH_NAME)
      modifies this`responseHeaders
      ensures responseHeaders == WithLength(old(responseHeaders), contentLength, hasBody)
      ensures known <==> LastValue(responseHeaders, CONTENT_LENGTH_NAME) != []
    {
      hide LastValue, HasName, CONTENT_LENGTH_NAME, Str;
      var length := given;
      if length.None? && contentLength.Some? && hasBody {
        length := Some(Str(contentLength.value));
        LengthAdded(responseHeaders, length.value);
        responseHeaders := responseHeaders + [Header(CONTENT_LENGTH_NAME, length.value)];
      } else if length.None? {
        NoLength(responseHeaders);
      }
      known := length.Some? && length.value != [];
    }

    /** `Server` or `Via`, and `Date`. */
    method AddIdentity(server: Bytes, date: Bytes)
      modifies this`responseHeaders
      ensures responseHeaders == Identity(settings.context, old(responseHeaders), server, date)
    {
      hide SERVER_NAME, VIA_NAME, DATE_NAME, WAITRESS;
      var c := settings.context;
      if server == [] {
        if c.ident != [] {
          responseHeaders := responseHeaders + [Header(SERVER_NAME, c.ident)];
        }
      } else {
        responseHeaders := responseHeaders + [Header(VIA_NAME, if c.ident == [] then WAITRESS else c.ident)];
      }
      if date == [] {
        responseHeaders := responseHeaders + [Header(DATE_NAME, c.date)];
      }
    }

    method BuildResponseHeader() returns (rh: Bytes)
      requires !wroteHeader && HasVersion()
      modifies this
      ensures var old' := old(State());
        var b := BuildHeaders(settings.context, old'.headers, old'.contentLength, old'.closes, HasBody(old'.status));
        && State() == old'.(headers := b.headers, closes := b.closes, chunked := old'.chunked || b.chunked)
        && rh == Render(settings.context.version, old'.status, b.headers)
    {
      hide NormalizeAll, Persistence, Identity, WithLength, LastValue, HasBody, Render, HasName, HasVersion,
        CONTENT_LENGTH_NAME, SERVER_NAME, DATE_NAME;
      var hasBody := HasBody(status);
      var length, server, date := NormalizeHeaders(hasBody);
      var known := AddLength(length, hasBody);
      DecidePersistence(known, hasBody);
      AddIdentity(server, date);
      rh := Render(settings.context.version, status, responseHeaders);
    }

    lemma LengthAdded(hs: seq<Header>, value: Bytes)
      ensures LastValue(hs + [Header(CONTENT_LENGTH_NAME, value)], CONTENT_LENGTH_NAME) == value
    {
      LastOf(hs, Header(CONTENT_LENGTH_NAME, value));
    }

    lemma NoLength(hs: seq<Header>)
      requires !HasName(hs, CONTENT_LENGTH_NAME)
      ensures LastValue(hs, CONTENT_LENGTH_NAME) == []
    {
      LastValueOf(hs, CONTENT_LENGTH_NAME);
    }

    method WriteHeader() returns (fault: Fault)
      requires HasVersion()
      modifies this, channel
      ensures Outcome(State(), fault) == TaskRuns.WriteHeader(settings, old(State()))
    {
      hide BuildHeaders, HasBody, Render;
      fault := NoFault;
      if !wroteHeader {
        var rh := BuildResponseHeader();
        fault := channel.WriteSoon(rh);
        if fault.NoFault? {
          wroteHeader := true;
        }
      }
    }

    method WriteBody(data: Bytes) returns (fault: Fault)
      modifies this, channel
      ensures Outcome(State(), fault) == TaskRuns.WriteBody(old(State()), data)
    {
      hide HasBody, UpperHex;
      fault := NoFault;
      if data != [] && HasBody(status) {
        var towrite := data;
        if chunkedResponse {
          towrite := UpperHex(|data|) + CRLF;
          towrite := towrite + data + CRLF;
        } else if contentLength.Some? {
          towrite := Prefix(data, contentLength.value - contentBytesWritten);
          contentBytesWritten := contentBytesWritten + |towrite|;
        }
        if towrite != [] {
          fault := channel.WriteSoon(towrite);
        }
      } else if data != [] {
        contentBytesWritten := contentBytesWritten + |data|;
      }
    }

    method Write(data: Bytes) returns (fault: Fault)
      requires HasVersion()
      modifies this, channel
      ensures Outcome(State(), fault) == WriteData(settings, old(State()), data)
    {
      hide TaskRuns.WriteHeader, TaskRuns.WriteBody, HasVersion;
      if !complete {
        return OtherFault;
      }
      fault := WriteHeader();
      if fault.NoFault? {
        fault := WriteBody(data);
      }
    }

    /** The loop of `start_response` over the headers; it notes a declared length on its way. */
    method NoteHeaders(headers: seq<Header>) returns (passed: bool)
      modifies this`contentLength
      ensures (contentLength, passed) == CheckHeaders(settings, headers, old(contentLength))
    {
      hide NoEol, Named, IsHopByHop;
      for i := 0 to |headers|
        invariant CheckHeaders(settings, headers[i..], contentLength) == CheckHeaders(settings, headers, old(contentLength))
      {
        assert headers[i..][1..] == headers[i + 1..];
        var h := headers[i];
        if !NoEol(h.value) {
          return false;
        }
        if !NoEol(h.name) {
          return false;
        }
        if Named(h, CONTENT_LENGTH_NAME) {
          var n := settings.toInt(h.value);
          if n.None? {
            return false;
          }
          contentLength := n;
        } else if IsHopByHop(h.name) {
          return false;
        }
      }
      passed := true;
    }

    method StartResponse(status: Bytes, headers: seq<Header>, excInfo: Fault) returns (fault: Fault)
      modifies this
      ensures Outcome(State(), fault) == TaskRuns.StartResponse(settings, old(State()), status, headers, excInfo)
    {
      hide CheckHeaders, NoEol;
      if complete && excInfo.NoFault? {
        return OtherFault;
      }
      if !excInfo.NoFault? {
        if wroteHeader {
          return excInfo;
        }
        responseHeaders := [];
      }
      complete := true;
      if !NoEol(status) {
        return OtherFault;
      }
      this.status := status;
      var passed := NoteHeaders(headers);
      if !passed {
        return OtherFault;
      }
      responseHeaders := responseHeaders + headers;
      fault := NoFault;
    }

    /** One turn of the loop over the iterable. */
    method TakePiece(data: Bytes, first: bool, count: Option<nat>) returns (fault: Fault)
      requires HasVersion()
      modifies this, channel
      ensures Outcome(State(), fault) == TaskRuns.TakePiece(settings, old(State()), data, first, count)
    {
      hide WriteData;
      if first && contentLength.None? {
        if count == Some(1) {
          contentLength := Some(|data|);
        }
      }
      fault := NoFault;
      if data != [] {
        fault := Write(data);
      }
    }

    /** The application runs: it calls `start_response` and `write`, and yields the pieces of its
        iterable. Then the length is checked. */
    method Execute(actions: seq<Action>, count: Option<nat>) returns (fault: Fault)
      requires HasVersion()
      modifies this, channel
      ensures Outcome(State(), fault) == TaskRuns.Execute(settings, old(State()), actions, count)
    {
      hide TaskRuns.StartResponse, WriteData, TaskRuns.TakePiece;
      var first := true;
      for i := 0 to |actions|
        invariant Perform(settings, State(), actions[i..], first, count)
          == Perform(settings, old(State()), actions, true, count)
      {
        assert actions[i..][1..] == actions[i + 1..];
        match actions[i] {
          case Start(status, headers, excInfo, caught) =>
            fault := StartResponse(status, headers, excInfo);
            if !fault.NoFault? && !caught {
              return;
            }
          case Write(data, caught) =>
            fault := Write(data);
            if !fault.NoFault? && !caught {
              return;
            }
          case Yield(data) =>
            fault := TakePiece(data, first, count);
            if !fault.NoFault? {
              return;
            }
            first := false;
          case Fail(f) =>
            fault := f;
            if !fault.NoFault? {
              return;
            }
        }
      }
      fault := NoFault;
      if contentLength.Some? {
        if contentBytesWritten != contentLength.value && !settings.isHead {
          SetCloseOnFinish();
        }
      }
    }

    method Finish() returns (fault: Fault)
      requires HasVersion()
      modifies this, channel
      ensures Outcome(State(), fault) == TaskRuns.Finish(settings, old(State()))
    {
      hide WriteData;
      fault := NoFault;
      if !wroteHeader {
        fault := Write([]);
      }
      if fault.NoFault? && chunkedResponse {
        fault := channel.WriteSoon(LAST_CHUNK);
      }
    }

    method Service(actions: seq<Action>, count: Option<nat>) returns (fault: Fault)
      requires HasVersion()
      modifies this, channel
      ensures Outcome(State(), fault) == TaskRuns.Service(settings, old(State()), actions, count)
      ensures forall patience :: old(State()) == NewTask(patience) && GoodService(settings, actions) ==>
        ServedWell(settings, patience, actions, count, State(), fault)
    {
      hide TaskRuns.Execute, TaskRuns.Finish, HasVersion, ServedWell, GoodService;
      forall patience | GoodService(settings, actions)
        ensures var r := TaskRuns.Service(settings, NewTask(patience), actions, count);
          ServedWell(settings, patience, actions, count, r.task, r.fault)
      {
        ServiceDelivers(settings, patience, actions, count);
      }
      fault := Execute(actions, count);
      if fault.NoFault? {
        fault := Finish();
      }
      if fault.SocketFault? {
        closeOnFinish := true;
        if !settings.logSocketErrors {
          fault := NoFault;
        }
      }
    }
  }

  /** A new task is served for a request, as the channel's `service` does. */
  method ServeAndRead(run: Run) returns (task: WSGITask, fault: Fault)
    requires GoodRun(run)
    ensures Outcome(task.State(), fault) == Served(run)
    ensures fault.NoFault? && !task.closeOnFinish && task.channel.patience != Some(0) ==>
      Framed(task.channel.accepted, Body(run))
  {
    hide TaskRuns.Service, ReadsDigits, GoodActions, Body, Framed, EndedWell;
    task := new WSGITask(run.settings, run.patience);
    fault := task.Service(run.actions, run.count);
    if fault.NoFault? && !task.closeOnFinish && task.channel.patience != Some(0) {
      KeptOpenEndedWell(run);
      EndedWellIsFramed(run);
    }
  }
}
