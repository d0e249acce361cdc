/** The output half of a channel: the queue of outbufs between the tasks and the socket. */
module Output {
  import opened ByteStrings
  import opened Files
  import opened Buffers

  // ---------- the socket ----------

  datatype SendResult = Sent(n: nat) | Disconnected | Raised

  class Socket {
    var wire: Bytes
    // how many sends took nothing
    ghost var dry: nat
    // how many sends raised an OSError, and how many found the client gone
    ghost var raises: nat
    ghost var losses: nat

    /** The kernel takes any part of what it is offered, or the call fails. */
    method Send(chunk: Bytes) returns (r: SendResult)
      modifies this
      ensures r.Sent? ==> r.n <= |chunk| && wire == old(wire) + chunk[..r.n]
      ensures !r.Sent? ==> wire == old(wire)
      ensures dry == old(dry) + if r.Sent? && r.n > 0 then 0 else 1
      ensures raises == old(raises) + if r.Raised? then 1 else 0
      ensures losses == old(losses) + if r.Disconnected? then 1 else 0
    {
      if * {
        var n: nat :| n <= |chunk|;
        wire := wire + chunk[..n];
        dry := dry + if n > 0 then 0 else 1;
        return Sent(n);
      }
      dry := dry + 1;
      if * {
        losses := losses + 1;
        return Disconnected;
      } else {
        raises := raises + 1;
        return Raised;
      }
    }
  }

  // ---------- one outbuf ----------

  /** Output of a task, or a file the application handed over. */
  datatype Outbuf = Memory(m: OverflowableBuffer) | Wrapped(f: ReadOnlyFileBasedBuffer)

  ghost function Root(o: Outbuf): object {
    if o.Memory? then o.m else o.f
  }

  /** The buffer lives in `footprint` alone, can be used, and its unread bytes are `content`. */
  ghost predicate Slot(o: Outbuf, footprint: set<object>, content: Bytes)
    reads footprint + {Root(o)}
    ensures Slot(o, footprint, content) ==> Root(o) in footprint
  {
    && Root(o) in footprint
    && match o
       case Memory(m) => m.Repr == footprint && m.Valid() && m.Unread() == content
       case Wrapped(f) => {f, f.file} == footprint && f.Valid() && f.Unread() == content
  }

  method LengthOf(o: Outbuf, ghost footprint: set<object>, ghost content: Bytes) returns (n: int)
    requires Slot(o, footprint, content)
    ensures n == |content|
  {
    match o
    case Memory(m) => n := m.Length();
    case Wrapped(f) => n := f.remain;
  }

  method GetFrom(o: Outbuf, n: nat, ghost footprint: set<object>, ghost content: Bytes)
    returns (chunk: Bytes, ghost after: set<object>)
    requires Slot(o, footprint, content)
    modifies footprint
    ensures Slot(o, after, content) && fresh(after - footprint)
    ensures chunk <= content
  {
    match o {
      case Memory(m) =>
        chunk := m.Get(n, false);
        after := m.Repr;
      case Wrapped(f) =>
        chunk := f.Get(n, false);
        after := footprint;
    }
  }

  method SkipIn(o: Outbuf, n: nat, ghost footprint: set<object>, ghost content: Bytes)
    returns (ghost after: set<object>)
    requires Slot(o, footprint, content) && n <= |content|
    modifies footprint
    ensures Slot(o, after, content[n..]) && fresh(after - footprint)
  {
    match o {
      case Memory(m) =>
        var _ := m.Skip(n, true);
        after := m.Repr;
      case Wrapped(f) =>
        var _ := f.Skip(n);
        after := footprint;
    }
  }

  /** The buffer has been closed: what is left of it is at most a byte string. */
  ghost predicate Shut(o: Outbuf, footprint: set<object>)
    reads footprint + {Root(o)}
  {
    && Root(o) in footprint
    && match o
       case Memory(m) =>
         m.buf != null ==> m.buf in footprint && m.buf.file in footprint && m.buf.file.closed && m.buf.remain == 0
       case Wrapped(f) => f.file in footprint && f.file.closed && f.remain == 0
  }

  method CloseOutbuf(o: Outbuf, ghost footprint: set<object>, ghost content: Bytes)
    requires Slot(o, footprint, content)
    modifies footprint
    ensures Shut(o, footprint)
  {
    match o
    case Memory(m) => m.Close();
    case Wrapped(f) => f.Close();
  }

  // ---------- the queue ----------

  const CONTINUE_LINE := Ascii("HTTP/1.1 100 Continue\r\n\r\n")

  datatype FlushEnd = CaughtUp | Refused | Failed

  datatype WaitNeed = Proceed | MustWait(exceptional: bool)

  datatype WriteResult = Written(n: nat) | ClientDisconnected | Blocked(exceptional: bool)

  class ChannelOutput {
    const highWatermark: int
    const sendBytes: int
    const outbufOverflow: int
    const sendbufLen: nat
    const socket: Socket

    var outbufs: seq<Outbuf>
    var totalOutbufsLen: int
    var currentOutbufCount: int
    var connected: bool
    var willClose: bool
    var closeWhenFlushed: bool

    // everything `write_soon` and `send_continue` have accepted
    ghost var accepted: Bytes
    // the unread bytes of each outbuf
    ghost var contents: seq<Bytes>
    // the objects each outbuf is made of
    ghost var prints: seq<set<object>>
    ghost var Repr: set<object>

    /** The outbufs are open, distinct, and hold what `contents` says; the last one is appendable. */
    ghost predicate Open()
      reads this, Repr
      ensures Open() ==> this in Repr && socket in Repr
    {
      && this in Repr && socket in Repr
      && outbufs != [] && |contents| == |prints| == |outbufs|
      && outbufs[|outbufs| - 1].Memory?
      && (forall i :: 0 <= i < |outbufs| ==>
        && prints[i] <= Repr && this !in prints[i] && socket !in prints[i] && Root(outbufs[i]) in prints[i])
      && (forall i :: 0 <= i < |outbufs| ==> Slot(outbufs[i], prints[i], contents[i]))
      && (forall i, j :: 0 <= i < j < |outbufs| ==> prints[i] !! prints[j])
    }

    /** While the channel is connected: nothing accepted is lost, repeated or reordered, and the count
        of the last outbuf covers what it holds. */
    ghost predicate Valid()
      reads this, Repr
      ensures Valid() ==> this in Repr && socket in Repr
    {
      && Open()
      && socket.wire + Join(contents) == accepted
      && totalOutbufsLen == |Join(contents)|
      && |contents[|contents| - 1]| <= currentOutbufCount
    }

    constructor (socket: Socket, highWatermark: int, sendBytes: int, outbufOverflow: int, sendbufLen: nat)
      requires socket.wire == []
      ensures Valid() && connected && !willClose && !closeWhenFlushed && accepted == []
      ensures fresh(Repr - {socket}) && this.socket == socket && this.highWatermark == highWatermark
    {
      this.socket := socket;
      this.highWatermark, this.sendBytes := highWatermark, sendBytes;
      this.outbufOverflow, this.sendbufLen := outbufOverflow, sendbufLen;
      totalOutbufsLen, currentOutbufCount := 0, 0;
      connected, willClose, closeWhenFlushed := true, false, false;
      var first := new OverflowableBuffer(outbufOverflow);
      outbufs := [Memory(first)];
      accepted, contents, prints := [], [[]], [first.Repr];
      Repr := {this, socket} + first.Repr;
    }

    method HandleClose()
      requires Open()
      modifies Repr
      ensures !connected && totalOutbufsLen == 0 && Repr == old(Repr) && this in Repr
      ensures willClose == old(willClose) && closeWhenFlushed == old(closeWhenFlushed)
      ensures unchanged(socket) && accepted == old(accepted)
      ensures outbufs == old(outbufs) && prints == old(prints)
      ensures forall i :: 0 <= i < |outbufs| ==> Shut(outbufs[i], prints[i])
    {
      hide Slot, Shut;
      for i := 0 to |outbufs|
        invariant outbufs == old(outbufs) && Repr == old(Repr) && unchanged(socket)
        invariant willClose == old(willClose) && closeWhenFlushed == old(closeWhenFlushed)
        invariant accepted == old(accepted)
        invariant prints == old(prints) && contents == old(contents)
        invariant forall j :: i <= j < |outbufs| ==> Slot(outbufs[j], prints[j], contents[j])
        invariant forall j :: 0 <= j < i ==> Shut(outbufs[j], prints[j])
      {
        CloseOutbuf(outbufs[i], prints[i], contents[i]);
      }
      totalOutbufsLen := 0;
      connected := false;
    }

    /** Only the buffers, the bookkeeping of their contents and the socket can differ. */
    twostate predicate SameFlags()
      reads this
    {
      && accepted == old(accepted) && connected == old(connected)
      && willClose == old(willClose) && closeWhenFlushed == old(closeWhenFlushed)
      && currentOutbufCount == old(currentOutbufCount)
    }

    method GetFront() returns (chunk: Bytes)
      requires Open()
      modifies Repr
      ensures Open() && fresh(Repr - old(Repr)) && SameFlags()
      ensures outbufs == old(outbufs) && contents == old(contents) && totalOutbufsLen == old(totalOutbufsLen)
      ensures unchanged(socket)
      ensures chunk <= contents[0]
    {
      hide Slot;
      ghost var after;
      chunk, after := GetFrom(outbufs[0], sendbufLen, prints[0], contents[0]);
      prints := prints[0 := after];
      Repr := Repr + after;
    }

    method SkipFront(n: nat)
      requires Open() && n <= |contents[0]|
      modifies Repr
      ensures Open() && fresh(Repr - old(Repr)) && SameFlags()
      ensures outbufs == old(outbufs) && contents == old(contents)[0 := old(contents)[0][n..]]
      ensures totalOutbufsLen == old(totalOutbufsLen) - n
      ensures unchanged(socket)
    {
      hide Slot;
      ghost var after := SkipIn(outbufs[0], n, prints[0], contents[0]);
      prints := prints[0 := after];
      Repr := Repr + after;
      contents := contents[0 := contents[0][n..]];
      totalOutbufsLen := totalOutbufsLen - n;
    }

    method Transmit(chunk: Bytes) returns (r: SendResult)
      requires Open()
      modifies socket
      ensures Open() && SameFlags()
      ensures outbufs == old(outbufs) && contents == old(contents) && totalOutbufsLen == old(totalOutbufsLen)
      ensures r.Sent? ==> r.n <= |chunk| && socket.wire == old(socket.wire) + chunk[..r.n]
      ensures !r.Sent? ==> socket.wire == old(socket.wire)
      ensures socket.dry == old(socket.dry) + if r.Sent? && r.n > 0 then 0 else 1
      ensures socket.raises == old(socket.raises) + if r.Raised? then 1 else 0
      ensures socket.losses == old(socket.losses) + if r.Disconnected? then 1 else 0
    {
      hide Slot;
      r := socket.Send(chunk);
    }

    /** A send has raised an OSError. */
    twostate predicate Raised()
      reads socket
    {
      socket.raises > old(socket.raises)
    }

    /** A send has found the client gone. */
    twostate predicate Lost()
      reads socket
    {
      socket.losses > old(socket.losses)
    }

    /** One send of the front outbuf; 0 bytes when the socket refuses or is gone. */
    method SendFront(doClose: bool) returns (n: nat, raised: bool)
      requires Valid() && connected
      modifies Repr
      ensures fresh(Repr - old(Repr)) && this in Repr
      ensures connected ==> Valid() && SameFlags() && outbufs == old(outbufs)
      ensures connected ==>
        && n <= |old(contents)[0]|
        && contents == old(contents)[0 := old(contents)[0][n..]]
        && |socket.wire| == |old(socket.wire)| + n
      ensures old(socket.wire) <= socket.wire
      ensures accepted == old(accepted)
      ensures willClose == old(willClose) && closeWhenFlushed == old(closeWhenFlushed)
      ensures !doClose || raised ==> connected
      ensures !connected ==> totalOutbufsLen == 0
      ensures raised || !connected ==> n == 0
      ensures socket.dry == old(socket.dry) + if n > 0 then 0 else 1
      ensures socket.raises == old(socket.raises) + if raised then 1 else 0
      ensures socket.losses == old(socket.losses) + if n == 0 && !raised && socket.losses > old(socket.losses) then 1 else 0
      ensures connected <==> !(doClose && socket.losses > old(socket.losses))
    {
      hide Slot, Open;
      OpenFacts();
      ghost var front := contents[0];
      var chunk := GetFront();
      raised := false;
      var r := Transmit(chunk);
      n := 0;
      assert front[0..] == front;
      match r {
        case Sent(k) =>
          n := k;
          if n > 0 {
            JoinSkip(contents, n);
            assert chunk[..n] == front[..n];
            SkipFront(n);
          } else {
            assert chunk[..0] == [];
          }
          OpenFacts();
        case Disconnected =>
          if doClose {
            HandleClose();
          }
        case Raised =>
          raised := true;
      }
      if connected {
        OpenFacts();
      }
    }

    /** Sends the front outbuf until it is exhausted or a send gives nothing. */
    method DrainFront(doClose: bool) returns (sent: nat, end: FlushEnd)
      requires Valid() && connected
      modifies Repr
      ensures fresh(Repr - old(Repr)) && this in Repr
      ensures connected ==> Valid() && SameFlags() && outbufs == old(outbufs)
      ensures connected ==>
        && contents[1..] == old(contents)[1..]
        && |socket.wire| == |old(socket.wire)| + sent
        && (end.CaughtUp? <==> contents[0] == [])
      ensures !connected ==> end.Refused? && totalOutbufsLen == 0
      ensures old(socket.wire) <= socket.wire
      ensures accepted == old(accepted)
      ensures willClose == old(willClose) && closeWhenFlushed == old(closeWhenFlushed)
      ensures !doClose || end.Failed? ==> connected
      ensures socket.dry == old(socket.dry) + if end.CaughtUp? then 0 else 1
      ensures end.CaughtUp? ==> !Raised() && !Lost()
      ensures end.Failed? <==> Raised()
      ensures connected <==> !(doClose && Lost())
      ensures old(socket.raises) <= socket.raises && old(socket.losses) <= socket.losses
    {
      hide Slot;
      sent := 0;
      var outbuflen := LengthOfFront();
      while outbuflen > 0
        invariant Valid() && connected && fresh(Repr - old(Repr)) && SameFlags() && outbufs == old(outbufs)
        invariant outbuflen == |contents[0]| && contents[1..] == old(contents)[1..]
        invariant socket.dry == old(socket.dry) && socket.raises == old(socket.raises) && socket.losses == old(socket.losses)
        invariant old(socket.wire) <= socket.wire && |socket.wire| == |old(socket.wire)| + sent
        decreases outbuflen
      {
        var n, raised := SendFront(doClose);
        if raised {
          return sent, Failed;
        }
        if n == 0 {
          return sent, Refused;
        }
        outbuflen := outbuflen - n;
        sent := sent + n;
      }
      end := CaughtUp;
    }

    method LengthOfFront() returns (n: int)
      requires Open()
      ensures n == |contents[0]|
    {
      n := LengthOf(outbufs[0], prints[0], contents[0]);
    }

    method PopFront()
      requires Valid() && connected && |outbufs| > 1 && contents[0] == []
      modifies Repr
      ensures Valid() && Repr == old(Repr) && SameFlags()
      ensures outbufs == old(outbufs)[1..] && contents == old(contents)[1..]
      ensures unchanged(socket) && Shut(old(outbufs[0]), old(prints[0]))
    {
      hide Slot, Shut;
      var toclose := outbufs[0];
      ghost var footprint := prints[0];
      ghost var content := contents[0];
      outbufs, contents, prints := outbufs[1..], contents[1..], prints[1..];
      CloseOutbuf(toclose, footprint, content);
    }

    /** Sends until the socket takes nothing or there is nothing left to send. `Failed` stands for the OSError it lets through. */
    method FlushSome(doClose: bool) returns (sent: nat, end: FlushEnd)
      requires Valid() && connected
      modifies Repr
      ensures fresh(Repr - old(Repr)) && this in Repr
      ensures connected ==> Valid() && SameFlags()
      ensures connected ==>
        && |socket.wire| == |old(socket.wire)| + sent
        && totalOutbufsLen == old(totalOutbufsLen) - sent
        && (end.CaughtUp? ==> Join(contents) == [] && |outbufs| == 1)
        && (end.CaughtUp? <==> totalOutbufsLen == 0)
      ensures !connected ==> end.Refused? && totalOutbufsLen == 0
      ensures old(socket.wire) <= socket.wire
      ensures accepted == old(accepted)
      ensures willClose == old(willClose) && closeWhenFlushed == old(closeWhenFlushed)
      ensures !doClose || end.Failed? ==> connected
      ensures socket.dry == old(socket.dry) + if end.CaughtUp? then 0 else 1
      ensures end.Failed? <==> Raised()
      ensures connected <==> !(doClose && Lost())
      ensures old(socket.raises) <= socket.raises && old(socket.losses) <= socket.losses
    {
      hide Open;
      sent := 0;
      while true
        invariant Valid() && connected && fresh(Repr - old(Repr)) && SameFlags()
        invariant socket.dry == old(socket.dry) && socket.raises == old(socket.raises) && socket.losses == old(socket.losses)
        invariant old(socket.wire) <= socket.wire && |socket.wire| == |old(socket.wire)| + sent
        decreases |outbufs|
      {
        OpenFacts();
        var n, e := DrainFront(doClose);
        sent := sent + n;
        if !e.CaughtUp? {
          end := e;
          if connected {
            OpenFacts();
            assert Join(contents) == contents[0] + Join(contents[1..]);
          }
          break;
        }
        OpenFacts();
        if |outbufs| > 1 {
          PopFront();
        } else {
          end := CaughtUp;
          break;
        }
      }
    }

    /** `_flush_exception`: an exception makes the channel close. On a channel that has been closed in the
        meantime there may be bytes left to send, which fails because the socket is gone. */
    method FlushException(doClose: bool) returns (flushed: bool, exception: bool)
      requires this in Repr && (connected ==> Valid())
      modifies Repr
      ensures fresh(Repr - old(Repr)) && (old(connected) ==> this in Repr)
      ensures !old(connected) ==> Repr == old(Repr) && !connected && !flushed && totalOutbufsLen == old(totalOutbufsLen)
      ensures connected ==> Valid() && currentOutbufCount == old(currentOutbufCount)
      ensures connected ==> totalOutbufsLen <= old(totalOutbufsLen)
      ensures connected && !exception ==> (flushed <==> totalOutbufsLen < old(totalOutbufsLen))
      ensures old(connected) && !connected ==> totalOutbufsLen == 0 && !exception
      ensures old(socket.wire) <= socket.wire
      ensures accepted == old(accepted) && closeWhenFlushed == old(closeWhenFlushed)
      ensures willClose == (old(willClose) || exception)
      ensures !doClose ==> connected == old(connected)
      ensures old(connected) ==> socket.dry == old(socket.dry) + if connected && totalOutbufsLen == 0 then 0 else 1
      ensures connected && totalOutbufsLen == 0 ==> socket.wire == accepted
      ensures !old(connected) ==> unchanged(socket)
      ensures old(socket.raises) <= socket.raises && old(socket.losses) <= socket.losses
      ensures old(connected) ==> (exception <==> Raised()) && (connected <==> !(doClose && Lost()))
    {
      hide Open;
      if !connected {
        exception := *;
        willClose := willClose || exception;
        return false, exception;
      }
      var sent, end := FlushSome(doClose);
      if end.Failed? {
        OpenFacts();
        label failed:
        willClose := true;
        StillOpen@failed();
        return false, true;
      }
      return sent > 0, false;
    }

    /** The socket was offered what is pending until it took nothing, or has all that was accepted. */
    twostate predicate Offered()
      reads this, socket
    {
      if socket.dry == old(socket.dry) then socket.wire == accepted else socket.dry == old(socket.dry) + 1
    }

    twostate predicate NotOffered()
      reads this, socket
    {
      socket.dry == old(socket.dry) && socket.wire == old(socket.wire) && socket.raises == old(socket.raises) && socket.losses == old(socket.losses)
    }

    /** The queue does not depend on the closing flag. */
    twostate lemma StillOpen()
      requires old(Open()) && Repr == old(Repr) && unchanged(Repr - {this})
      requires outbufs == old(outbufs) && contents == old(contents) && prints == old(prints)
      ensures Open()
    {
      hide Slot;
    }

    method AddOutbuf()
      requires Open()
      modifies this
      ensures Open() && fresh(Repr - old(Repr)) && SameFlags()
      ensures |outbufs| == |old(outbufs)| + 1 && contents == old(contents) + [[]]
      ensures totalOutbufsLen == old(totalOutbufsLen) && unchanged(socket)
    {
      hide Slot;
      var nextbuf := NewOutbuf();
      outbufs := outbufs + [Memory(nextbuf)];
      contents, prints := contents + [[]], prints + [nextbuf.Repr];
      Repr := Repr + nextbuf.Repr;
    }

    method NewOutbuf() returns (m: OverflowableBuffer)
      ensures fresh(m.Repr) && m in m.Repr && Slot(Memory(m), m.Repr, [])
    {
      m := new OverflowableBuffer(outbufOverflow);
    }

    method AppendLast(data: Bytes)
      requires Open()
      modifies Repr
      ensures Open() && fresh(Repr - old(Repr)) && SameFlags()
      ensures outbufs == old(outbufs)
      ensures var k := |old(contents)| - 1; contents == old(contents)[k := old(contents)[k] + data]
      ensures totalOutbufsLen == old(totalOutbufsLen) && unchanged(socket)
    {
      hide Slot;
      var k := |outbufs| - 1;
      ghost var after := AppendTo(outbufs[k].m, data, prints[k], contents[k]);
      contents, prints := contents[k := contents[k] + data], prints[k := after];
      Repr := Repr + after;
    }

    method AppendTo(m: OverflowableBuffer, data: Bytes, ghost footprint: set<object>, ghost content: Bytes)
      returns (ghost after: set<object>)
      requires Slot(Memory(m), footprint, content)
      modifies footprint
      ensures Slot(Memory(m), after, content + data) && fresh(after - footprint)
    {
      m.Append(data);
      after := m.Repr;
    }

    /** The rest of `write_soon` for a byte string, under the outbuf lock and below the watermark. */
    method Accept(data: Bytes)
      requires Valid() && connected
      modifies Repr
      ensures Valid() && connected && fresh(Repr - old(Repr))
      ensures accepted == old(accepted) + data
      ensures totalOutbufsLen <= old(totalOutbufsLen) + |data|
      ensures old(socket.wire) <= socket.wire && closeWhenFlushed == old(closeWhenFlushed)
      ensures old(willClose) ==> willClose
      ensures if old(totalOutbufsLen) + |data| >= sendBytes then Offered() else NotOffered()
      ensures currentOutbufCount <= |data| || currentOutbufCount < highWatermark + |data|
      ensures old(socket.raises) <= socket.raises && (connected ==> willClose == (old(willClose) || Raised()))
    {
      hide Open;
      OpenFacts();
      if currentOutbufCount >= highWatermark {
        JoinAppend(contents, []);
        AddOutbuf();
        OpenFacts();
        label rotated:
        currentOutbufCount := 0;
        StillOpen@rotated();
      }
      Store(data);
      if totalOutbufsLen >= sendBytes {
        var _, _ := FlushException(false);
      }
    }

    method Store(data: Bytes)
      requires Valid()
      modifies Repr
      ensures Valid() && fresh(Repr - old(Repr)) && connected == old(connected)
      ensures accepted == old(accepted) + data && unchanged(socket)
      ensures totalOutbufsLen == old(totalOutbufsLen) + |data|
      ensures currentOutbufCount == old(currentOutbufCount) + |data|
      ensures willClose == old(willClose) && closeWhenFlushed == old(closeWhenFlushed)
    {
      hide Open;
      OpenFacts();
      JoinLast(contents, data);
      AppendLast(data);
      OpenFacts();
      label appended:
      currentOutbufCount := currentOutbufCount + |data|;
      totalOutbufsLen := totalOutbufsLen + |data|;
      accepted := accepted + data;
      StillOpen@appended();
    }

    /** The rest of `write_soon` for a wrapped file: it is queued whole, with a fresh outbuf behind it. */
    method AcceptFile(f: ReadOnlyFileBasedBuffer)
      requires Valid() && connected
      requires f.Valid() && f !in Repr && f.file !in Repr
      modifies Repr, f, f.file
      ensures Valid() && connected && fresh(Repr - old(Repr) - {f, old(f.file)})
      ensures accepted == old(accepted) + old(f.Unread())
      ensures totalOutbufsLen <= old(totalOutbufsLen) + |old(f.Unread())|
      ensures old(socket.wire) <= socket.wire && closeWhenFlushed == old(closeWhenFlushed)
      ensures old(willClose) ==> willClose
      ensures if old(totalOutbufsLen) + |old(f.Unread())| >= sendBytes then Offered() else NotOffered()
      ensures currentOutbufCount == 0
      ensures old(socket.raises) <= socket.raises && (connected ==> willClose == (old(willClose) || Raised()))
    {
      hide Open;
      OpenFacts();
      ghost var content := f.Unread();
      JoinAppend(contents, content);
      JoinAppend(contents + [content], []);
      AddWrapped(f);
      OpenFacts();
      label added:
      totalOutbufsLen := totalOutbufsLen + f.remain;
      accepted := accepted + content;
      currentOutbufCount := 0;
      StillOpen@added();
      if totalOutbufsLen >= sendBytes {
        var _, _ := FlushException(false);
      }
    }

    method AddWrapped(f: ReadOnlyFileBasedBuffer)
      requires Open() && f.Valid() && f !in Repr && f.file !in Repr
      modifies this
      ensures Open() && fresh(Repr - old(Repr) - {f, f.file}) && old(Repr) <= Repr && SameFlags()
      ensures contents == old(contents) + [f.Unread()] + [[]]
      ensures totalOutbufsLen == old(totalOutbufsLen) && unchanged(socket)
    {
      hide Slot;
      WrappedSlot(f);
      var nextbuf := NewOutbuf();
      outbufs := outbufs + [Wrapped(f)] + [Memory(nextbuf)];
      contents := contents + [f.Unread()] + [[]];
      prints := prints + [{f, f.file}] + [nextbuf.Repr];
      Repr := Repr + {f, f.file} + nextbuf.Repr;
    }

    lemma WrappedSlot(f: ReadOnlyFileBasedBuffer)
      requires f.Valid()
      ensures Slot(Wrapped(f), {f, f.file}, f.Unread())
    {
    }

    /** `_flush_outbufs_below_high_watermark` up to the point where it would wait. The channel can have been
        closed when it is called at the end of a service. */
    method FlushBelowHighWatermark() returns (need: WaitNeed)
      requires this in Repr && (connected ==> Valid())
      modifies Repr
      ensures connected == old(connected) && fresh(Repr - old(Repr)) && (connected ==> Valid())
      ensures accepted == old(accepted) && old(socket.wire) <= socket.wire
      ensures closeWhenFlushed == old(closeWhenFlushed) && (old(willClose) ==> willClose)
      ensures totalOutbufsLen <= old(totalOutbufsLen)
      ensures need.Proceed? && connected ==> totalOutbufsLen <= highWatermark
      ensures need.MustWait? ==> old(totalOutbufsLen) > highWatermark
      ensures need.MustWait? ==> if need.exceptional then willClose else connected && totalOutbufsLen > highWatermark
      ensures if connected && old(totalOutbufsLen) > highWatermark then Offered() else NotOffered()
      ensures connected ==>
        need == if Raised() then MustWait(true) else if totalOutbufsLen > highWatermark then MustWait(false) else Proceed
      ensures old(socket.raises) <= socket.raises && (connected ==> willClose == (old(willClose) || Raised()))
    {
      hide Open;
      if totalOutbufsLen > highWatermark {
        var _, exception := FlushException(false);
        if exception {
          return MustWait(true);
        }
        if connected && totalOutbufsLen > highWatermark {
          return MustWait(false);
        }
      }
      need := Proceed;
    }

    /** `write_soon` up to its return or to the point where it would wait. */
    method WriteSoon(data: Bytes) returns (r: WriteResult)
      requires connected ==> Valid()
      modifies Repr
      ensures r.ClientDisconnected? <==> !old(connected)
      ensures connected == old(connected)
      ensures fresh(Repr - old(Repr))
      ensures connected ==> Valid() && old(socket.wire) <= socket.wire
      ensures r.Written? ==> r.n == |data| && accepted == old(accepted) + data
      ensures !r.Written? ==> accepted == old(accepted)
      ensures r.Written? && data != [] ==> totalOutbufsLen <= highWatermark + |data|
      ensures r.Blocked? ==> if r.exceptional then willClose else totalOutbufsLen > highWatermark
      ensures r.Blocked? ==> Offered()
      ensures r.Written? && data != [] ==>
        |contents[|contents| - 1]| <= |data| || |contents[|contents| - 1]| < highWatermark + |data|
      ensures r.Written? && data != [] ==>
        totalOutbufsLen < sendBytes || socket.wire == accepted || socket.dry > old(socket.dry)
      ensures r.Written? && data != [] && old(totalOutbufsLen) <= highWatermark ==>
        if old(totalOutbufsLen) + |data| >= sendBytes then Offered() else NotOffered()
      ensures old(socket.raises) <= socket.raises && (connected ==> willClose == (old(willClose) || Raised()))
    {
      hide Open;
      if !connected {
        return ClientDisconnected;
      }
      if data == [] {
        assert accepted + [] == accepted;
        return Written(0);
      }
      var need := FlushBelowHighWatermark();
      if need.MustWait? {
        return Blocked(need.exceptional);
      }
      Accept(data);
      r := Written(|data|);
    }

    /** `write_soon` after its wait. Woken from an exceptional wait it does not look at the watermark
        again. */
    method ResumeWrite(data: Bytes, exceptional: bool) returns (r: WriteResult)
      requires connected ==> Valid()
      requires data != []
      modifies Repr
      ensures r.ClientDisconnected? <==> !old(connected)
      ensures connected == old(connected)
      ensures fresh(Repr - old(Repr))
      ensures connected ==> Valid() && old(socket.wire) <= socket.wire
      ensures r.Written? ==> r.n == |data| && accepted == old(accepted) + data
      ensures !r.Written? ==> accepted == old(accepted)
      ensures r.Written? && (!exceptional || old(totalOutbufsLen) <= highWatermark) ==>
        totalOutbufsLen <= highWatermark + |data|
      ensures r.Blocked? ==> !exceptional && totalOutbufsLen > highWatermark
      ensures r.Written? ==>
        if old(totalOutbufsLen) + |data| >= sendBytes then Offered() else NotOffered()
      ensures old(socket.raises) <= socket.raises && (connected ==> willClose == (old(willClose) || Raised()))
    {
      hide Open;
      if !exceptional && connected && totalOutbufsLen > highWatermark {
        return Blocked(false);
      }
      if !connected {
        return ClientDisconnected;
      }
      Accept(data);
      r := Written(|data|);
    }

    /** The output side of `send_continue`. */
    method SendContinue() returns (end: FlushEnd)
      requires Valid() && connected
      modifies Repr
      ensures fresh(Repr - old(Repr)) && this in Repr
      ensures connected ==> Valid()
      ensures !connected ==> totalOutbufsLen == 0
      ensures accepted == old(accepted) + CONTINUE_LINE && old(socket.wire) <= socket.wire
      ensures willClose == old(willClose) && closeWhenFlushed == old(closeWhenFlushed)
      ensures Offered()
      ensures (end.Failed? <==> Raised()) && (connected <==> !Lost())
    {
      hide Open;
      Store(CONTINUE_LINE);
      var _, e := FlushSome(true);
      end := e;
    }

    /** `writable` */
    predicate Writable()
      reads this
    {
      totalOutbufsLen > 0 || willClose || closeWhenFlushed
    }

    /** The flush of `handle_write`. `idle` says that no request is queued; `lockable` that the outbuf lock
        is free. `notified` says whether a worker waiting on the lock is woken. */
    method FlushForWrite(idle: bool, lockable: bool) returns (notified: bool)
      requires Valid() && connected
      modifies Repr
      ensures fresh(Repr - old(Repr)) && this in Repr
      ensures connected ==> Valid() && totalOutbufsLen <= old(totalOutbufsLen)
      ensures accepted == old(accepted) && old(socket.wire) <= socket.wire
      ensures closeWhenFlushed == old(closeWhenFlushed) && (old(willClose) ==> willClose)
      ensures !connected ==> notified && totalOutbufsLen == 0
      ensures connected && !willClose && !idle && lockable && old(totalOutbufsLen) >= sendBytes ==>
        totalOutbufsLen < highWatermark ==> notified
      ensures connected && notified ==> totalOutbufsLen < highWatermark
      ensures if idle || (lockable && old(totalOutbufsLen) >= sendBytes) then Offered() else NotOffered()
      ensures willClose == (old(willClose) || Raised()) && (connected <==> !Lost())
    {
      hide Open;
      notified := false;
      if idle {
        var _, _ := FlushException(true);
      } else if totalOutbufsLen >= sendBytes {
        if lockable {
          var _, exception := FlushException(true);
          if !exception && totalOutbufsLen < highWatermark {
            notified := true;
          }
        }
      }
      if !connected {
        notified := true;
      }
    }

    /** `handle_write` */
    method HandleWrite(idle: bool, lockable: bool) returns (notified: bool)
      requires Valid() && connected
      modifies Repr
      ensures fresh(Repr - old(Repr)) && this in Repr
      ensures connected ==> Valid() && !willClose
      ensures accepted == old(accepted) && old(socket.wire) <= socket.wire
      ensures old(willClose) ==> !connected
      ensures !connected ==> notified && totalOutbufsLen == 0
      ensures connected && !idle && lockable && old(totalOutbufsLen) >= sendBytes && totalOutbufsLen < highWatermark
        ==> notified
      ensures connected && closeWhenFlushed ==> totalOutbufsLen > 0
      ensures connected && notified ==> totalOutbufsLen < highWatermark
      ensures connected ==> closeWhenFlushed == old(closeWhenFlushed) && totalOutbufsLen <= old(totalOutbufsLen)
      ensures if idle || (lockable && old(totalOutbufsLen) >= sendBytes) then Offered() else NotOffered()
      ensures connected <==> !old(willClose) && !Raised() && !Lost() && !(old(closeWhenFlushed) && totalOutbufsLen == 0)
      ensures !connected && !old(willClose) && !Raised() && !Lost() ==> socket.wire == accepted
    {
      hide Open;
      notified := FlushForWrite(idle, lockable);
      if connected {
        JoinIsLong();
      }
      if closeWhenFlushed && totalOutbufsLen == 0 {
        if connected {
          OpenFacts();
        }
        label flushed:
        closeWhenFlushed := false;
        willClose := true;
        if connected {
          StillOpen@flushed();
        }
      }
      if willClose {
        // closing twice changes nothing more
        if connected {
          HandleClose();
        }
        notified := true;
      }
    }

    lemma JoinIsLong()
      requires Valid()
      ensures totalOutbufsLen >= 0 && Open()
    {
      hide Open;
    }

    lemma OpenFacts()
      requires Open()
      ensures this in Repr && socket in Repr && |contents| == |outbufs| > 0
    {
    }
  }

  lemma JoinSkip(contents: seq<Bytes>, n: nat)
    requires contents != [] && n <= |contents[0]|
    ensures Join(contents) == contents[0][..n] + Join(contents[0 := contents[0][n..]])
  {
    var after := contents[0 := contents[0][n..]];
    assert after[1..] == contents[1..];
    assert contents[0] == contents[0][..n] + contents[0][n..];
  }

  lemma {:induction false} JoinLast(contents: seq<Bytes>, data: Bytes)
    requires contents != []
    ensures var k := |contents| - 1; Join(contents[k := contents[k] + data]) == Join(contents) + data
    decreases |contents|
  {
    var k := |contents| - 1;
    var after := contents[k := contents[k] + data];
    if k == 0 {
      assert contents[1..] == [] && after[1..] == [];
    } else {
      assert after[1..] == contents[1..][k - 1 := contents[1..][k - 1] + data];
      JoinLast(contents[1..], data);
    }
  }
}
