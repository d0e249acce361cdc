/** The outbufs of a channel as two threads flush them at the same time. Output is counted, not read:
    the bytes accepted are numbered from 0, so that every byte on the wire can be told from every other. */
module SharedOutbufs {

  /** `bufs[first..]` is the list of outbufs; those before it have been popped and closed. */
  datatype Io = Io(bufs: seq<seq<nat>>, first: nat, wire: seq<nat>, accepted: nat) {
    predicate NoOutbuf() { first >= |bufs| }
  }

  const NO_OUTPUT := Io([[]], 0, [], 0)

  /** Where accepted bytes go: the last outbuf, a fresh one, or a wrapped file with a fresh one behind it. */
  datatype Place = Last | Fresh | Wrapped

  function Numbers(from: nat, n: nat): (r: seq<nat>)
    ensures |r| == n
  {
    seq(n, i => from + i)
  }

  function Flat(bufs: seq<seq<nat>>, from: nat): seq<nat>
    decreases |bufs| - from
  {
    if from >= |bufs| then [] else bufs[from] + Flat(bufs, from + 1)
  }

  function Unread(io: Io): seq<nat> { Flat(io.bufs, io.first) }

  function BytesOf(io: Io, id: nat): seq<nat> {
    if id < |io.bufs| then io.bufs[id] else []
  }

  function Accept(io: Io, n: nat, place: Place): Io {
    var more := Numbers(io.accepted, n);
    var k := |io.bufs| - 1;
    var bufs :=
      match place
      case Last => if k < 0 then io.bufs else io.bufs[k := io.bufs[k] + more]
      case Fresh => io.bufs + [more]
      case Wrapped => io.bufs + [more] + [[]];
    io.(bufs := bufs, accepted := io.accepted + n)
  }

  /** A flush that no other disturbs and that sends n bytes: exhausted outbufs are popped on the way. */
  function Flush(io: Io, n: nat): Io
    decreases |io.bufs| - io.first
  {
    if io.NoOutbuf() then io
    else
      var front := io.bufs[io.first];
      var k := if n < |front| then n else |front|;
      var io' := io.(wire := io.wire + front[..k], bufs := io.bufs[io.first := front[k..]]);
      if k == |front| && io.first + 1 < |io.bufs| then Flush(io'.(first := io.first + 1), n - k) else io'
  }

  // ---------- one thread inside _flush_some ----------

  /** `id` is the local `outbuf`, `len` the local `outbuflen`. A chunk is overtaken when the other
      thread has sent bytes that it holds: they were at the front when it was taken. */
  datatype Flusher =
    | AtTop                                                       // before `outbuf = self.outbufs[0]`
    | Inner(id: nat, len: int)                                    // at the test of the inner loop
    | Taken(id: nat, len: int, chunk: seq<nat>, overtaken: bool)  // after `get`
    | Sent(id: nat, len: int, n: nat)                             // after `send`, before `skip`
    | Exhausted(id: nat)                                          // after the inner loop
    | Popping(id: nat)                                            // after the test for a second outbuf

  datatype Progress = Going(f: Flusher) | Finished | Failed

  datatype Turn = Turn(io: Io, next: Progress)

  /** What `get` and `send` may do: n is the length of the chunk, or of what the socket takes of it. */
  predicate CanTurn(io: Io, f: Flusher, n: nat) {
    match f
    case Inner(id, len) => len > 0 ==> n <= |BytesOf(io, id)| && (BytesOf(io, id) != [] ==> n > 0)
    case Taken(_, _, chunk, _) => n <= |chunk|
    case _ => true
  }

  /** One step of the flush: a test, or one operation on a buffer, the socket or the list. */
  function Turned(io: Io, f: Flusher, n: nat, otherSent: bool): Turn
    requires CanTurn(io, f, n)
  {
    match f
    case AtTop =>
      if io.NoOutbuf() then Turn(io, Failed) else Turn(io, Going(Inner(io.first, |io.bufs[io.first]|)))
    case Inner(id, len) =>
      if len > 0 then Turn(io, Going(Taken(id, len, BytesOf(io, id)[..n], otherSent))) else Turn(io, Going(Exhausted(id)))
    case Taken(id, len, chunk, _) =>
      if n == 0 then Turn(io, Finished) else Turn(io.(wire := io.wire + chunk[..n]), Going(Sent(id, len, n)))
    case Sent(id, len, k) =>
      if id < |io.bufs| && k <= |io.bufs[id]|
      then Turn(io.(bufs := io.bufs[id := io.bufs[id][k..]]), Going(Inner(id, len - k)))
      else Turn(io, Failed)
    case Exhausted(id) => Turn(io, if io.first + 1 < |io.bufs| then Going(Popping(id)) else Finished)
    case Popping(_) => if io.NoOutbuf() then Turn(io, Failed) else Turn(io.(first := io.first + 1), Going(AtTop))
  }

  /** By how much the total shrinks with that step. */
  function Spent(io: Io, f: Flusher): nat {
    if f.Sent? && f.id < |io.bufs| && f.n <= |io.bufs[f.id]| then f.n else 0
  }

  /** The other thread's chunk is overtaken by bytes sent now. */
  function Overtake(g: Flusher, f: Flusher, n: nat): Flusher {
    if f.Taken? && n > 0 && g.Taken? then g.(overtaken := true) else g
  }

  /** An exception ends the flush: a failing send, or an operation on a closed file. */
  predicate CanFail(io: Io, f: Flusher, connected: bool) {
    f.Taken? || ((f.Inner? || f.Sent?) && (f.id < io.first || !connected))
  }

  /** The two steps that go wrong: to send from an overtaken chunk, and to pop the last outbuf or one
      that still holds bytes. */
  predicate Misstep(io: Io, f: Flusher, n: nat) {
    match f
    case Taken(_, _, _, overtaken) => overtaken && n > 0
    case Popping(_) => !io.NoOutbuf() && (io.first + 1 == |io.bufs| || io.bufs[io.first] != [])
    case _ => false
  }

  // ---------- conservation ----------

  function Inflight(f: Flusher): nat { if f.Sent? then f.n else 0 }

  /** The bytes on the wire, and the unread ones but for those sent and not yet skipped, are the bytes
      accepted, in order; and there is an outbuf to append to. */
  predicate Conserved(io: Io, inflight: nat) {
    && !io.NoOutbuf() && inflight <= |Unread(io)|
    && io.wire + Unread(io)[inflight..] == Numbers(0, io.accepted)
  }

  predicate PoppedAreEmpty(io: Io) {
    forall j :: 0 <= j < io.first && j < |io.bufs| ==> io.bufs[j] == []
  }

  predicate Fits(io: Io, f: Flusher) {
    match f
    case Inner(id, _) => id <= io.first
    case Taken(id, _, chunk, overtaken) =>
      && (chunk != [] ==> if overtaken then chunk[0] < |io.wire| else id == io.first)
      && (!overtaken ==> chunk <= BytesOf(io, id))
    case Sent(id, _, n) => id == io.first && 0 < n <= |io.wire| && io.wire[|io.wire| - n..] <= BytesOf(io, id)
    case _ => true
  }

  /** While one thread has bytes sent and not yet skipped, every chunk of the other is overtaken. */
  predicate Compatible(f: Flusher, g: Flusher) {
    f.Sent? ==> !g.Sent? && (g.Taken? ==> g.overtaken)
  }

  predicate Sound(io: Io, f: Flusher, g: Flusher) {
    && Conserved(io, Inflight(f) + Inflight(g)) && PoppedAreEmpty(io)
    && Fits(io, f) && Fits(io, g) && Compatible(f, g) && Compatible(g, f)
  }

  function After(p: Progress): Flusher { if p.Going? then p.f else AtTop }

  // ---------- lemmas ----------

  /** Outbufs before the list do not matter to it. */
  lemma {:induction false} FlatBelow(bufs: seq<seq<nat>>, from: nat, k: nat, b: seq<nat>)
    requires k < from && k < |bufs|
    ensures Flat(bufs[k := b], from) == Flat(bufs, from)
    decreases |bufs| - from
  {
    if from < |bufs| {
      FlatBelow(bufs, from + 1, k, b);
    }
  }

  lemma FlatFront(bufs: seq<seq<nat>>, k: nat, b: seq<nat>)
    requires k < |bufs|
    ensures Flat(bufs[k := b], k) == b + Flat(bufs, k + 1) && Flat(bufs, k) == bufs[k] + Flat(bufs, k + 1)
    ensures Flat(bufs[k := b], k + 1) == Flat(bufs, k + 1)
  {
    FlatBelow(bufs, k + 1, k, b);
  }

  lemma {:induction false} FlatLast(bufs: seq<seq<nat>>, from: nat, more: seq<nat>)
    requires from < |bufs|
    ensures var k := |bufs| - 1; Flat(bufs[k := bufs[k] + more], from) == Flat(bufs, from) + more
    decreases |bufs| - from
  {
    var k := |bufs| - 1;
    if from == k {
      FlatFront(bufs, k, bufs[k] + more);
    } else {
      FlatLast(bufs, from + 1, more);
    }
  }

  lemma {:induction false} FlatAppend(bufs: seq<seq<nat>>, from: nat, more: seq<seq<nat>>)
    requires from <= |bufs|
    ensures Flat(bufs + more, from) == Flat(bufs, from) + Flat(more, 0)
    decreases |bufs| - from
  {
    if from == |bufs| {
      FlatShift(bufs, more, 0);
    } else {
      FlatAppend(bufs, from + 1, more);
    }
  }

  lemma {:induction false} FlatShift(bufs: seq<seq<nat>>, more: seq<seq<nat>>, k: nat)
    ensures Flat(bufs + more, |bufs| + k) == Flat(more, k)
    decreases |more| - k
  {
    if k < |more| {
      FlatShift(bufs, more, k + 1);
    }
  }

  lemma NumbersSplit(a: nat, n: nat, m: nat)
    ensures Numbers(a, n) + Numbers(a + n, m) == Numbers(a, n + m)
  {
  }

  lemma AcceptedBehind(io: Io, n: nat, place: Place)
    requires !io.NoOutbuf()
    ensures Unread(Accept(io, n, place)) == Unread(io) + Numbers(io.accepted, n)
  {
    var more := Numbers(io.accepted, n);
    match place
    case Last => FlatLast(io.bufs, io.first, more);
    case Fresh =>
      FlatAppend(io.bufs, io.first, [more]);
      FlatFront([more], 0, more);
    case Wrapped =>
      assert io.bufs + [more] + [[]] == io.bufs + [more, []];
      FlatAppend(io.bufs, io.first, [more, []]);
      FlatFront([more, []], 0, more);
      FlatFront([more, []], 1, []);
  }

  /** What is accepted comes behind everything unread, wherever it is put. */
  lemma AcceptKeeps(io: Io, n: nat, place: Place, inflight: nat)
    requires Conserved(io, inflight) && PoppedAreEmpty(io)
    ensures var io' := Accept(io, n, place);
      && |Unread(io')| == |Unread(io)| + n && Conserved(io', inflight) && PoppedAreEmpty(io')
      && io'.first == io.first && io'.wire == io.wire
      && (forall id :: 0 <= id < |io.bufs| ==> io.bufs[id] <= BytesOf(io', id))
  {
    hide Flat;
    AcceptedBehind(io, n, place);
    NumbersSplit(0, io.accepted, n);
    var more := Numbers(io.accepted, n);
    assert (Unread(io) + more)[inflight..] == Unread(io)[inflight..] + more;
  }

  /** An undisturbed flush sends the first n unread bytes and leaves the others. */
  lemma {:induction false} FlushKeeps(io: Io, n: nat)
    requires !io.NoOutbuf() && n <= |Unread(io)| && PoppedAreEmpty(io)
    ensures var io' := Flush(io, n);
      && !io'.NoOutbuf() && PoppedAreEmpty(io') && io'.accepted == io.accepted
      && io'.wire == io.wire + Unread(io)[..n] && Unread(io') == Unread(io)[n..]
    decreases |io.bufs| - io.first
  {
    hide Flat;
    var front := io.bufs[io.first];
    var k := if n < |front| then n else |front|;
    var io1 := io.(wire := io.wire + front[..k], bufs := io.bufs[io.first := front[k..]]);
    FlatFront(io.bufs, io.first, front[k..]);
    var rest := Flat(io.bufs, io.first + 1);
    if k == |front| && io.first + 1 < |io.bufs| {
      FlushKeeps(io1.(first := io.first + 1), n - k);
      SplitAfter(front, rest, n);
    } else {
      NothingBehind(io.bufs, io.first + 1);
      SplitWithin(front, rest, n);
    }
  }

  lemma SplitAfter(a: seq<nat>, b: seq<nat>, n: nat)
    requires |a| <= n <= |a| + |b|
    ensures (a + b)[..n] == a + b[..n - |a|] && (a + b)[n..] == b[n - |a|..] && a[..|a|] == a
  {
  }

  lemma SplitWithin(a: seq<nat>, b: seq<nat>, n: nat)
    requires n <= |a|
    ensures (a + b)[..n] == a[..n] && (a + b)[n..] == a[n..] + b
  {
  }

  lemma NothingBehind(bufs: seq<seq<nat>>, from: nat)
    ensures from >= |bufs| ==> Flat(bufs, from) == []
  {
  }

  lemma FlushConserves(io: Io, n: nat)
    requires Conserved(io, 0) && PoppedAreEmpty(io) && n <= |Unread(io)|
    ensures var io' := Flush(io, n);
      Conserved(io', 0) && PoppedAreEmpty(io') && |Unread(io')| == |Unread(io)| - n
  {
    hide Flush, Unread;
    FlushKeeps(io, n);
    var u := Unread(io);
    assert u[0..] == u && u[n..][0..] == u[n..];
    assert io.wire + u[..n] + u[n..] == io.wire + u;
  }

  // ---------- one step of one of two flushes ----------

  /** Where f's step takes the two flushers. */
  function Stepped(io: Io, f: Flusher, g: Flusher, n: nat): (Io, Flusher, Flusher)
    requires CanTurn(io, f, n)
  {
    var t := Turned(io, f, n, g.Sent?);
    (t.io, After(t.next), Overtake(g, f, n))
  }

  lemma FrontOfWire(io: Io, inflight: nat)
    requires Conserved(io, inflight)
    ensures |io.wire| + |Unread(io)| - inflight == io.accepted
    ensures forall k :: 0 <= k < |io.wire| ==> io.wire[k] == k
    ensures forall k :: inflight <= k < |Unread(io)| ==> Unread(io)[k] == |io.wire| + k - inflight
  {
    var all := io.wire + Unread(io)[inflight..];
    forall k | 0 <= k < |io.wire| ensures io.wire[k] == k {
      assert all[k] == k;
    }
    forall k | inflight <= k < |Unread(io)| ensures Unread(io)[k] == |io.wire| + k - inflight {
      assert all[|io.wire| + k - inflight] == |io.wire| + k - inflight;
    }
  }

  /** The front outbuf holds the first unread bytes. */
  lemma FrontIsFirst(io: Io)
    requires !io.NoOutbuf()
    ensures io.bufs[io.first] <= Unread(io)
  {
    FlatFront(io.bufs, io.first, []);
  }

  lemma GetKeeps(io: Io, f: Flusher, g: Flusher, n: nat)
    requires Sound(io, f, g) && f.Inner? && f.len > 0 && CanTurn(io, f, n)
    ensures var (io', f', g') := Stepped(io, f, g, n); Sound(io', f', g')
  {
    hide Flat, Numbers, Unread;
    if g.Sent? {
      FrontOfWire(io, g.n);
      assert io.wire[|io.wire| - g.n] == io.wire[|io.wire| - g.n..][0];
    }
  }

  lemma SentFromFront(wire: seq<nat>, front: seq<nat>, u: seq<nat>, chunk: seq<nat>, n: nat)
    requires chunk <= front <= u && n <= |chunk|
    ensures var wire' := wire + chunk[..n];
      wire' + u[n..] == wire + u[0..] && wire'[|wire'| - n..] == chunk[..n] <= front
    ensures chunk != [] ==> u != [] && chunk[0] == u[0]
  {
  }

  lemma SendKeeps(io: Io, f: Flusher, g: Flusher, n: nat)
    requires Sound(io, f, g) && f.Taken? && CanTurn(io, f, n) && !Misstep(io, f, n)
    ensures var (io', f', g') := Stepped(io, f, g, n); Sound(io', f', g')
  {
    hide Flat, Numbers;
    if n > 0 {
      FrontIsFirst(io);
      FrontOfWire(io, 0);
      SentFromFront(io.wire, io.bufs[io.first], Unread(io), f.chunk, n);
      if g.Taken? && !g.overtaken && g.chunk != [] {
        SentFromFront(io.wire, io.bufs[io.first], Unread(io), g.chunk, 0);
      }
      SendIsSound(io, f, g, n);
    }
  }

  lemma SendIsSound(io: Io, f: Flusher, g: Flusher, n: nat)
    requires Sound(io, f, g) && f.Taken? && 0 < n <= |f.chunk| && !f.overtaken
    requires Unread(io.(wire := io.wire + f.chunk[..n])) == Unread(io) && n <= |Unread(io)|
    requires var wire' := io.wire + f.chunk[..n];
      wire' + Unread(io)[n..] == io.wire + Unread(io)[0..] && wire'[|wire'| - n..] <= BytesOf(io, io.first)
    requires g.Taken? && g.chunk != [] ==> g.chunk[0] < |io.wire| + n
    ensures var (io', f', g') := Stepped(io, f, g, n); Sound(io', f', g')
  {
    hide Flat, Numbers;
  }

  lemma SkipKeeps(io: Io, f: Flusher, g: Flusher, n: nat)
    requires Sound(io, f, g) && f.Sent?
    ensures var t := Turned(io, f, n, g.Sent?); t.next.Going? && |Unread(t.io)| + f.n == |Unread(io)|
    ensures var (io', f', g') := Stepped(io, f, g, n); Sound(io', f', g')
  {
    hide Numbers;
    var b := io.bufs[io.first];
    FlatFront(io.bufs, io.first, b[f.n..]);
    hide Flat;
    var io' := Turned(io, f, n, g.Sent?).io;
    assert Unread(io)[f.n..] == Unread(io');
  }

  lemma PopKeeps(io: Io, f: Flusher, g: Flusher, n: nat)
    requires Sound(io, f, g) && f.Popping? && !Misstep(io, f, n)
    ensures var (io', f', g') := Stepped(io, f, g, n); Sound(io', f', g') && Unread(io') == Unread(io)
  {
    hide Numbers;
    FlatFront(io.bufs, io.first, []);
    hide Flat;
  }

  /** A step that is not a misstep keeps both flushes sound, and the total in line with what is unread. */
  lemma TurnKeeps(io: Io, f: Flusher, g: Flusher, n: nat)
    requires Sound(io, f, g) && CanTurn(io, f, n) && !Misstep(io, f, n)
    ensures var (io', f', g') := Stepped(io, f, g, n);
      Sound(io', f', g') && |Unread(io')| + Spent(io, f) == |Unread(io)|
  {
    hide Flat, Numbers, Conserved;
    match f
    case Inner(_, len) =>
      if len > 0 {
        GetKeeps(io, f, g, n);
      }
    case Taken(_, _, _, _) => SendKeeps(io, f, g, n);
    case Sent(_, _, _) => SkipKeeps(io, f, g, n);
    case Popping(_) => PopKeeps(io, f, g, n);
    case _ =>
  }

  /** After a misstep the output is not conserved. */
  lemma MisstepBreaks(io: Io, f: Flusher, g: Flusher, n: nat)
    requires Sound(io, f, g) && CanTurn(io, f, n) && Misstep(io, f, n)
    ensures var (io', f', g') := Stepped(io, f, g, n); !Conserved(io', Inflight(f') + Inflight(g'))
  {
    hide Numbers;
    var (io', f', g') := Stepped(io, f, g, n);
    var inflight := Inflight(f') + Inflight(g');
    FrontOfWire(io, Inflight(f) + Inflight(g));
    if f.Taken? {
      assert io'.wire[|io.wire|] == f.chunk[0];
    } else {
      FlatFront(io.bufs, io.first, []);
    }
    if Conserved(io', inflight) {
      FrontOfWire(io', inflight);
      assert false;
    }
  }

  // ---------- one flush alone ----------

  /** What a flusher's locals are worth while no other thread flushes. */
  predicate Alone(io: Io, f: Flusher) {
    match f
    case AtTop => true
    case Inner(id, len) => id == io.first && len == |BytesOf(io, id)|
    case Taken(id, len, chunk, overtaken) => !overtaken && id == io.first && len == |BytesOf(io, id)|
    case Sent(id, len, _) => id == io.first && len == |BytesOf(io, id)|
    case Exhausted(id) => BytesOf(io, io.first) == []
    case Popping(id) => BytesOf(io, io.first) == [] && io.first + 1 < |io.bufs|
  }

  /** A flush alone takes no misstep and does not fail on a buffer. */
  lemma AloneIsSafe(io: Io, f: Flusher, n: nat)
    requires Sound(io, f, AtTop) && Alone(io, f) && CanTurn(io, f, n)
    ensures var t := Turned(io, f, n, false); !Misstep(io, f, n) && !t.next.Failed? && Alone(t.io, After(t.next))
  {
    hide Numbers, Flat;
  }
}
