/** One channel, the main thread and the workers that serve it. A step is one lock section, or one
    operation where the code takes no lock; waiting on the outbuf lock ends a step. */
module ChannelMachine {
  import opened Wrappers
  import opened SharedOutbufs

  datatype Config = Config(highWatermark: int, sendBytes: int) {
    predicate Sound() { 0 < highWatermark && sendBytes <= highWatermark }
  }

  /** A wait for the main thread: to write `bytes`, or at the end of a service; after a flush that
      raised, or because too much output is pending. */
  datatype Wait = Wait(bytes: nat, exceptional: bool, atEnd: bool)

  datatype Pc =
    | Starting           // the task has been taken from the pool's queue
    | Executing          // inside the task
    | Locking(bytes: nat)  // in `write_soon`, before the outbuf lock
    | Waiting(wait: Wait)  // inside wait(), not notified
    | Woken(wait: Wait)    // notified, not yet resumed
    | Ending             // the task is over and the connection stays open
    | EndFlushing        // too much output is pending to go on; before the outbuf lock
    | Keeping            // before the requests lock, to move on to the next request
    | Closing            // before the requests lock, to close
    | Gone

  datatype Service = Service(pc: Pc, request: nat) {
    predicate Active() { !pc.Gone? }
    predicate Begun() { !pc.Gone? && !pc.Starting? }
  }

  /** Where the main thread is in `handle_write`. */
  datatype Writing =
    | NotWriting
    | Choosing             // requests are queued; before the test of the total
    | TryLock              // before `outbuf_lock.acquire(False)`
    | Unlocked(f: Flusher) // inside `_flush_some`, without the lock
    | Testing              // before the test of `close_when_flushed`
    | Deciding             // before the test of `will_close`
    | ClosingDown          // in `handle_close`, before the lock

  /** The rest of a service that has popped its request, holds the requests lock and sends a late
      100 Continue: before the outbuf lock, or holding it in `_flush_some`. */
  datatype Tail = NoTail | BeforeLock | Flushing(f: Flusher)

  /** What was accepted for output, in order: a 100 Continue line for a request, or a piece of the
      response to it. */
  datatype Out = ContinueLine(id: nat) | Piece(id: nat)

  datatype Pending = Pending(id: nat, expects: bool, headersFinished: bool)

  datatype State = State(
    requests: seq<nat>,
    received: seq<nat>,        // every request ever queued
    served: seq<nat>,          // every request a service has begun with
    nextId: nat,
    pending: Option<Pending>,
    sentContinue: bool,
    receiving: bool,           // the main thread is inside `received`, holding the requests lock
    writing: Writing,
    tail: Tail,
    total: int,
    connected: bool,
    willClose: bool,
    closeWhenFlushed: bool,
    finished: bool,            // a worker has closed the channel
    queued: nat,               // times the channel is in the pool's queue
    services: seq<Service>,
    log: seq<Out>,
    io: Io)

  const INITIAL := State([], [], [], 0, None, false, false, NotWriting, NoTail, 0, true, false, false, false, 0, [], [],
                         NO_OUTPUT)

  /** The outcome of one flush under the lock: how much was sent, and whether it ended in an OSError or
      a disconnect that closed the channel. */
  datatype Outcome = Outcome(sent: nat, raised: bool, gone: bool)

  predicate CanFlush(io: Io, f: Outcome, doClose: bool) {
    && f.sent <= |Unread(io)| && (f.gone ==> doClose && !f.raised)
    && (io.NoOutbuf() ==> f.raised)
  }

  datatype Event =
    | BeginReceive
    | Parse(expects: bool, headersFinished: bool, completed: bool, empty: bool, flush: Outcome)
    | EndReceive
    | BeginWrite
    | ChooseFlush
    | TryFlush(acquired: bool, flush: Outcome)
    | MainTurn(n: nat)
    | MainFails
    | MainGone
    | TestFlushed
    | TestClose
    | CloseDown
    | LoseClient
    | Maintain
    | TakeTask
    | Start(i: nat)
    | WriteCheck(i: nat, bytes: nat, swallow: bool)
    | WriteLock(i: nat, below: Outcome, after: Outcome, place: Place, swallow: bool)
    | Resume(i: nat, after: Outcome, place: Place, swallow: bool)
    | TaskEnds(i: nat, close: bool)
    | EndCheck(i: nat)
    | EndLock(i: nat, flush: Outcome)
    | EndResume(i: nat)
    | CloseSection(i: nat)
    | KeepSection(i: nat)
    | TailLock(raises: bool)
    | TailTurn(n: nat)
    | TailFails
    | TailGone

  const CONTINUE_BYTES := 25

  // ---------- steps ----------

  /** `notify()`: the first worker in wait() is woken. */
  function WakeFirst(v: seq<Service>): (r: seq<Service>)
    ensures |r| == |v|
    ensures forall i :: 0 <= i < |v| ==>
      r[i] == v[i] || (v[i].pc.Waiting? && r[i] == v[i].(pc := Woken(v[i].pc.wait)))
    ensures forall i :: 0 <= i < |v| && v[i].pc.Waiting? && (forall j :: 0 <= j < i ==> !v[j].pc.Waiting?) ==>
      r[i].pc == Woken(v[i].pc.wait)
  {
    if v == [] then []
    else if v[0].pc.Waiting? then [v[0].(pc := Woken(v[0].pc.wait))] + v[1..]
    else
      var r := WakeFirst(v[1..]);
      assert forall i :: 0 < i < |v| ==> v[1..][i - 1] == v[i];
      [v[0]] + r
  }

  function Move(s: State, i: nat, pc: Pc): State
    requires i < |s.services|
  {
    s.(services := s.services[i := s.services[i].(pc := pc)])
  }

  /** The lock section of `handle_close`. */
  function Closed(s: State): State {
    s.(total := 0, connected := false, services := WakeFirst(s.services))
  }

  /** `_flush_exception` of a flush under the lock */
  function Flushed(s: State, f: Outcome): State {
    var s1 := s.(io := Flush(s.io, f.sent), total := s.total - f.sent, willClose := s.willClose || f.raised);
    if f.gone then Closed(s1) else s1
  }

  /** `handle_write` looks for requests, without the lock. */
  function BeginWriteStep(s: State): State {
    s.(writing := if s.requests == [] then Unlocked(AtTop) else Choosing)
  }

  function ChooseStep(c: Config, s: State): State {
    s.(writing := if s.total >= c.sendBytes then TryLock else Testing)
  }

  /** `_flush_some_if_lockable` */
  function TryFlushStep(c: Config, s: State, acquired: bool, f: Outcome): State {
    var s1 := if acquired then Flushed(s, f) else s;
    var s2 := if acquired && !f.raised && s1.total < c.highWatermark then s1.(services := WakeFirst(s1.services)) else s1;
    s2.(writing := Testing)
  }

  function MainFlusher(s: State): Flusher { if s.writing.Unlocked? then s.writing.f else AtTop }

  function TailFlusher(s: State): Flusher { if s.tail.Flushing? then s.tail.f else AtTop }

  /** One operation of the flush without the lock. An exception makes the channel close. */
  function MainTurnStep(s: State, n: nat): State
    requires CanTurn(s.io, MainFlusher(s), n)
  {
    var f := MainFlusher(s);
    var t := Turned(s.io, f, n, TailFlusher(s).Sent?);
    s.(io := t.io, total := s.total - Spent(s.io, f), willClose := s.willClose || t.next.Failed?,
       tail := if s.tail.Flushing? then Flushing(Overtake(s.tail.f, f, n)) else s.tail,
       writing := if t.next.Going? then Unlocked(t.next.f) else Testing)
  }

  function TestFlushedStep(s: State): State {
    var s1 := if s.closeWhenFlushed && s.total == 0 then s.(closeWhenFlushed := false, willClose := true) else s;
    s1.(writing := Deciding)
  }

  function TestCloseStep(s: State): State {
    s.(writing := if s.willClose then ClosingDown else NotWriting)
  }

  /** `send_continue` for the pending request, by the main thread: the line is accepted, then output is flushed. */
  function ContinueStep(s: State, p: Pending, f: Outcome): State {
    var s1 := s.(log := s.log + [ContinueLine(p.id)], sentContinue := true, pending := Some(p.(expects := false)),
                 total := s.total + CONTINUE_BYTES - f.sent,
                 io := Flush(Accept(s.io, CONTINUE_BYTES, Last), f.sent));
    if f.gone then Closed(s1) else s1
  }

  /** A request is received; the main thread starts its task if there is no other. */
  function Queue(s: State, id: nat): State {
    s.(sentContinue := false, pending := None, requests := s.requests + [id],
       received := s.received + [id], queued := s.queued + if s.requests == [] then 1 else 0)
  }

  /** One turn of the loop in `received`; the parser's findings come with the event. */
  function ParseStep(s: State, e: Event): State
    requires e.Parse?
  {
    var p := Pending(if s.pending.Some? then s.pending.value.id else s.nextId, e.expects, e.headersFinished);
    var s1 := s.(pending := Some(p), nextId := if s.pending.Some? then s.nextId else s.nextId + 1);
    if p.expects && p.headersFinished && s.requests == [] && !s.sentContinue then
      // a failing send leaves `received` by an exception, for which the channel is closed
      if !s.connected || s.io.NoOutbuf() then Closed(s1.(receiving := false))
      else
        var s2 := ContinueStep(s1, p, e.flush);
        if e.flush.raised then Closed(s2.(receiving := false)) else s2
    else if e.completed then
      if e.empty then s1.(sentContinue := false, pending := None) else Queue(s1, p.id)
    else s1
  }

  function StartStep(s: State, i: nat): State
    requires i < |s.services| && s.requests != []
  {
    var r := s.requests[0];
    s.(services := s.services[i := Service(if s.connected then Executing else Closing, r)], served := s.served + [r])
  }

  /** The task is interrupted by an exception; the application may swallow that. */
  function Interrupted(s: State, i: nat, swallow: bool): State
    requires i < |s.services|
  {
    Move(s, i, if swallow then Executing else Closing)
  }

  /** `write_soon` below the watermark */
  function AcceptStep(c: Config, s: State, i: nat, bytes: nat, after: Outcome, place: Place, swallow: bool): State
    requires i < |s.services|
  {
    if s.io.NoOutbuf() && place.Last? then Interrupted(s, i, swallow)
    else
      var s1 := Move(s, i, Executing).(total := s.total + bytes, log := s.log + [Piece(s.services[i].request)],
                                       io := Accept(s.io, bytes, place));
      if s1.total >= c.sendBytes then Flushed(s1, after) else s1
  }

  function WriteLockStep(c: Config, s: State, i: nat, e: Event): State
    requires e.WriteLock? && i < |s.services| && s.services[i].pc.Locking?
  {
    var bytes := s.services[i].pc.bytes;
    if s.total > c.highWatermark then
      var s1 := Flushed(s, e.below);
      if e.below.raised then Move(s1, i, Waiting(Wait(bytes, true, false)))
      else if s1.connected && s1.total > c.highWatermark then Move(s1, i, Waiting(Wait(bytes, false, false)))
      else if !s1.connected then Interrupted(s1, i, e.swallow)
      else AcceptStep(c, s1, i, bytes, e.after, e.place, e.swallow)
    else if !s.connected then Interrupted(s, i, e.swallow)
    else AcceptStep(c, s, i, bytes, e.after, e.place, e.swallow)
  }

  function ResumeStep(c: Config, s: State, i: nat, e: Event): State
    requires e.Resume? && i < |s.services| && s.services[i].pc.Woken?
  {
    var w := s.services[i].pc.wait;
    if !w.exceptional && s.connected && s.total > c.highWatermark then Move(s, i, Waiting(w))
    else if !s.connected then Interrupted(s, i, e.swallow)
    else AcceptStep(c, s, i, w.bytes, e.after, e.place, e.swallow)
  }

  function EndLockStep(c: Config, s: State, i: nat, f: Outcome): State
    requires i < |s.services|
  {
    var s1 := Flushed(s, f);
    if f.raised then Move(s1, i, Waiting(Wait(0, true, true)))
    else if s1.connected && s1.total > c.highWatermark then Move(s1, i, Waiting(Wait(0, false, true)))
    else Move(s1, i, Keeping)
  }

  function EndResumeStep(c: Config, s: State, i: nat): State
    requires i < |s.services| && s.services[i].pc.Woken?
  {
    var w := s.services[i].pc.wait;
    if !w.exceptional && s.connected && s.total > c.highWatermark then Move(s, i, Waiting(w)) else Move(s, i, Keeping)
  }

  function CloseStep(s: State, i: nat): State
    requires i < |s.services|
  {
    Move(s, i, Gone).(closeWhenFlushed := true, requests := [], finished := true)
  }

  predicate ExpectsContinue(s: State) {
    s.pending.Some? && s.pending.value.expects && s.pending.value.headersFinished && !s.sentContinue
  }

  /** The last section of a service: the next request gets its task, or a late 100 Continue is due. */
  function KeepStep(s: State, i: nat): State
    requires i < |s.services| && s.requests != []
  {
    var s1 := Move(s, i, Gone).(requests := s.requests[1..]);
    if s.connected && s1.requests != [] then s1.(queued := s.queued + 1)
    else if s.connected && ExpectsContinue(s) then s1.(tail := BeforeLock)
    else s1
  }

  /** The worker in `send_continue` has the outbuf lock. */
  function TailLockStep(s: State, raises: bool): State
    requires s.pending.Some?
  {
    var p := s.pending.value;
    var s1 := s.(pending := Some(p.(expects := false)));
    if raises || s.io.NoOutbuf() then s1.(tail := NoTail)
    else s1.(log := s.log + [ContinueLine(p.id)], sentContinue := true, total := s.total + CONTINUE_BYTES,
             io := Accept(s.io, CONTINUE_BYTES, Last), tail := Flushing(AtTop))
  }

  /** One operation of its flush. An exception ends the thread's task. */
  function TailTurnStep(s: State, n: nat): State
    requires CanTurn(s.io, TailFlusher(s), n)
  {
    var f := TailFlusher(s);
    var t := Turned(s.io, f, n, MainFlusher(s).Sent?);
    s.(io := t.io, total := s.total - Spent(s.io, f),
       writing := if s.writing.Unlocked? then Unlocked(Overtake(s.writing.f, f, n)) else s.writing,
       tail := if t.next.Going? then Flushing(t.next.f) else NoTail)
  }

  predicate At(s: State, i: nat) { i < |s.services| }

  predicate MainIdle(s: State) { !s.receiving && s.writing.NotWriting? }

  predicate RequestsLocked(s: State) { s.receiving || !s.tail.NoTail? }

  predicate OutbufsLocked(s: State) { s.tail.Flushing? }

  predicate Enabled(c: Config, s: State, e: Event) {
    match e
    case BeginReceive => MainIdle(s) && !RequestsLocked(s) && !s.willClose && !s.closeWhenFlushed
    case Parse(_, _, _, _, f) => s.receiving && CanFlush(Accept(s.io, CONTINUE_BYTES, Last), f, true)
    case EndReceive => s.receiving
    case BeginWrite => MainIdle(s) && s.connected
    case ChooseFlush => s.writing.Choosing?
    case TryFlush(acquired, f) => s.writing.TryLock? && (acquired ==> !OutbufsLocked(s) && CanFlush(s.io, f, true))
    case MainTurn(n) => s.writing.Unlocked? && CanTurn(s.io, s.writing.f, n)
    case MainFails => s.writing.Unlocked? && CanFail(s.io, s.writing.f, s.connected)
    case MainGone => s.writing.Unlocked? && s.writing.f.Taken? && !OutbufsLocked(s)
    case TestFlushed => s.writing.Testing?
    case TestClose => s.writing.Deciding?
    case CloseDown => s.writing.ClosingDown? && !OutbufsLocked(s)
    case LoseClient => MainIdle(s) && s.connected && !OutbufsLocked(s)
    case Maintain => MainIdle(s) && s.requests == []
    case TakeTask => s.queued > 0
    case Start(i) => At(s, i) && s.services[i].pc.Starting? && s.requests != []
    case WriteCheck(i, n, _) => At(s, i) && s.services[i].pc.Executing? && n > 0
    case WriteLock(i, below, after, place, _) =>
      && At(s, i) && s.services[i].pc.Locking? && !OutbufsLocked(s) && CanFlush(s.io, below, false)
      && CanFlush(Accept(if s.total > c.highWatermark then Flush(s.io, below.sent) else s.io, s.services[i].pc.bytes, place),
                  after, false)
    case Resume(i, after, place, _) =>
      && At(s, i) && s.services[i].pc.Woken? && !s.services[i].pc.wait.atEnd && !OutbufsLocked(s)
      && CanFlush(Accept(s.io, s.services[i].pc.wait.bytes, place), after, false)
    case TaskEnds(i, _) => At(s, i) && s.services[i].pc.Executing?
    case EndCheck(i) => At(s, i) && s.services[i].pc.Ending?
    case EndLock(i, f) => At(s, i) && s.services[i].pc.EndFlushing? && !OutbufsLocked(s) && CanFlush(s.io, f, false)
    case EndResume(i) => At(s, i) && s.services[i].pc.Woken? && s.services[i].pc.wait.atEnd && !OutbufsLocked(s)
    case CloseSection(i) => At(s, i) && s.services[i].pc.Closing? && !RequestsLocked(s)
    case KeepSection(i) => At(s, i) && s.services[i].pc.Keeping? && !RequestsLocked(s) && s.requests != []
    case TailLock(raises) => s.tail.BeforeLock? && s.pending.Some? && (raises ==> !s.connected)
    case TailTurn(n) => s.tail.Flushing? && CanTurn(s.io, s.tail.f, n)
    case TailFails => s.tail.Flushing? && CanFail(s.io, s.tail.f, s.connected)
    case TailGone => s.tail.Flushing? && s.tail.f.Taken?
  }

  function Next(c: Config, s: State, e: Event): State
    requires Enabled(c, s, e)
  {
    match e
    case BeginReceive => s.(receiving := true)
    case Parse(_, _, _, _, _) => ParseStep(s, e)
    case EndReceive => s.(receiving := false)
    case BeginWrite => BeginWriteStep(s)
    case ChooseFlush => ChooseStep(c, s)
    case TryFlush(acquired, f) => TryFlushStep(c, s, acquired, f)
    case MainTurn(n) => MainTurnStep(s, n)
    case MainFails => s.(willClose := true, writing := Testing)
    case MainGone => Closed(s).(writing := Testing)
    case TestFlushed => TestFlushedStep(s)
    case TestClose => TestCloseStep(s)
    case CloseDown => Closed(s).(writing := NotWriting)
    case LoseClient => Closed(s)
    case Maintain => s.(willClose := true)
    case TakeTask => s.(queued := s.queued - 1, services := s.services + [Service(Starting, 0)])
    case Start(i) => StartStep(s, i)
    case WriteCheck(i, n, swallow) => if s.connected then Move(s, i, Locking(n)) else Interrupted(s, i, swallow)
    case WriteLock(i, _, _, _, _) => WriteLockStep(c, s, i, e)
    case Resume(i, _, _, _) => ResumeStep(c, s, i, e)
    case TaskEnds(i, close) => Move(s, i, if close then Closing else Ending)
    case EndCheck(i) => Move(s, i, if |s.requests| > 1 && s.total > c.highWatermark then EndFlushing else Keeping)
    case EndLock(i, f) => EndLockStep(c, s, i, f)
    case EndResume(i) => EndResumeStep(c, s, i)
    case CloseSection(i) => CloseStep(s, i)
    case KeepSection(i) => KeepStep(s, i)
    case TailLock(raises) => TailLockStep(s, raises)
    case TailTurn(n) => TailTurnStep(s, n)
    case TailFails => s.(tail := NoTail)
    case TailGone => Closed(s).(tail := NoTail)
  }

  // ---------- the invariant ----------

  ghost predicate SomeActive(s: State) { exists i :: 0 <= i < |s.services| && s.services[i].Active() }

  ghost predicate SomeBegun(s: State) { exists i :: 0 <= i < |s.services| && s.services[i].Begun() }

  /** The channel is at most once among the queued tasks and the services not yet over, and there is a
      request for it; while connected, a queued request has exactly one. */
  ghost predicate ServedOnce(s: State) {
    && s.queued <= 1
    && (s.queued == 1 ==> !SomeActive(s))
    && (forall i, j :: 0 <= i < j < |s.services| ==> !(s.services[i].Active() && s.services[j].Active()))
    && (s.queued == 1 || SomeActive(s) ==> s.requests != [])
    && (s.connected && s.requests != [] ==> s.queued == 1 || SomeActive(s))
    && (forall i :: 0 <= i < |s.services| && s.services[i].Begun() ==> s.requests != [] && s.services[i].request == s.requests[0])
  }

  predicate Writes(pc: Pc) {
    pc.Executing? || pc.Locking? || pc.Waiting? || pc.Woken? || pc.Ending? || pc.EndFlushing?
  }

  /** A task that outlives the connection finds nothing pending. */
  ghost predicate Totals(s: State) {
    !s.connected ==> forall i :: 0 <= i < |s.services| && Writes(s.services[i].pc) ==> s.total <= 0
  }

  /** A worker in wait() has something to wait for. Only the wait after a failed flush at the end of a
      service can outlive the connection. */
  ghost predicate Waits(c: Config, s: State) {
    forall i :: 0 <= i < |s.services| ==>
      match s.services[i].pc
      case Waiting(w) =>
        if s.connected then s.total >= c.highWatermark || s.willClose else w.exceptional && w.atEnd
      case Woken(w) => s.connected && w.exceptional ==> s.total < c.highWatermark
      case _ => true
  }

  ghost predicate Finality(s: State) {
    s.finished ==> s.requests == [] && (s.willClose || s.closeWhenFlushed) && !s.receiving
  }

  /** What each thread can rely on inside its section. */
  ghost predicate Sections(s: State) {
    && (s.receiving ==> s.writing.NotWriting? && s.tail.NoTail?)
    && (s.writing.Unlocked? ==> s.requests == [])
    && (!s.tail.NoTail? ==> s.requests == [] && s.pending.Some?)
    && (s.tail.BeforeLock? ==> !s.sentContinue)
  }

  predicate Increasing(ids: seq<nat>) {
    forall i, j :: 0 <= i < j < |ids| ==> ids[i] < ids[j]
  }

  /** Every id given out so far and not pending is below this. */
  function Bound(s: State): nat {
    if s.pending.Some? then s.pending.value.id else s.nextId
  }

  ghost predicate Ids(s: State) {
    && (s.pending.Some? ==> s.pending.value.id < s.nextId)
    && Increasing(s.received) && (forall r :: r in s.received ==> r < Bound(s))
    && |s.requests| <= |s.received|
    && (!s.finished ==> s.requests == s.received[|s.received| - |s.requests|..])
  }

  /** Services begin with the requests in the order these were queued. */
  ghost predicate InOrder(s: State) {
    && s.served <= s.received
    && (!s.finished ==> |s.served| == |s.received| - |s.requests| + if SomeBegun(s) then 1 else 0)
  }

  predicate Before(a: Out, b: Out) { a.id < b.id || (a.id == b.id && b.Piece?) }

  /** Output is in request order; at most one 100 Continue line stands before the response to its request. */
  ghost predicate Sorted(log: seq<Out>) {
    forall i, j :: 0 <= i < j < |log| ==> Before(log[i], log[j])
  }

  ghost predicate Logged(s: State) {
    && Sorted(s.log)
    && (s.sentContinue ==> s.pending.Some?)
    && (forall e :: e in s.log ==>
      if s.requests != [] then e.id <= s.requests[0]
      else e.id < Bound(s) || (s.sentContinue && e == ContinueLine(Bound(s))))
  }

  ghost predicate Inv(c: Config, s: State) {
    ServedOnce(s) && Totals(s) && Waits(c, s) && Finality(s) && Sections(s) && Ids(s) && InOrder(s) && Logged(s)
  }

  // ---------- steps that move workers along ----------

  /** Workers may have moved, but none has begun or ended. */
  ghost predicate SameShape(v: seq<Service>, v': seq<Service>) {
    && |v'| == |v|
    && forall i :: 0 <= i < |v| ==>
      v'[i].request == v[i].request && (v'[i].Active() <==> v[i].Active()) && (v'[i].Begun() <==> v[i].Begun())
  }

  /** Requests, ids and the pool's queue are as before. */
  ghost predicate SameRequests(s: State, s': State) {
    && s'.requests == s.requests && s'.received == s.received && s'.served == s.served
    && s'.nextId == s.nextId && s'.pending == s.pending && s'.sentContinue == s.sentContinue
    && s'.queued == s.queued && s'.finished == s.finished
    && (s'.connected ==> s.connected)
    && (s.finished ==> (s.willClose || s.closeWhenFlushed ==> s'.willClose || s'.closeWhenFlushed) && s'.receiving == s.receiving)
    && SameShape(s.services, s'.services)
  }

  lemma ShapeKeeps(s: State, s': State)
    requires SameRequests(s, s')
    requires ServedOnce(s) && Finality(s) && Ids(s) && InOrder(s)
    ensures ServedOnce(s') && Finality(s') && Ids(s') && InOrder(s')
  {
    assert SomeActive(s') <==> SomeActive(s) by {
      if i :| 0 <= i < |s.services| && s.services[i].Active() { assert s'.services[i].Active(); }
      if i :| 0 <= i < |s'.services| && s'.services[i].Active() { assert s.services[i].Active(); }
    }
    assert SomeBegun(s') <==> SomeBegun(s) by {
      if i :| 0 <= i < |s.services| && s.services[i].Begun() { assert s'.services[i].Begun(); }
      if i :| 0 <= i < |s'.services| && s'.services[i].Begun() { assert s.services[i].Begun(); }
    }
  }

  /** A step that changes nothing but flags, output and who waits keeps what it does not touch. */
  lemma QuietKeeps(c: Config, s: State, s': State)
    requires Inv(c, s) && SameRequests(s, s') && s'.log == s.log
    requires Totals(s') && Waits(c, s') && Sections(s')
    ensures Inv(c, s')
  {
    hide Waits, ServedOnce, SameRequests, Ids, InOrder, Finality, Totals, Sections;
    ShapeKeeps(s, s');
    LoggedStays(s, s');
  }

  lemma LoggedStays(s: State, s': State)
    requires Logged(s) && s'.log == s.log && SameRequests(s, s')
    ensures Logged(s')
  {
  }

  /** The only worker in wait() is woken by a notification. */
  lemma WakeOnly(s: State, i: nat)
    requires ServedOnce(s) && i < |s.services| && s.services[i].pc.Waiting?
    ensures WakeFirst(s.services)[i].pc == Woken(s.services[i].pc.wait)
  {
    assert forall j :: 0 <= j < i ==> !s.services[j].Active();
  }

  lemma NobodyActive(s: State)
    requires ServedOnce(s) && s.requests == []
    ensures !SomeActive(s) && forall i :: 0 <= i < |s.services| ==> s.services[i].pc.Gone?
  {
    forall i | 0 <= i < |s.services| ensures s.services[i].pc.Gone? {
      assert s.services[i].Active() ==> SomeActive(s);
    }
  }

  /** A notification wakes whoever waits and changes nothing else. */
  lemma WakeKeeps(s: State, s': State)
    requires ServedOnce(s) && Totals(s) && s'.services == WakeFirst(s.services)
    requires s'.connected ==> s.connected
    requires !s.connected ==> s'.total <= s.total
    requires !s'.connected && s.connected ==> s'.total <= 0
    ensures SameShape(s.services, s'.services) && Totals(s')
    ensures forall i :: 0 <= i < |s'.services| ==> !s'.services[i].pc.Waiting?
  {
    forall i | 0 <= i < |s.services| ensures !s'.services[i].pc.Waiting? {
      if s.services[i].pc.Waiting? { WakeOnly(s, i); }
    }
  }

  /** `handle_close`, wherever the main thread goes on and whatever is left of a late 100 Continue. */
  lemma ClosedKeeps(c: Config, s: State)
    requires ServedOnce(s) && Totals(s)
    ensures var s' := Closed(s);
      SameRequests(s, s') && Totals(s') && Waits(c, s') && s'.log == s.log
  {
    hide WakeFirst;
    WakeKeeps(s.(total := if s.connected then s.total else 0), Closed(s));
  }

  lemma SameActivity(s: State, s': State)
    requires ServedOnce(s) && s'.services == s.services && s'.requests == s.requests && s'.queued == s.queued
    requires s'.connected ==> s.connected
    ensures ServedOnce(s')
  {
    assert SomeActive(s') <==> SomeActive(s);
  }

  lemma SameRequestsTransitive(a: State, b: State, c: State)
    requires SameRequests(a, b) && SameRequests(b, c)
    ensures SameRequests(a, c)
  {
  }

  // ---------- the steps of handle_write ----------

  /** The locked flush: a worker that still waits has the watermark pending, or will be closed. */
  lemma TryFlushKeeps(c: Config, s: State, acquired: bool, f: Outcome)
    requires c.Sound() && Inv(c, s) && Enabled(c, s, TryFlush(acquired, f))
    ensures Inv(c, Next(c, s, TryFlush(acquired, f)))
  {
    hide Flush, Unread, WakeFirst, Inv;
    NotReceiving(c, s);
    if !acquired {
      SetWriting(c, s, Testing);
    } else if f.gone {
      FlushGone(c, s, f);
    } else if !f.raised && s.total - f.sent < c.highWatermark {
      FlushNotify(c, s, f);
    } else {
      FlushOnly(c, s, f);
    }
  }

  lemma NotReceiving(c: Config, s: State)
    requires Inv(c, s) && !s.writing.NotWriting?
    ensures !s.receiving
  {
  }

  lemma SetWriting(c: Config, s: State, writing: Writing)
    requires Inv(c, s) && !writing.Unlocked? && !s.receiving
    ensures Inv(c, s.(writing := writing))
  {
    hide Waits, ServedOnce, Ids, InOrder, Logged, Totals, Finality;
    FlagKeepsInv(c, s, s.(writing := writing));
  }

  lemma FlushNotify(c: Config, s: State, f: Outcome)
    requires Inv(c, s) && s.writing.TryLock? && s.total - f.sent < c.highWatermark
    ensures Inv(c, s.(io := Flush(s.io, f.sent), total := s.total - f.sent, services := WakeFirst(s.services), writing := Testing))
  {
    hide Flush, WakeFirst;
    var s' := s.(io := Flush(s.io, f.sent), total := s.total - f.sent, services := WakeFirst(s.services), writing := Testing);
    WakeKeeps(s, s');
    hide ServedOnce, Ids, InOrder, Logged, Totals, Finality;
    QuietKeeps(c, s, s');
  }

  lemma FlushOnly(c: Config, s: State, f: Outcome)
    requires Inv(c, s) && s.writing.TryLock? && (f.raised || s.total - f.sent >= c.highWatermark)
    ensures Inv(c, s.(io := Flush(s.io, f.sent), total := s.total - f.sent, willClose := s.willClose || f.raised, writing := Testing))
  {
    hide Flush, ServedOnce, Ids, InOrder, Logged, Finality;
    var s' := s.(io := Flush(s.io, f.sent), total := s.total - f.sent, willClose := s.willClose || f.raised, writing := Testing);
    QuietKeeps(c, s, s');
  }

  /** The flush found the client gone: the channel is closed, and notifying once more wakes nobody. */
  lemma FlushGone(c: Config, s: State, f: Outcome)
    requires c.Sound() && Inv(c, s) && s.writing.TryLock? && f.gone && !f.raised
    ensures Inv(c, TryFlushStep(c, s, true, f))
  {
    hide Flush, WakeFirst;
    var s' := TryFlushStep(c, s, true, f);
    var s1 := Closed(s.(total := if s.connected then s.total else 0));
    WakeKeeps(s.(total := if s.connected then s.total else 0), s1);
    WakeAgain(s1.services);
    hide ServedOnce, Ids, InOrder, Logged, Totals, Finality, Waits;
    GoneWaits(c, s, s');
    QuietKeeps(c, s, s');
  }

  lemma GoneWaits(c: Config, s: State, s': State)
    requires !s'.connected && forall i :: 0 <= i < |s'.services| ==> !s'.services[i].pc.Waiting?
    requires s'.total == 0
    ensures Waits(c, s') && Totals(s')
  {
  }

  lemma {:induction false} WakeAgain(v: seq<Service>)
    requires forall i :: 0 <= i < |v| ==> !v[i].pc.Waiting?
    ensures WakeFirst(v) == v
  {
    if v != [] {
      WakeAgain(v[1..]);
    }
  }

  /** A step of a thread that flushes while no request is queued: nobody is there to wait. */
  lemma AloneKeeps(c: Config, s: State, s': State)
    requires Inv(c, s) && s.requests == []
    requires s' == s.(io := s'.io, total := s'.total, willClose := s'.willClose, tail := s'.tail, writing := s'.writing,
                      connected := s'.connected)
    requires (s.willClose ==> s'.willClose) && (s'.connected ==> s.connected) && Sections(s')
    ensures Inv(c, s')
  {
    NobodyActive(s);
    hide ServedOnce, Ids, InOrder, Logged, Sections;
    QuietKeeps(c, s, s');
  }

  lemma GoneKeeps(c: Config, s: State, writing: Writing, tail: Tail, receiving: bool)
    requires Inv(c, s) && (receiving ==> s.receiving && writing.NotWriting? && tail.NoTail?)
    requires (writing == s.writing || !writing.Unlocked?) && (tail == s.tail || tail.NoTail?)
    ensures Inv(c, Closed(s).(writing := writing, tail := tail, receiving := receiving))
  {
    hide Waits, ServedOnce, Ids, InOrder, Logged;
    var s1 := s.(writing := writing, tail := tail, receiving := receiving);
    FlagKeepsInv(c, s, s1);
    ClosedKeeps(c, s1);
    QuietKeeps(c, s1, Closed(s1));
  }

  lemma FlagKeepsInv(c: Config, s: State, s': State)
    requires Inv(c, s)
    requires s' == s.(receiving := s'.receiving, willClose := s'.willClose, closeWhenFlushed := s'.closeWhenFlushed,
                      writing := s'.writing, tail := s'.tail)
    requires (s.willClose ==> s'.willClose) && (s.willClose || s.closeWhenFlushed ==> s'.willClose || s'.closeWhenFlushed)
    requires (s'.receiving ==> !s.finished) && Sections(s')
    ensures Inv(c, s')
  {
    hide Sections, Ids, Logged;
    SameActivity(s, s');
    assert SomeBegun(s') <==> SomeBegun(s);
    IdsAndLog(s, s');
  }

  lemma IdsAndLog(s: State, s': State)
    requires Ids(s) && Logged(s)
    requires s'.requests == s.requests && s'.received == s.received && s'.nextId == s.nextId && s'.pending == s.pending
    requires s'.sentContinue == s.sentContinue && s'.finished == s.finished && s'.log == s.log
    ensures Ids(s') && Logged(s')
  {
  }

  lemma MainStepKeepsInv(c: Config, s: State, e: Event)
    requires c.Sound() && Inv(c, s) && Enabled(c, s, e)
    requires e.BeginReceive? || e.EndReceive? || e.BeginWrite? || e.ChooseFlush? || e.TryFlush? || e.TestFlushed?
      || e.TestClose? || e.CloseDown? || e.LoseClient? || e.Maintain?
    ensures Inv(c, Next(c, s, e))
  {
    hide Waits, ServedOnce, Ids, InOrder, Logged, Totals, TryFlushStep;
    if e.TryFlush? {
      TryFlushKeeps(c, s, e.acquired, e.flush);
    } else if e.CloseDown? {
      GoneKeeps(c, s, NotWriting, s.tail, s.receiving);
    } else if e.LoseClient? {
      GoneKeeps(c, s, s.writing, s.tail, s.receiving);
    } else {
      FlagKeepsInv(c, s, Next(c, s, e));
    }
  }

  /** The steps of the flush without the lock. */
  lemma UnlockedKeepsInv(c: Config, s: State, e: Event)
    requires Inv(c, s) && Enabled(c, s, e) && (e.MainTurn? || e.MainFails? || e.MainGone?)
    ensures Inv(c, Next(c, s, e))
  {
    hide Waits, ServedOnce, Ids, InOrder, Logged, Totals, Turned, Spent, Overtake, CanTurn, Finality;
    if e.MainGone? {
      GoneKeeps(c, s, Testing, s.tail, s.receiving);
    } else {
      AloneKeeps(c, s, Next(c, s, e));
    }
  }

  /** The steps of a late 100 Continue. */
  lemma TailKeepsInv(c: Config, s: State, e: Event)
    requires Inv(c, s) && Enabled(c, s, e) && (e.TailLock? || e.TailTurn? || e.TailFails? || e.TailGone?)
    ensures Inv(c, Next(c, s, e))
  {
    hide Waits, ServedOnce, Ids, InOrder, Logged, Totals, Turned, Spent, Overtake, CanTurn, Finality, TailLockStep;
    if e.TailLock? {
      TailLockKeepsInv(c, s, e.raises);
    } else if e.TailGone? {
      GoneKeeps(c, s, s.writing, NoTail, s.receiving);
    } else {
      AloneKeeps(c, s, Next(c, s, e));
    }
  }

  lemma TailLockKeepsInv(c: Config, s: State, raises: bool)
    requires Inv(c, s) && Enabled(c, s, TailLock(raises))
    ensures Inv(c, Next(c, s, TailLock(raises)))
  {
    hide Waits, ServedOnce, Ids, InOrder, Logged, Totals, Finality, Accept;
    var p := s.pending.value;
    var s1 := s.(pending := Some(p.(expects := false)));
    RefreshPending(c, s, p.(expects := false));
    assert s1 == s.(pending := Some(p.(expects := false)), nextId := s.nextId);
    if raises || s.io.NoOutbuf() {
      FlagKeepsInv(c, s1, s1.(tail := NoTail));
    } else {
      LineKeepsInv(c, s1);
      AloneKeeps(c, LineSent(s1, p.id), TailLockStep(s, raises));
    }
  }

  /** A 100 Continue line goes into the log. */
  function LineSent(s: State, id: nat): State {
    s.(log := s.log + [ContinueLine(id)], sentContinue := true, tail := NoTail)
  }

  lemma LineKeepsInv(c: Config, s: State)
    requires Inv(c, s) && s.requests == [] && !s.sentContinue && s.pending.Some?
    ensures Inv(c, LineSent(s, s.pending.value.id))
  {
    var s' := LineSent(s, s.pending.value.id);
    SameActivity(s, s');
    assert SomeBegun(s') <==> SomeBegun(s);
    assert forall k :: 0 <= k < |s.log| ==> s.log[k] in s.log;
  }

  // ---------- the steps of a task ----------

  /** A worker moves on, and output and flags change with it. */
  lemma MoveKeeps(c: Config, s: State, i: nat, s': State)
    requires Inv(c, s) && WorkerMove(c, s, i, s')
    ensures SameRequests(s, s') && Waits(c, s') && Totals(s')
  {
    forall j | 0 <= j < |s.services| && j != i ensures s'.services[j] == s.services[j] && !s.services[j].Active() {
      assert s.services[i].Active();
    }
  }

  /** A piece of the current response keeps the output in order. */
  lemma PieceKeepsLog(s: State, i: nat)
    requires ServedOnce(s) && Logged(s) && At(s, i) && s.services[i].Begun()
    ensures Logged(s.(log := s.log + [Piece(s.services[i].request)]))
  {
    var log := s.log + [Piece(s.services[i].request)];
    assert forall k :: 0 <= k < |s.log| ==> s.log[k] in s.log;
    assert s.services[i].request == s.requests[0];
  }

  lemma LoggedDependsOn(s: State, s': State)
    requires Logged(s) && s'.log == s.log && s'.requests == s.requests
    requires s'.pending == s.pending && s'.nextId == s.nextId && s'.sentContinue == s.sentContinue
    ensures Logged(s')
  {
  }

  /** How a worker's step may change the state. */
  ghost predicate WorkerMove(c: Config, s: State, i: nat, s': State) {
    && At(s, i) && s.services[i].Begun()
    && |s'.services| == |s.services| && s'.services == s.services[i := s'.services[i]]
    && s'.services[i].Begun() && s'.services[i].request == s.services[i].request
    && s' == s.(services := s'.services, total := s'.total, willClose := s'.willClose, log := s'.log, io := s'.io)
    && (s.willClose ==> s'.willClose)
    && (!s.connected && Writes(s'.services[i].pc) ==> s'.total <= 0)
    && (match s'.services[i].pc
        case Waiting(w) => if s.connected then s'.total >= c.highWatermark || s'.willClose else w.exceptional && w.atEnd
        case Woken(w) => s.connected && w.exceptional ==> s'.total < c.highWatermark
        case _ => true)
    && (s'.log == s.log || s'.log == s.log + [Piece(s.services[i].request)])
  }

  lemma WorkerMoveKeeps(c: Config, s: State, i: nat, s': State)
    requires Inv(c, s) && WorkerMove(c, s, i, s')
    ensures Inv(c, s')
  {
    MoveKeeps(c, s, i, s');
    hide Waits, ServedOnce, SameRequests, Ids, InOrder, Logged, Finality, Totals;
    ShapeKeeps(s, s');
    PieceKeepsLog(s, i);
    var s1 := s.(log := s'.log);
    assert s.(log := s.log) == s;
    LoggedDependsOn(s1, s');
  }

  lemma AcceptIsMove(c: Config, s: State, i: nat, bytes: nat, after: Outcome, place: Place, swallow: bool)
    requires At(s, i) && s.services[i].Begun() && s.connected && !after.gone
    ensures WorkerMove(c, s, i, AcceptStep(c, s, i, bytes, after, place, swallow))
  {
    hide Flush, Accept;
  }

  /** Flushing and going to another place. */
  lemma FlushedMoveIsMove(c: Config, s: State, i: nat, f: Outcome, pc: Pc)
    requires At(s, i) && s.services[i].Begun() && !pc.Gone? && !pc.Starting? && !f.gone
    requires Totals(s) && (Writes(pc) ==> Writes(s.services[i].pc))
    requires match pc
      case Waiting(w) => if s.connected then s.total - f.sent >= c.highWatermark || f.raised else w.exceptional && w.atEnd
      case Woken(_) => false
      case _ => true
    ensures WorkerMove(c, s, i, Move(Flushed(s, f), i, pc))
  {
    hide Flush;
  }

  lemma MoveAfterFlush(c: Config, s: State, i: nat, f: Outcome, s': State)
    requires !f.gone && At(s, i) && WorkerMove(c, Flushed(s, f), i, s')
    ensures WorkerMove(c, s, i, s')
  {
    hide Flush;
  }

  lemma WriteLockIsMove(c: Config, s: State, e: Event)
    requires c.Sound() && Totals(s) && e.WriteLock? && Enabled(c, s, e)
    ensures WorkerMove(c, s, e.i, WriteLockStep(c, s, e.i, e))
  {
    hide WorkerMove, AcceptStep, Flush, Accept, Unread;
    var i := e.i;
    var bytes := s.services[i].pc.bytes;
    if s.total > c.highWatermark {
      assert s.connected;
      var s1 := Flushed(s, e.below);
      if e.below.raised {
        FlushedMoveIsMove(c, s, i, e.below, Waiting(Wait(bytes, true, false)));
      } else if s1.total > c.highWatermark {
        FlushedMoveIsMove(c, s, i, e.below, Waiting(Wait(bytes, false, false)));
      } else {
        AcceptIsMove(c, s1, i, bytes, e.after, e.place, e.swallow);
        MoveAfterFlush(c, s, i, e.below, AcceptStep(c, s1, i, bytes, e.after, e.place, e.swallow));
      }
    } else if s.connected {
      AcceptIsMove(c, s, i, bytes, e.after, e.place, e.swallow);
    } else {
      PlainMove(c, s, i, if e.swallow then Executing else Closing);
    }
  }

  lemma PlainMove(c: Config, s: State, i: nat, pc: Pc)
    requires At(s, i) && s.services[i].Begun() && !pc.Gone? && !pc.Starting?
    requires Totals(s) && (Writes(pc) ==> Writes(s.services[i].pc))
    requires match pc
      case Waiting(w) => if s.connected then s.total >= c.highWatermark || s.willClose else w.exceptional && w.atEnd
      case Woken(_) => false
      case _ => true
    ensures WorkerMove(c, s, i, Move(s, i, pc))
  {
  }

  lemma WorkerStepKeepsInv(c: Config, s: State, e: Event)
    requires c.Sound() && Inv(c, s) && Enabled(c, s, e)
    requires e.WriteCheck? || e.WriteLock? || e.Resume? || e.TaskEnds? || e.EndCheck? || e.EndLock? || e.EndResume?
    ensures Inv(c, Next(c, s, e))
  {
    hide Waits, ServedOnce, Ids, InOrder, Logged, Finality, WriteLockStep, AcceptStep, WorkerMove, CanFlush;
    WorkerStepIsMove(c, s, e);
    WorkerMoveKeeps(c, s, e.i, Next(c, s, e));
  }

  lemma WorkerStepIsMove(c: Config, s: State, e: Event)
    requires c.Sound() && Totals(s) && Enabled(c, s, e)
    requires e.WriteCheck? || e.WriteLock? || e.Resume? || e.TaskEnds? || e.EndCheck? || e.EndLock? || e.EndResume?
    ensures WorkerMove(c, s, e.i, Next(c, s, e))
  {
    hide WriteLockStep, AcceptStep, WorkerMove, Flush, Accept, Unread;
    match e
    case WriteCheck(i, n, swallow) =>
      PlainMove(c, s, i, if s.connected then Locking(n) else if swallow then Executing else Closing);
    case WriteLock(_, _, _, _, _) => WriteLockIsMove(c, s, e);
    case Resume(i, after, place, swallow) =>
      var w := s.services[i].pc.wait;
      if !w.exceptional && s.connected && s.total > c.highWatermark {
        PlainMove(c, s, i, Waiting(w));
      } else if s.connected {
        AcceptIsMove(c, s, i, w.bytes, after, place, swallow);
      } else {
        PlainMove(c, s, i, if swallow then Executing else Closing);
      }
    case TaskEnds(i, close) => PlainMove(c, s, i, if close then Closing else Ending);
    case EndCheck(i) =>
      PlainMove(c, s, i, if |s.requests| > 1 && s.total > c.highWatermark then EndFlushing else Keeping);
    case EndLock(i, f) => EndLockIsMove(c, s, i, f);
    case EndResume(i) =>
      var w := s.services[i].pc.wait;
      PlainMove(c, s, i, if !w.exceptional && s.connected && s.total > c.highWatermark then Waiting(w) else Keeping);
  }

  lemma EndLockIsMove(c: Config, s: State, i: nat, f: Outcome)
    requires c.Sound() && Totals(s) && Enabled(c, s, EndLock(i, f))
    ensures WorkerMove(c, s, i, EndLockStep(c, s, i, f))
  {
    hide WorkerMove, Flush, Unread;
    FlushedMoveIsMove(c, s, i, f,
      if f.raised then Waiting(Wait(0, true, true))
      else if s.connected && s.total - f.sent > c.highWatermark then Waiting(Wait(0, false, true)) else Keeping);
  }

  // ---------- steps that change the requests ----------

  lemma StillNoneActive(s: State, s': State)
    requires s'.services == s.services
    ensures SomeActive(s') <==> SomeActive(s)
    ensures SomeBegun(s') <==> SomeBegun(s)
  {
  }

  lemma TakeTaskKeepsInv(c: Config, s: State)
    requires Inv(c, s) && Enabled(c, s, TakeTask)
    ensures Inv(c, Next(c, s, TakeTask))
  {
    var s' := Next(c, s, TakeTask);
    var k := |s.services|;
    assert s'.services[k].Active();
    assert forall i :: 0 <= i < k ==> !s.services[i].Active();
    assert !SomeBegun(s) && !SomeBegun(s');
  }

  lemma StartKeepsInv(c: Config, s: State, i: nat)
    requires Inv(c, s) && Enabled(c, s, Start(i))
    ensures Inv(c, Next(c, s, Start(i)))
  {
    hide Ids, InOrder, Logged;
    var s' := StartStep(s, i);
    assert s.services[i].Active() && s'.services[i].Begun();
    assert forall j :: 0 <= j < |s.services| && j != i ==> s'.services[j] == s.services[j] && !s.services[j].Active();
    StartKeepsOrder(s, i);
    LoggedDependsOn(s, s');
  }

  lemma StartKeepsOrder(s: State, i: nat)
    requires ServedOnce(s) && Finality(s) && Ids(s) && InOrder(s)
    requires At(s, i) && s.services[i].pc.Starting? && s.requests != []
    ensures Ids(StartStep(s, i)) && InOrder(StartStep(s, i))
  {
    var s' := StartStep(s, i);
    assert s.services[i].Active() && s'.services[i].Begun();
    assert forall j :: 0 <= j < |s.services| && j != i ==> !s.services[j].Active();
    assert !SomeBegun(s) && SomeBegun(s');
    var k := |s.received| - |s.requests|;
    assert s.received[k] == s.requests[0];
    assert s.served == s.received[..k];
    assert s'.served == s.received[..k + 1];
  }

  lemma CloseKeepsInv(c: Config, s: State, i: nat)
    requires Inv(c, s) && Enabled(c, s, CloseSection(i))
    ensures Inv(c, Next(c, s, CloseSection(i)))
  {
    var s' := CloseStep(s, i);
    assert s.services[i].Begun();
    assert forall j :: 0 <= j < |s.services| && j != i ==> s'.services[j] == s.services[j] && !s.services[j].Active();
    assert !SomeActive(s') && !SomeBegun(s');
    assert s.requests[0] in s.received by {
      if !s.finished { assert s.requests[0] == s.received[|s.received| - |s.requests|]; }
    }
  }

  /** The channel moves on to the next request, or has none left. */
  lemma PopKeepsInv(c: Config, s: State, i: nat, again: bool)
    requires Inv(c, s) && At(s, i) && s.services[i].pc.Keeping? && s.requests != [] && !RequestsLocked(s)
    requires again <==> s.connected && |s.requests| > 1
    ensures Inv(c, Move(s, i, Gone).(requests := s.requests[1..], queued := s.queued + if again then 1 else 0))
  {
    var s' := Move(s, i, Gone).(requests := s.requests[1..], queued := s.queued + if again then 1 else 0);
    assert s.services[i].Begun();
    assert forall j :: 0 <= j < |s.services| && j != i ==> s'.services[j] == s.services[j] && !s.services[j].Active();
    assert !SomeActive(s') && !SomeBegun(s') && SomeActive(s);
    PopKeepsOrder(s);
  }

  lemma PopKeepsOrder(s: State)
    requires Ids(s) && !s.finished && s.requests != []
    ensures s.requests[1..] == s.received[|s.received| - |s.requests| + 1..]
    ensures s.requests[0] in s.received
    ensures |s.requests| > 1 ==> s.requests[0] < s.requests[1]
  {
    var k := |s.received| - |s.requests|;
    assert s.received[k] == s.requests[0];
    if |s.requests| > 1 {
      assert s.received[k + 1] == s.requests[1];
    }
  }

  lemma ContinueKeepsInv(c: Config, s: State, p: Pending, f: Outcome)
    requires Inv(c, s) && s.connected && s.requests == [] && s.receiving && !s.sentContinue
    requires s.pending.Some? && s.pending.value.id == p.id
    ensures Inv(c, ContinueStep(s, p, f))
  {
    hide Flush, Accept, Unread;
    hide Inv;
    var s0 := s.(pending := Some(p.(expects := false)));
    RefreshPending(c, s, p.(expects := false));
    assert s0 == s.(pending := Some(p.(expects := false)), nextId := s.nextId);
    LineKeepsInv(c, s0);
    var s1 := LineSent(s0, p.id);
    QuietTotal(c, s1, Flush(Accept(s.io, CONTINUE_BYTES, Last), f.sent), s.total + CONTINUE_BYTES - f.sent);
    var s2 := s1.(total := s.total + CONTINUE_BYTES - f.sent, io := Flush(Accept(s.io, CONTINUE_BYTES, Last), f.sent));
    NoTailThere(c, s);
    assert ContinueStep(s, p, f) == if f.gone then Closed(s2) else s2;
    if f.gone {
      GoneKeeps(c, s2, s2.writing, s2.tail, s2.receiving);
    }
  }

  lemma NoTailThere(c: Config, s: State)
    requires Inv(c, s) && s.receiving
    ensures s.tail.NoTail? && s.writing.NotWriting?
  {
  }

  /** With no request queued, nobody waits for the output to shrink. */
  lemma QuietTotal(c: Config, s: State, io: Io, total: int)
    requires Inv(c, s) && s.requests == []
    ensures Inv(c, s.(io := io, total := total))
  {
    AloneKeeps(c, s, s.(io := io, total := total));
  }

  lemma KeepKeepsInv(c: Config, s: State, i: nat)
    requires Inv(c, s) && Enabled(c, s, KeepSection(i))
    ensures Inv(c, Next(c, s, KeepSection(i)))
  {
    hide ServedOnce, Waits, Totals, Ids, InOrder, Logged, Finality;
    var again := s.connected && |s.requests| > 1;
    PopKeepsInv(c, s, i, again);
    var s1 := Move(s, i, Gone).(requests := s.requests[1..]);
    assert s.(queued := s.queued + 0) == s;
    if s.connected && s1.requests == [] && ExpectsContinue(s) {
      FlagKeepsInv(c, s1, s1.(tail := BeforeLock));
    }
  }

  lemma RefreshPending(c: Config, s: State, p: Pending)
    requires Inv(c, s)
    requires p.id == if s.pending.Some? then s.pending.value.id else s.nextId
    ensures Inv(c, s.(pending := Some(p), nextId := if s.pending.Some? then s.nextId else s.nextId + 1))
  {
    var s1 := s.(pending := Some(p), nextId := if s.pending.Some? then s.nextId else s.nextId + 1);
    StillNoneActive(s, s1);
    assert Bound(s1) == Bound(s);
  }

  /** A blank request goes away. */
  lemma DropPending(c: Config, s: State)
    requires Inv(c, s) && s.pending.Some? && s.receiving
    ensures Inv(c, s.(sentContinue := false, pending := None))
  {
    StillNoneActive(s, s.(sentContinue := false, pending := None));
  }

  lemma QueueIds(s: State)
    requires Ids(s) && InOrder(s) && s.pending.Some? && !s.finished
    ensures var s' := Queue(s, s.pending.value.id); Ids(s') && InOrder(s')
  {
    var s' := Queue(s, s.pending.value.id);
    StillNoneActive(s, s');
    assert forall k :: 0 <= k < |s.received| ==> s.received[k] in s.received;
    assert s'.requests == s'.received[|s'.received| - |s'.requests|..];
  }

  lemma QueueServed(s: State)
    requires ServedOnce(s) && s.pending.Some?
    ensures ServedOnce(Queue(s, s.pending.value.id))
  {
    var s' := Queue(s, s.pending.value.id);
    StillNoneActive(s, s');
    if s.requests == [] {
      assert forall i :: 0 <= i < |s.services| ==> !s.services[i].Active();
    } else {
      assert s'.requests[0] == s.requests[0];
    }
  }

  lemma QueueLogged(s: State)
    requires Logged(s) && Ids(s) && s.pending.Some?
    ensures Logged(Queue(s, s.pending.value.id))
  {
  }

  lemma QueuePending(c: Config, s: State)
    requires Inv(c, s) && s.pending.Some? && s.receiving
    ensures Inv(c, Queue(s, s.pending.value.id))
  {
    hide ServedOnce, Ids, InOrder, Logged;
    QueueIds(s);
    QueueServed(s);
    QueueLogged(s);
  }

  lemma ParseKeepsInv(c: Config, s: State, e: Event)
    requires Inv(c, s) && e.Parse? && Enabled(c, s, e)
    ensures Inv(c, Next(c, s, e))
  {
    hide Waits, ServedOnce, Ids, InOrder, Logged, Totals, Flush, Accept, Unread, ContinueStep, CanFlush;
    var p := Pending(if s.pending.Some? then s.pending.value.id else s.nextId, e.expects, e.headersFinished);
    var s1 := s.(pending := Some(p), nextId := if s.pending.Some? then s.nextId else s.nextId + 1);
    RefreshPending(c, s, p);
    if p.expects && p.headersFinished && s.requests == [] && !s.sentContinue {
      if !s.connected || s.io.NoOutbuf() {
        GoneKeeps(c, s1, s1.writing, s1.tail, false);
      } else {
        ContinueKeepsInv(c, s1, p, e.flush);
        var s2 := ContinueStep(s1, p, e.flush);
        GoneKeeps(c, s2, s2.writing, s2.tail, false);
      }
    } else if e.completed {
      if e.empty {
        DropPending(c, s1);
      } else {
        QueuePending(c, s1);
      }
    }
  }

  lemma StepKeepsInv(c: Config, s: State, e: Event)
    requires c.Sound() && Inv(c, s) && Enabled(c, s, e)
    ensures Inv(c, Next(c, s, e))
  {
    hide Inv, Next, Enabled;
    match e
    case Parse(_, _, _, _, _) => ParseKeepsInv(c, s, e);
    case TakeTask => TakeTaskKeepsInv(c, s);
    case Start(i) => StartKeepsInv(c, s, i);
    case CloseSection(i) => CloseKeepsInv(c, s, i);
    case KeepSection(i) => KeepKeepsInv(c, s, i);
    case MainTurn(_) => UnlockedKeepsInv(c, s, e);
    case MainFails => UnlockedKeepsInv(c, s, e);
    case MainGone => UnlockedKeepsInv(c, s, e);
    case TailLock(_) => TailKeepsInv(c, s, e);
    case TailTurn(_) => TailKeepsInv(c, s, e);
    case TailFails => TailKeepsInv(c, s, e);
    case TailGone => TailKeepsInv(c, s, e);
    case WriteCheck(_, _, _) => WorkerStepKeepsInv(c, s, e);
    case WriteLock(_, _, _, _, _) => WorkerStepKeepsInv(c, s, e);
    case Resume(_, _, _, _) => WorkerStepKeepsInv(c, s, e);
    case TaskEnds(_, _) => WorkerStepKeepsInv(c, s, e);
    case EndCheck(_) => WorkerStepKeepsInv(c, s, e);
    case EndLock(_, _) => WorkerStepKeepsInv(c, s, e);
    case EndResume(_) => WorkerStepKeepsInv(c, s, e);
    case _ => MainStepKeepsInv(c, s, e);
  }

  // ---------- every run ----------

  ghost predicate IsRun(c: Config, states: seq<State>, events: seq<Event>) {
    && |states| == |events| + 1 && states[0] == INITIAL
    && forall k :: 0 <= k < |events| ==> Enabled(c, states[k], events[k]) && states[k + 1] == Next(c, states[k], events[k])
  }

  lemma {:induction false} RunKeepsInv(c: Config, states: seq<State>, events: seq<Event>, k: nat)
    requires c.Sound() && IsRun(c, states, events) && k < |states|
    ensures Inv(c, states[k])
  {
    hide Inv, Next, Enabled;
    if k == 0 {
      InitialInv(c);
    } else {
      RunKeepsInv(c, states, events, k - 1);
      StepKeepsInv(c, states[k - 1], events[k - 1]);
    }
  }

  lemma InitialInv(c: Config)
    ensures Inv(c, INITIAL)
  {
  }

  /** At every moment of every run the channel is served at most once and by a request it has; while
      connected, a queued request is never without its task. */
  lemma ServedByOneWorker(c: Config, states: seq<State>, events: seq<Event>, k: nat)
    requires c.Sound() && IsRun(c, states, events) && k < |states|
    ensures ServedOnce(states[k])
  {
    RunKeepsInv(c, states, events, k);
  }

  /** The flush without the lock meets no task: no request is queued and no service is active. */
  lemma UnlockedFlushMeetsNoTask(c: Config, states: seq<State>, events: seq<Event>, k: nat)
    requires c.Sound() && IsRun(c, states, events) && k < |states| && states[k].writing.Unlocked?
    ensures states[k].requests == [] && !SomeActive(states[k]) && states[k].queued == 0
  {
    RunKeepsInv(c, states, events, k);
    NobodyActive(states[k]);
  }

  // ---------- blocked writers ----------

  /** `writable` */
  predicate Writable(s: State) { s.total > 0 || s.willClose || s.closeWhenFlushed }

  predicate OfMainThread(e: Event) {
    e.BeginReceive? || e.Parse? || e.EndReceive? || e.BeginWrite? || e.ChooseFlush? || e.TryFlush? || e.MainTurn?
    || e.MainFails? || e.MainGone? || e.TestFlushed? || e.TestClose? || e.CloseDown? || e.LoseClient? || e.Maintain?
  }

  /** A worker that waits un-notified is the only one about: until it is woken every step is one of the main thread. */
  lemma OnlyTheMainThreadMoves(c: Config, states: seq<State>, events: seq<Event>, k: nat, i: nat, e: Event)
    requires c.Sound() && IsRun(c, states, events) && k < |states|
    requires i < |states[k].services| && states[k].services[i].pc.Waiting? && Enabled(c, states[k], e)
    ensures OfMainThread(e)
  {
    hide Ids, InOrder, Logged, Totals, Waits, Finality, CanFlush, CanTurn;
    RunKeepsInv(c, states, events, k);
    var s := states[k];
    assert s.services[i].Active();
    assert forall j :: 0 <= j < |s.services| && j != i ==> !s.services[j].Active();
  }

  /** The steps of a `handle_write` with nobody in between, from where the main thread is. */
  ghost predicate Leads(c: Config, s: State, events: seq<Event>, s': State)
    decreases |events|
  {
    if events == [] then s' == s
    else OfMainThread(events[0]) && Enabled(c, s, events[0]) && Leads(c, Next(c, s, events[0]), events[1..], s')
  }

  lemma LeadsOn(c: Config, s: State, e: Event, events: seq<Event>, s': State)
    requires OfMainThread(e) && Enabled(c, s, e) && Leads(c, Next(c, s, e), events, s')
    ensures Leads(c, s, [e] + events, s')
  {
    assert ([e] + events)[1..] == events;
  }

  function AfterTests(s: State): State {
    var s1 := TestCloseStep(TestFlushedStep(s));
    if s1.writing.ClosingDown? then Closed(s1).(writing := NotWriting) else s1
  }

  lemma TestsLead(c: Config, s: State) returns (events: seq<Event>)
    requires s.writing.Testing? && s.tail.NoTail?
    ensures Leads(c, s, events, AfterTests(s))
  {
    hide WakeFirst;
    var s1 := TestFlushedStep(s);
    var s2 := TestCloseStep(s1);
    var s3 := AfterTests(s);
    events := [];
    assert Leads(c, s3, [], s3);
    if s2.writing.ClosingDown? {
      events := [CloseDown];
      LeadsOn(c, s2, CloseDown, [], s3);
    }
    LeadsOn(c, s1, TestClose, events, s3);
    LeadsOn(c, s, TestFlushed, [TestClose] + events, s3);
    events := [TestFlushed] + ([TestClose] + events);
  }

  /** Where a `handle_write` ends that finds requests and the lock free. */
  function AfterWrite(c: Config, s: State, f: Outcome): State {
    AfterTests(
      if s.total >= c.sendBytes then TryFlushStep(c, s.(writing := TryLock), true, f) else s.(writing := Testing))
  }

  lemma TryFlushGoesOn(c: Config, s: State, f: Outcome)
    ensures var s' := TryFlushStep(c, s, true, f); s'.writing == Testing && s'.tail == s.tail
  {
    hide WakeFirst, Flushed;
    FlushedGoesOn(s, f);
  }

  lemma FlushedGoesOn(s: State, f: Outcome)
    ensures Flushed(s, f).tail == s.tail
  {
    hide WakeFirst, Flush;
  }

  lemma WriteLeads(c: Config, s: State, f: Outcome) returns (events: seq<Event>)
    requires MainIdle(s) && s.connected && s.requests != [] && s.tail.NoTail? && CanFlush(s.io, f, true)
    ensures Leads(c, s, events, AfterWrite(c, s, f))
  {
    hide WakeFirst, AfterTests, Flush, CanFlush, Leads, TryFlushStep, TestCloseStep, TestFlushedStep;
    var s1 := BeginWriteStep(s);
    var s2 := ChooseStep(c, s1);
    if s.total >= c.sendBytes {
      var s3 := TryFlushStep(c, s2, true, f);
      TryFlushGoesOn(c, s2, f);
      assert s2 == s.(writing := TryLock);
      events := TestsLead(c, s3);
      LeadsOn(c, s2, TryFlush(true, f), events, AfterTests(s3));
      events := [TryFlush(true, f)] + events;
    } else {
      assert s2 == s.(writing := Testing);
      events := TestsLead(c, s2);
    }
    LeadsOn(c, s1, ChooseFlush, events, AfterWrite(c, s, f));
    LeadsOn(c, s, BeginWrite, [ChooseFlush] + events, AfterWrite(c, s, f));
    events := [BeginWrite] + ([ChooseFlush] + events);
  }

  /** In every run, a worker blocked and not notified on a connected channel has the main thread's
      attention: the channel is writable, and a `handle_write`, which nobody can disturb then, wakes the
      worker unless the socket would not take enough. */
  lemma BlockedWritersAreWoken(c: Config, states: seq<State>, events: seq<Event>, k: nat, i: nat, f: Outcome)
    returns (write: seq<Event>)
    requires c.Sound() && IsRun(c, states, events) && k < |states| && MainIdle(states[k]) && states[k].connected
    requires i < |states[k].services| && states[k].services[i].pc.Waiting? && CanFlush(states[k].io, f, true)
    ensures var s := states[k]; var s' := AfterWrite(c, s, f);
      Writable(s) && s.requests != [] && Leads(c, s, write, s') && WokenOrFull(c, s, i, f, s')
  {
    hide Ids, InOrder, Logged, AfterWrite, Leads, WokenOrFull;
    RunKeepsInv(c, states, events, k);
    var s := states[k];
    assert s.services[i].Active();
    write := WriteLeads(c, s, f);
    WriteWakes(c, s, i, f);
  }

  /** Worker i, which waited in s, is woken, or the flush f left the watermark or more pending. */
  predicate WokenOrFull(c: Config, s: State, i: nat, f: Outcome, s': State)
    requires i < |s.services| && s.services[i].pc.Waiting?
  {
    && i < |s'.services|
    && (s'.services[i].pc == Woken(s.services[i].pc.wait)
      || (s'.connected && !s'.willClose && !f.raised && s'.total == s.total - f.sent >= c.highWatermark))
  }

  lemma WriteWakes(c: Config, s: State, i: nat, f: Outcome)
    requires c.Sound() && ServedOnce(s) && Waits(c, s) && s.connected
    requires i < |s.services| && s.services[i].pc.Waiting? && (f.gone ==> !f.raised)
    ensures WokenOrFull(c, s, i, f, AfterWrite(c, s, f))
  {
    hide Flush, WakeFirst, AfterTests, Flushed;
    WakeOnly(s, i);
    if s.total >= c.sendBytes {
      var s1 := TryFlushStep(c, s.(writing := TryLock), true, f);
      FlushWakes(c, s.(writing := TryLock), i, f);
      TestsWake(s1, s.services[i].pc.wait, i);
      assert AfterWrite(c, s, f) == AfterTests(s1);
    } else {
      assert s.willClose;
      TestsWake(s.(writing := Testing), s.services[i].pc.wait, i);
    }
  }

  /** After the locked flush the worker is woken, or still waits with a reason. */
  lemma FlushWakes(c: Config, s: State, i: nat, f: Outcome)
    requires s.connected && i < |s.services| && s.services[i].pc.Waiting? && (f.gone ==> !f.raised)
    requires WakeFirst(s.services)[i].pc == Woken(s.services[i].pc.wait)
    ensures var s' := TryFlushStep(c, s, true, f);
      && i < |s'.services|
      && (s'.services[i].pc == Woken(s.services[i].pc.wait)
        || (s'.services == s.services && s'.connected && s'.total == s.total - f.sent
          && if f.raised then s'.willClose else s'.total >= c.highWatermark))
  {
    if f.gone {
      FlushGoneWakes(s, i, f);
      hide Flushed;
    } else {
      FlushedFields(s, f);
      RaisedCloses(s, f);
      hide Flushed;
    }
  }

  lemma FlushGoneWakes(s: State, i: nat, f: Outcome)
    requires f.gone
    ensures Flushed(s, f).services == WakeFirst(s.services)
  {
    hide Flush, WakeFirst;
  }

  lemma RaisedCloses(s: State, f: Outcome)
    ensures f.raised ==> Flushed(s, f).willClose
  {
    hide Flush, WakeFirst;
  }

  /** The rest of `handle_write` wakes it if the channel closes, and leaves it woken. */
  lemma TestsWake(s: State, w: Wait, i: nat)
    requires i < |s.services|
    requires s.services[i].pc == Woken(w) || (s.services[i].pc == Waiting(w) && WakeFirst(s.services)[i].pc == Woken(w))
    ensures var s' := AfterTests(s);
      && i < |s'.services|
      && (s'.services[i].pc == Woken(w)
        || (s.services[i].pc == Waiting(w) && !s.willClose && !s'.willClose
          && s'.connected == s.connected && s'.total == s.total))
  {
    hide WakeFirst;
  }

  /** A worker blocked inside `write_soon` is never left behind by a closed connection. */
  lemma WritersOutliveNoConnection(c: Config, states: seq<State>, events: seq<Event>, k: nat, i: nat)
    requires c.Sound() && IsRun(c, states, events) && k < |states|
    requires i < |states[k].services| && states[k].services[i].pc.Waiting? && !states[k].services[i].pc.wait.atEnd
    ensures var s := states[k];
      s.connected && s.requests != [] && (s.total >= c.highWatermark || s.willClose)
  {
    hide Ids, InOrder, Logged;
    RunKeepsInv(c, states, events, k);
    assert states[k].services[i].Active();
  }

  lemma AcceptIsBounded(c: Config, s: State, i: nat, bytes: nat, after: Outcome, place: Place, swallow: bool)
    requires At(s, i) && s.total <= c.highWatermark && 0 <= c.highWatermark
    ensures var s' := AcceptStep(c, s, i, bytes, after, place, swallow);
      s'.log == s.log || s'.total <= c.highWatermark + bytes
  {
    hide Flush, Accept;
  }

  lemma FlushedFields(s: State, f: Outcome)
    requires !f.gone
    ensures var s1 := Flushed(s, f);
      && s1.io == Flush(s.io, f.sent) && s1.total == s.total - f.sent && s1.connected == s.connected
      && s1.services == s.services && s1.log == s.log
  {
    hide Flush;
  }

  lemma WriteLockIsBounded(c: Config, s: State, e: Event)
    requires c.Sound() && e.WriteLock? && Enabled(c, s, e)
    ensures var s' := WriteLockStep(c, s, e.i, e);
      s'.log == s.log || s'.total <= c.highWatermark + s.services[e.i].pc.bytes
  {
    assert !e.below.gone;
    FlushedFields(s, e.below);
    hide AcceptStep, Flush, Flushed, Accept, Unread, CanFlush;
    var bytes := s.services[e.i].pc.bytes;
    if s.total > c.highWatermark {
      var s1 := Flushed(s, e.below);
      if s1.total <= c.highWatermark && !e.below.raised {
        AcceptIsBounded(c, s1, e.i, bytes, e.after, e.place, e.swallow);
      }
    } else {
      AcceptIsBounded(c, s, e.i, bytes, e.after, e.place, e.swallow);
    }
  }

  lemma ResumeIsBounded(c: Config, s: State, e: Event)
    requires c.Sound() && e.Resume? && Enabled(c, s, e) && Waits(c, s)
    ensures var s' := ResumeStep(c, s, e.i, e);
      s'.log == s.log || s'.total <= c.highWatermark + s.services[e.i].pc.wait.bytes
  {
    hide AcceptStep, Accept, Unread;
    var w := s.services[e.i].pc.wait;
    if s.connected && s.total <= c.highWatermark {
      AcceptIsBounded(c, s, e.i, w.bytes, e.after, e.place, e.swallow);
    }
  }

  /** After a write no more is pending than the watermark and that write. */
  lemma PendingOutputIsBounded(c: Config, states: seq<State>, events: seq<Event>, k: nat)
    requires c.Sound() && IsRun(c, states, events) && k < |events|
    requires states[k + 1].log != states[k].log
    ensures var s := states[k]; var s' := states[k + 1]; var e := events[k];
      && (e.WriteLock? ==> s'.total <= c.highWatermark + s.services[e.i].pc.bytes)
      && (e.Resume? ==> s'.total <= c.highWatermark + s.services[e.i].pc.wait.bytes)
  {
    hide Ids, InOrder, Logged, ServedOnce, WriteLockStep, ResumeStep, Waits, Totals;
    RunKeepsInv(c, states, events, k);
    if events[k].WriteLock? {
      WriteLockIsBounded(c, states[k], events[k]);
    } else if events[k].Resume? {
      ResumeIsBounded(c, states[k], events[k]);
    }
  }

  // ---------- closing, and order ----------

  /** Once a worker has closed the channel, no request is queued or served any more. */
  lemma {:induction false} ClosingIsFinal(c: Config, states: seq<State>, events: seq<Event>, j: nat, k: nat)
    requires c.Sound() && IsRun(c, states, events) && j <= k < |states|
    requires states[j].finished
    ensures var s := states[k];
      && s.finished && s.requests == [] && s.queued == 0 && !SomeActive(s)
      && s.received == states[j].received && s.served == states[j].served
  {
    hide Ids, InOrder, Logged, Waits, Next, Enabled;
    RunKeepsInv(c, states, events, k);
    if j < k {
      ClosingIsFinal(c, states, events, j, k - 1);
      RunKeepsInv(c, states, events, k - 1);
      FinishedIsFrozen(c, states[k - 1], events[k - 1]);
    }
  }

  lemma FinishedIsQuiet(c: Config, s: State, e: Event)
    requires Inv(c, s) && Enabled(c, s, e) && s.finished
    ensures (OfMainThread(e) && !e.Parse?) || e.TailLock? || e.TailTurn? || e.TailFails? || e.TailGone?
  {
    hide Ids, InOrder, Logged, Waits, Totals, CanTurn, CanFail, CanFlush;
    NobodyActive(s);
  }

  lemma FinishedIsFrozen(c: Config, s: State, e: Event)
    requires Inv(c, s) && Enabled(c, s, e) && s.finished
    ensures var s' := Next(c, s, e); s'.finished && s'.received == s.received && s'.served == s.served
  {
    FinishedIsQuiet(c, s, e);
    hide Inv, Accept, Turned, CanTurn, CanFail, Overtake, Spent, WakeFirst, CanFlush, Unread;
    if e.TryFlush? {
      FlushFreezes(c, s, e.acquired, e.flush);
    } else {
      hide TryFlushStep;
    }
  }

  lemma FlushFreezes(c: Config, s: State, acquired: bool, f: Outcome)
    ensures var s' := TryFlushStep(c, s, acquired, f);
      s'.finished == s.finished && s'.received == s.received && s'.served == s.served
  {
    hide WakeFirst, Flushed;
    FlushedFreezes(s, f);
  }

  lemma FlushedFreezes(s: State, f: Outcome)
    ensures var s' := Flushed(s, f); s'.finished == s.finished && s'.received == s.received && s'.served == s.served
  {
    hide WakeFirst, Flush;
  }

  /** Requests are served in the order they were received, and the output is in that order too: every
      response is in one piece, after at most one 100 Continue line of its own. */
  lemma ResponsesInOrder(c: Config, states: seq<State>, events: seq<Event>, k: nat)
    requires c.Sound() && IsRun(c, states, events) && k < |states|
    ensures states[k].served <= states[k].received && Increasing(states[k].received)
    ensures Sorted(states[k].log)
  {
    RunKeepsInv(c, states, events, k);
  }

  // ---------- the wait that can be forever ----------

  lemma OnlyReceiving(c: Config, s: State, e: Event, i: nat)
    requires Inv(c, s) && Enabled(c, s, e)
    requires i < |s.services| && s.services[i].pc.Waiting? && !s.connected && s.writing.NotWriting?
    ensures s.requests != [] && (e.BeginReceive? || e.Parse? || e.EndReceive?)
  {
    hide Ids, InOrder, Logged, Waits, Totals, Finality, CanTurn, CanFail, CanFlush;
    assert s.services[i].Active();
    assert forall j :: 0 <= j < |s.services| && j != i ==> !s.services[j].Active();
  }

  lemma StuckStep(c: Config, s: State, e: Event, i: nat)
    requires Inv(c, s) && Enabled(c, s, e)
    requires i < |s.services| && s.services[i].pc.Waiting? && !s.connected && s.writing.NotWriting?
    ensures var s' := Next(c, s, e);
      i < |s'.services| && s'.services[i] == s.services[i] && !s'.connected && s'.writing.NotWriting?
  {
    OnlyReceiving(c, s, e, i);
    hide Inv, ContinueStep, CanFlush;
  }

  /** Without a connection, and with the main thread out of `handle_write`, nobody wakes the worker,
      however the run goes on. */
  lemma {:induction false} StuckForever(c: Config, states: seq<State>, events: seq<Event>, j: nat, k: nat, i: nat)
    requires c.Sound() && IsRun(c, states, events) && j <= k < |states|
    requires i < |states[j].services| && states[j].services[i].pc.Waiting?
    requires !states[j].connected && states[j].writing.NotWriting?
    ensures i < |states[k].services| && states[k].services[i] == states[j].services[i]
    ensures !states[k].connected && states[k].writing.NotWriting?
  {
    hide Inv, Next, Enabled;
    if j < k {
      StuckForever(c, states, events, j, k - 1, i);
      RunKeepsInv(c, states, events, k - 1);
      StuckStep(c, states[k - 1], events[k - 1], i);
    }
  }

  /** With the main thread idle, a blocked worker can be woken exactly while the channel is connected;
      and without a connection it is one that waits, after a failed flush, at the end of a service. */
  lemma WokenOnlyWhileConnected(c: Config, states: seq<State>, events: seq<Event>, k: nat, i: nat)
    requires c.Sound() && IsRun(c, states, events) && k < |states| && MainIdle(states[k])
    requires i < |states[k].services| && states[k].services[i].pc.Waiting?
    ensures var s := states[k];
      && ((exists e :: Enabled(c, s, e) && i < |Next(c, s, e).services| && Next(c, s, e).services[i].pc.Woken?) <==> s.connected)
      && (!s.connected ==> s.services[i].pc.wait.exceptional && s.services[i].pc.wait.atEnd)
  {
    RunKeepsInv(c, states, events, k);
    var s := states[k];
    hide Ids, InOrder, Logged;
    assert s.services[i].Active();
    if s.connected {
      WakeOnly(s, i);
      assert Enabled(c, s, LoseClient) && Next(c, s, LoseClient).services[i].pc.Woken?;
    } else {
      hide Next, Enabled;
      forall e | Enabled(c, s, e) ensures i < |Next(c, s, e).services| && !Next(c, s, e).services[i].pc.Woken? {
        StuckStep(c, s, e, i);
      }
    }
  }
}
