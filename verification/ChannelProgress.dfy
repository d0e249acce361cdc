/** What a channel gets done: pending output goes out while no request is queued, a channel told to close
    once it is flushed does so, and a client that waits for a 100 Continue gets the line. */
module ChannelProgress {
  import opened Wrappers
  import opened SharedOutbufs
  import opened ChannelMachine
  import opened ChannelWire
  import Output

  // ---------- a flush that goes to its end ----------

  /** A flush that no other meets: the operations with those numbers end it without a failure. */
  ghost predicate Turns(io: Io, f: Flusher, ns: seq<nat>, io': Io, spent: nat)
    decreases |ns|
  {
    && ns != [] && CanTurn(io, f, ns[0]) && Spent(io, f) <= spent
    && var t := Turned(io, f, ns[0], false);
    match t.next
    case Going(g) => Turns(t.io, g, ns[1..], io', spent - Spent(io, f))
    case Finished => ns[1..] == [] && t.io == io' && spent == Spent(io, f)
    case Failed => false
  }

  lemma FirstTurn(io: Io, f: Flusher, ns: seq<nat>, io': Io, spent: nat)
    requires Turns(io, f, ns, io', spent)
    ensures ns != [] && CanTurn(io, f, ns[0]) && Spent(io, f) <= spent
    ensures var t := Turned(io, f, ns[0], false);
      && !t.next.Failed?
      && (t.next.Going? ==> Turns(t.io, t.next.f, ns[1..], io', spent - Spent(io, f)))
      && (t.next.Finished? ==> ns[1..] == [] && t.io == io' && spent == Spent(io, f))
  {
    hide Turned, CanTurn, Spent;
  }

  lemma TurnsOn(io: Io, f: Flusher, n: nat, ns: seq<nat>, io': Io, spent: nat)
    requires CanTurn(io, f, n) && Turned(io, f, n, false).next.Going? && Spent(io, f) <= spent
    requires Turns(Turned(io, f, n, false).io, Turned(io, f, n, false).next.f, ns, io', spent - Spent(io, f))
    ensures Turns(io, f, [n] + ns, io', spent)
  {
    hide Turned, CanTurn, Spent;
    assert ([n] + ns)[1..] == ns;
  }

  lemma LastTurn(io: Io, f: Flusher)
    requires f.Exhausted? && io.first + 1 >= |io.bufs|
    ensures Turns(io, f, [0], io, 0)
  {
    assert [0 as nat][1..] == [];
  }

  /** The front outbuf has been sent. */
  function FrontSent(io: Io): Io
    requires !io.NoOutbuf()
  {
    io.(wire := io.wire + io.bufs[io.first], bufs := io.bufs[io.first := []])
  }

  /** The front outbuf is taken whole and the socket takes all of it. */
  lemma FrontTurns(io: Io, ns: seq<nat>, io': Io, spent: nat) returns (turns: seq<nat>)
    requires !io.NoOutbuf() && |io.bufs[io.first]| <= spent
    requires Turns(FrontSent(io), Exhausted(io.first), ns, io', spent - |io.bufs[io.first]|)
    ensures Turns(io, AtTop, turns, io', spent)
  {
    hide Turns;
    var id := io.first;
    var front := io.bufs[id];
    var n := |front|;
    var io4 := FrontSent(io);
    TurnsOn(io4, Inner(id, 0), 0, ns, io', spent - n);
    turns := [0] + ns;
    if n == 0 {
      assert io.wire + front == io.wire && io.bufs[id := []] == io.bufs;
    } else {
      assert front[n..] == [] && front[..n] == front;
      TurnsOn(io.(wire := io.wire + front), Sent(id, n, n), 0, turns, io', spent);
      TurnsOn(io, Taken(id, n, front, false), n, [0] + turns, io', spent);
      TurnsOn(io, Inner(id, n), n, [n] + ([0] + turns), io', spent);
      turns := [n] + ([n] + ([0] + turns));
    }
    TurnsOn(io, AtTop, 0, turns, io', spent);
    turns := [0] + turns;
  }

  /** With a willing socket a flush sends all that is unread. */
  lemma {:induction false} AllTurns(io: Io) returns (turns: seq<nat>)
    requires !io.NoOutbuf()
    ensures Turns(io, AtTop, turns, Flush(io, |Unread(io)|), |Unread(io)|)
    decreases |io.bufs| - io.first
  {
    hide Turns, Flush, Unread;
    FlushFront(io);
    var id, n := io.first, |Unread(io)|;
    var io1 := FrontSent(io);
    var io' := Flush(io, n);
    if id + 1 < |io.bufs| {
      var io2 := io1.(first := id + 1);
      turns := AllTurns(io2);
      TurnsOn(io1, Popping(id), 0, turns, io', |Unread(io2)|);
      TurnsOn(io1, Exhausted(id), 0, [0] + turns, io', |Unread(io2)|);
      turns := [0] + ([0] + turns);
    } else {
      LastTurn(io1, Exhausted(id));
      turns := [0];
    }
    turns := FrontTurns(io, turns, io', n);
  }

  /** Flushing all is sending the front outbuf and then flushing all the others. */
  lemma FlushFront(io: Io)
    requires !io.NoOutbuf()
    ensures var front := io.bufs[io.first]; var n := |Unread(io)|;
      var io1 := FrontSent(io);
      var io2 := io1.(first := io.first + 1);
      if io.first + 1 < |io.bufs| then |Unread(io2)| == n - |front| >= 0 && Flush(io2, n - |front|) == Flush(io, n)
      else n == |front| && Flush(io, n) == io1
  {
    var front := io.bufs[io.first];
    FlatFront(io.bufs, io.first, []);
    NothingBehind(io.bufs, io.first + 1);
    hide Flat;
    assert front[|front|..] == [] && front[..|front|] == front;
  }

  // ---------- the flush of an idle channel ----------

  function MainTurns(ns: seq<nat>): seq<Event> {
    if ns == [] then [] else [MainTurn(ns[0])] + MainTurns(ns[1..])
  }

  lemma OneMainTurn(c: Config, s: State, n: nat)
    requires s.writing.Unlocked? && s.tail.NoTail? && CanTurn(s.io, s.writing.f, n)
    requires !Turned(s.io, s.writing.f, n, false).next.Failed?
    ensures var t := Turned(s.io, s.writing.f, n, false);
      && Enabled(c, s, MainTurn(n))
      && Next(c, s, MainTurn(n)) == s.(io := t.io, total := s.total - Spent(s.io, s.writing.f),
                                       writing := if t.next.Going? then Unlocked(t.next.f) else Testing)
  {
    hide Turned, CanTurn, Spent, Overtake;
  }

  /** The steps of the main thread that make those turns. */
  lemma {:induction false} MainLeads(c: Config, s: State, ns: seq<nat>, io: Io, spent: nat, more: seq<Event>, s': State)
    requires s.writing.Unlocked? && s.tail.NoTail? && Turns(s.io, s.writing.f, ns, io, spent)
    requires Leads(c, s.(io := io, total := s.total - spent, writing := Testing), more, s')
    ensures Leads(c, s, MainTurns(ns) + more, s')
    decreases |ns|
  {
    hide Leads, Turned, CanTurn, Spent, Next, Enabled, Turns;
    FirstTurn(s.io, s.writing.f, ns, io, spent);
    OneMainTurn(c, s, ns[0]);
    var t := Turned(s.io, s.writing.f, ns[0], false);
    var s1 := Next(c, s, MainTurn(ns[0]));
    if t.next.Going? {
      MainLeads(c, s1, ns[1..], io, spent - Spent(s.io, s.writing.f), more, s');
    } else {
      assert MainTurns(ns[1..]) + more == more;
    }
    assert MainTurns(ns) + more == [MainTurn(ns[0])] + (MainTurns(ns[1..]) + more);
    LeadsOn(c, s, MainTurn(ns[0]), MainTurns(ns[1..]) + more, s');
  }

  /** In every run without a race so far: while the main thread is idle, no request is queued and no late
      100 Continue is under way, one `handle_write` with a willing socket puts everything that was
      accepted on the wire; and then the channel is closed exactly if it was told to. */
  lemma IdleChannelDrains(c: Config, states: seq<State>, events: seq<Event>, k: nat) returns (write: seq<Event>, s': State)
    requires c.Sound() && IsRun(c, states, events) && k < |states|
    requires forall j :: 0 <= j < k ==> !Races(states[j], events[j])
    requires var s := states[k]; MainIdle(s) && s.connected && s.requests == [] && s.tail.NoTail?
    ensures var s := states[k];
      && Leads(c, s, write, s') && MainIdle(s') && s'.total == 0
      && s'.io.accepted == s.io.accepted && s'.io.wire == Numbers(0, s.io.accepted)
      && (s'.connected <==> !s.willClose && !s.closeWhenFlushed)
  {
    hide Inv, Leads, Enabled, Next, Races, Numbers, Unread, Flush, WakeFirst;
    var s := states[k];
    RunKeepsWire(c, states, events, k);
    var n := |Unread(s.io)|;
    FlushConserves(s.io, n);
    FlushKeeps(s.io, n);
    var s1 := s.(writing := Unlocked(AtTop));
    var s2 := s1.(io := Flush(s.io, n), total := s.total - n, writing := Testing);
    var tests := TestsLead(c, s2);
    s' := AfterTests(s2);
    var ns := AllTurns(s.io);
    MainLeads(c, s1, ns, s2.io, n, tests, s');
    BeginsWrite(c, s);
    LeadsOn(c, s, BeginWrite, MainTurns(ns) + tests, s');
    write := [BeginWrite] + (MainTurns(ns) + tests);
    var io := Flush(s.io, n);
    assert Unread(io) == [] && io.wire + [] == io.wire;
  }

  lemma BeginsWrite(c: Config, s: State)
    requires MainIdle(s) && s.connected && s.requests == []
    ensures Enabled(c, s, BeginWrite) && Next(c, s, BeginWrite) == s.(writing := Unlocked(AtTop))
  {
  }

  // ---------- closing ----------

  /** Only a worker that has closed the channel asks for it to be closed once flushed, and then no late
      100 Continue is under way. */
  ghost predicate ClosedByWorker(s: State) {
    && (s.closeWhenFlushed ==> s.finished)
    && (s.finished ==> s.tail.NoTail?)
  }

  /** Nothing that these claims speak of has changed, but that the client may have gone. */
  predicate SameStanding(s: State, s': State) {
    && s'.closeWhenFlushed == s.closeWhenFlushed && s'.finished == s.finished && s'.requests == s.requests
    && s'.pending == s.pending && s'.sentContinue == s.sentContinue && s'.tail == s.tail
    && (s'.connected ==> s.connected)
  }

  lemma ClosedLeaves(s: State)
    ensures SameStanding(s, Closed(s)) && !Closed(s).connected
    ensures Closed(s).log == s.log && Closed(s).willClose == s.willClose && Closed(s).receiving == s.receiving
  {
    hide WakeFirst;
  }

  lemma FlushedLeaves(s: State, f: Outcome)
    ensures SameStanding(s, Flushed(s, f))
  {
    hide Closed, Flush;
    ClosedLeaves(s.(io := Flush(s.io, f.sent), total := s.total - f.sent, willClose := s.willClose || f.raised));
  }

  /** The locked flush leaves the requests and the rest of a service alone. */
  lemma FlushLeaves(c: Config, s: State, acquired: bool, f: Outcome)
    ensures SameStanding(s, TryFlushStep(c, s, acquired, f))
  {
    hide WakeFirst, Flushed;
    FlushedLeaves(s, f);
  }

  predicate OfTask(e: Event) {
    e.WriteCheck? || e.WriteLock? || e.Resume? || e.TaskEnds? || e.EndCheck? || e.EndLock? || e.EndResume?
  }

  lemma TaskLeaves(c: Config, s: State, e: Event)
    requires c.Sound() && Totals(s) && Enabled(c, s, e) && OfTask(e)
    ensures SameStanding(s, Next(c, s, e))
  {
    WorkerStepIsMove(c, s, e);
    hide Next, Enabled, Totals;
  }

  /** The fields that parsing leaves alone. */
  predicate SameClosing(s: State, s': State) {
    && s'.closeWhenFlushed == s.closeWhenFlushed && s'.willClose == s.willClose
    && s'.finished == s.finished && s'.tail == s.tail
  }

  lemma ContinueLeaves(s: State, p: Pending, f: Outcome)
    ensures var s' := ContinueStep(s, p, f);
      SameClosing(s, s') && s'.requests == s.requests && s'.sentContinue && s'.log == s.log + [ContinueLine(p.id)]
  {
    hide Closed, Flush, Accept;
    ClosedLeaves(s.(log := s.log + [ContinueLine(p.id)], sentContinue := true, pending := Some(p.(expects := false)),
                    total := s.total + CONTINUE_BYTES - f.sent,
                    io := Flush(Accept(s.io, CONTINUE_BYTES, Last), f.sent)));
  }

  lemma QueueLeaves(s: State, id: nat)
    ensures SameClosing(s, Queue(s, id)) && Queue(s, id).requests != []
  {
  }

  /** A parse that finds nothing queued leaves nobody who expects a line on a connected channel: it
      accepts the line at once. */
  lemma ParseLeaves(s: State, e: Event)
    requires e.Parse?
    ensures var s' := ParseStep(s, e);
      && SameClosing(s, s')
      && (s'.connected && s'.requests == [] ==> s.requests == [] && !ExpectsContinue(s'))
      && (e.expects && e.headersFinished && s.requests == [] && !s.sentContinue && s.connected && !s.io.NoOutbuf() ==>
        s'.log == s.log + [ContinueLine(if s.pending.Some? then s.pending.value.id else s.nextId)])
      && (e.expects && e.headersFinished && s.requests == [] && !s.sentContinue ==>
        (!s.connected || s.io.NoOutbuf() || e.flush.raised ==> !s'.connected && !s'.receiving))
  {
    hide Closed, ContinueStep, Queue;
    var p := Pending(if s.pending.Some? then s.pending.value.id else s.nextId, e.expects, e.headersFinished);
    var s1 := s.(pending := Some(p), nextId := if s.pending.Some? then s.nextId else s.nextId + 1);
    var s2 := ContinueStep(s1, p, e.flush);
    ContinueLeaves(s1, p, e.flush);
    ClosedLeaves(s1.(receiving := false));
    ClosedLeaves(s2.(receiving := false));
    QueueLeaves(s1, p.id);
  }

  predicate OfTail(e: Event) { e.TailLock? || e.TailTurn? || e.TailFails? || e.TailGone? }

  /** What the end of a late 100 Continue keeps. */
  predicate SameTailStanding(s: State, s': State) {
    && s'.closeWhenFlushed == s.closeWhenFlushed && s'.finished == s.finished && s'.requests == s.requests
    && s'.willClose == s.willClose
    && (s.tail.BeforeLock? ==> !ExpectsContinue(s'))
    && (!s.tail.BeforeLock? ==> s'.pending == s.pending && s'.sentContinue == s.sentContinue)
    && (s'.connected ==> s.connected) && !s.tail.NoTail? && !s'.tail.BeforeLock?
  }

  lemma LineLeaves(s: State, raises: bool)
    requires s.pending.Some? && s.tail.BeforeLock?
    ensures SameTailStanding(s, TailLockStep(s, raises))
  {
    hide Accept, SameTailStanding;
    var s1 := s.(pending := Some(s.pending.value.(expects := false)));
    var s2 := s1.(log := s.log + [ContinueLine(s.pending.value.id)], sentContinue := true,
                  total := s.total + CONTINUE_BYTES, io := Accept(s.io, CONTINUE_BYTES, Last));
    NothingExpectedNow(s, s1.(tail := NoTail));
    NothingExpectedNow(s, s2.(tail := Flushing(AtTop)));
  }

  lemma NothingExpectedNow(s: State, s': State)
    requires s.pending.Some? && s.tail.BeforeLock? && !s'.tail.BeforeLock?
    requires s' == s.(pending := Some(s.pending.value.(expects := false)), log := s'.log, sentContinue := s'.sentContinue,
                      total := s'.total, io := s'.io, tail := s'.tail)
    ensures SameTailStanding(s, s')
  {
  }

  lemma TailTurnLeaves(s: State, n: nat)
    requires s.tail.Flushing? && CanTurn(s.io, s.tail.f, n)
    ensures SameTailStanding(s, TailTurnStep(s, n))
  {
    hide Turned, CanTurn, Overtake, Spent;
  }

  lemma TailLeaves(c: Config, s: State, e: Event)
    requires Enabled(c, s, e) && OfTail(e)
    ensures SameTailStanding(s, Next(c, s, e))
  {
    hide Closed, CanTurn, CanFail, TailTurnStep, TailLockStep;
    ClosedLeaves(s);
    if e.TailLock? {
      LineLeaves(s, e.raises);
    } else if e.TailTurn? {
      TailTurnLeaves(s, e.n);
    }
  }

  predicate SameMainStanding(s: State, s': State) {
    && s'.finished == s.finished && s'.requests == s.requests && (s'.closeWhenFlushed ==> s.closeWhenFlushed)
    && s'.pending == s.pending && s'.sentContinue == s.sentContinue && (s'.connected ==> s.connected)
    && (s'.tail.NoTail? <==> s.tail.NoTail?) && (s'.tail.BeforeLock? <==> s.tail.BeforeLock?)
  }

  lemma UnlockedLeaves(c: Config, s: State, e: Event)
    requires Enabled(c, s, e) && (e.MainTurn? || e.MainFails? || e.MainGone?)
    ensures SameMainStanding(s, Next(c, s, e))
  {
    hide Closed, Turned, CanTurn, CanFail, Overtake, Spent;
    ClosedLeaves(s);
  }

  lemma TestsLeave(c: Config, s: State, e: Event)
    requires Enabled(c, s, e)
    requires e.TestFlushed? || e.TestClose? || e.CloseDown? || e.LoseClient? || e.Maintain?
    ensures SameMainStanding(s, Next(c, s, e))
  {
    hide Closed;
    ClosedLeaves(s);
  }

  lemma BeginningsLeave(c: Config, s: State, e: Event)
    requires Enabled(c, s, e) && (e.BeginReceive? || e.EndReceive? || e.BeginWrite? || e.ChooseFlush?)
    ensures SameMainStanding(s, Next(c, s, e))
  {
  }

  /** The other steps of the main thread. */
  lemma MainLeaves(c: Config, s: State, e: Event)
    requires Enabled(c, s, e) && OfMainThread(e) && !e.TryFlush? && !e.Parse?
    ensures SameMainStanding(s, Next(c, s, e))
  {
    hide Next, Enabled, SameMainStanding;
    if e.MainTurn? || e.MainFails? || e.MainGone? {
      UnlockedLeaves(c, s, e);
    } else if e.BeginReceive? || e.EndReceive? || e.BeginWrite? || e.ChooseFlush? {
      BeginningsLeave(c, s, e);
    } else {
      TestsLeave(c, s, e);
    }
  }

  /** The steps that begin or end a service. */
  predicate OfService(e: Event) { e.TakeTask? || e.Start? || e.CloseSection? || e.KeepSection? }

  /** What those steps do to what the claims speak of. */
  predicate ServiceStanding(s: State, e: Event, s': State) {
    && s'.willClose == s.willClose
    && if e.CloseSection? then s'.finished && s'.tail == s.tail == NoTail
       else if e.KeepSection? then
         && s'.finished == s.finished && s'.closeWhenFlushed == s.closeWhenFlushed
         && s'.pending == s.pending && s'.sentContinue == s.sentContinue && s'.connected == s.connected
         && s'.tail == if s.connected && s'.requests == [] && ExpectsContinue(s) then BeforeLock else NoTail
       else SameStanding(s, s')
  }

  lemma KeepLeaves(s: State, i: nat)
    requires i < |s.services| && s.requests != [] && s.tail.NoTail?
    ensures ServiceStanding(s, KeepSection(i), KeepStep(s, i))
  {
  }

  lemma CloseLeaves(s: State, i: nat)
    requires i < |s.services| && s.tail.NoTail?
    ensures ServiceStanding(s, CloseSection(i), CloseStep(s, i))
  {
  }

  lemma StartLeaves(s: State, i: nat)
    requires i < |s.services| && s.requests != []
    ensures ServiceStanding(s, Start(i), StartStep(s, i))
  {
  }

  lemma ServiceLeaves(c: Config, s: State, e: Event)
    requires Enabled(c, s, e) && OfService(e)
    ensures ServiceStanding(s, e, Next(c, s, e))
  {
    if e.KeepSection? {
      KeepLeaves(s, e.i);
      hide KeepStep;
    } else if e.CloseSection? {
      CloseLeaves(s, e.i);
      hide CloseStep;
    } else if e.Start? {
      StartLeaves(s, e.i);
      hide StartStep;
    }
  }

  lemma NextFlushes(c: Config, s: State, e: Event)
    requires Enabled(c, s, e)
    ensures e.TryFlush? ==> Next(c, s, e) == TryFlushStep(c, s, e.acquired, e.flush)
    ensures e.Parse? ==> Next(c, s, e) == ParseStep(s, e)
  {
    hide TryFlushStep, ParseStep;
  }

  lemma StepKeepsClosed(c: Config, s: State, e: Event)
    requires c.Sound() && Inv(c, s) && Enabled(c, s, e) && ClosedByWorker(s)
    ensures ClosedByWorker(Next(c, s, e))
  {
    if s.finished {
      FinishedIsQuiet(c, s, e);
    }
    hide Inv, Next, Enabled;
    if OfTask(e) {
      TaskLeaves(c, s, e);
    } else if e.TryFlush? {
      FlushLeaves(c, s, e.acquired, e.flush);
      NextFlushes(c, s, e);
    } else if e.Parse? {
      ParseLeaves(s, e);
      NextFlushes(c, s, e);
    } else if OfMainThread(e) {
      MainLeaves(c, s, e);
    } else if OfTail(e) {
      TailLeaves(c, s, e);
    } else {
      ServiceLeaves(c, s, e);
    }
  }

  lemma {:induction false} RunKeepsClosed(c: Config, states: seq<State>, events: seq<Event>, k: nat)
    requires c.Sound() && IsRun(c, states, events) && k < |states|
    ensures ClosedByWorker(states[k])
  {
    hide Inv, Next, Enabled;
    if k > 0 {
      RunKeepsClosed(c, states, events, k - 1);
      RunKeepsInv(c, states, events, k - 1);
      StepKeepsClosed(c, states[k - 1], events[k - 1]);
    }
  }

  const CLOSING: seq<Event> := [TestFlushed, TestClose, CloseDown]

  /** The rest of a `handle_write` that finds a reason to close, and the outbuf lock free. */
  lemma ClosingLeads(c: Config, s: State)
    requires s.writing.Testing? && !s.tail.Flushing? && (s.willClose || (s.closeWhenFlushed && s.total == 0))
    ensures var s' := AfterTests(s); Leads(c, s, CLOSING, s') && !s'.connected && MainIdle(s') == !s.receiving
  {
    hide WakeFirst;
    var s1 := TestFlushedStep(s);
    var s2 := TestCloseStep(s1);
    assert Leads(c, AfterTests(s), [], AfterTests(s));
    LeadsOn(c, s2, CloseDown, [], AfterTests(s));
    LeadsOn(c, s1, TestClose, [CloseDown], AfterTests(s));
    LeadsOn(c, s, TestFlushed, [TestClose, CloseDown], AfterTests(s));
    assert [TestClose] + [CloseDown] == [TestClose, CloseDown];
    assert [TestFlushed] + [TestClose, CloseDown] == CLOSING;
  }

  /** In every run: a channel that is to be closed once flushed, with nothing pending when the main thread
      comes to look, is disconnected by the next three steps of the main thread. */
  lemma FlushedChannelCloses(c: Config, states: seq<State>, events: seq<Event>, k: nat)
    requires c.Sound() && IsRun(c, states, events) && k < |states|
    requires var s := states[k]; s.writing.Testing? && s.closeWhenFlushed && s.total == 0
    ensures var s := states[k]; var s' := AfterTests(s); Leads(c, s, CLOSING, s') && !s'.connected && MainIdle(s')
  {
    hide Inv, Leads, AfterTests;
    RunKeepsClosed(c, states, events, k);
    RunKeepsInv(c, states, events, k);
    NotReceiving(c, states[k]);
    ClosingLeads(c, states[k]);
  }

  /** The flush of `handle_write` ends in an exception. */
  predicate FlushFails(s: State, e: Event) {
    match e
    case MainFails => true
    case MainTurn(n) =>
      && s.writing.Unlocked? && CanTurn(s.io, s.writing.f, n)
      && Turned(s.io, s.writing.f, n, TailFlusher(s).Sent?).next.Failed?
    case TryFlush(acquired, f) => acquired && f.raised
    case _ => false
  }

  lemma FailureIsNoted(c: Config, s: State, e: Event)
    requires Enabled(c, s, e) && FlushFails(s, e)
    ensures Next(c, s, e).writing.Testing? && Next(c, s, e).willClose
  {
    hide WakeFirst, Turned, CanTurn, CanFail, Spent, Overtake, Flush, CanFlush;
    if e.TryFlush? {
      RaisedCloses(s, e.flush);
      hide Flushed;
    }
  }

  /** In every run: when the flush of `handle_write` has failed, the next three steps of the main thread
      disconnect the channel, unless a worker holds the outbuf lock. */
  lemma FailedFlushCloses(c: Config, states: seq<State>, events: seq<Event>, k: nat)
    requires c.Sound() && IsRun(c, states, events) && k < |events| && FlushFails(states[k], events[k])
    requires !states[k + 1].tail.Flushing?
    ensures var s := states[k + 1]; var s' := AfterTests(s); Leads(c, s, CLOSING, s') && !s'.connected && MainIdle(s')
  {
    hide Inv, Leads, AfterTests, Next, Enabled, FlushFails;
    FailureIsNoted(c, states[k], events[k]);
    RunKeepsInv(c, states, events, k + 1);
    NotReceiving(c, states[k + 1]);
    ClosingLeads(c, states[k + 1]);
  }

  /** What marks the channel for closing: the server's maintenance, a flush that raised, or nothing being
      pending on a channel that is to be closed once flushed. */
  predicate MarksForClosing(s: State, e: Event) {
    || FlushFails(s, e)
    || e.Maintain?
    || (e.TestFlushed? && s.closeWhenFlushed && s.total == 0)
    || (e.WriteLock? && (e.below.raised || e.after.raised))
    || (e.Resume? && e.after.raised)
    || (e.EndLock? && e.flush.raised)
  }

  lemma FlushMarks(s: State, f: Outcome)
    ensures Flushed(s, f).willClose == (s.willClose || f.raised)
  {
    hide Flush, WakeFirst;
  }

  lemma AcceptMarks(c: Config, s: State, i: nat, bytes: nat, after: Outcome, place: Place, swallow: bool)
    requires At(s, i)
    ensures AcceptStep(c, s, i, bytes, after, place, swallow).willClose ==> s.willClose || after.raised
  {
    hide Flushed, Accept;
    FlushMarks(Move(s, i, Executing).(total := s.total + bytes, log := s.log + [Piece(s.services[i].request)],
                                      io := Accept(s.io, bytes, place)), after);
  }

  lemma WriteLockMarks(c: Config, s: State, e: Event)
    requires e.WriteLock? && At(s, e.i) && s.services[e.i].pc.Locking? && !e.below.gone
    ensures WriteLockStep(c, s, e.i, e).willClose ==> s.willClose || e.below.raised || e.after.raised
  {
    FlushedFields(s, e.below);
    FlushMarks(s, e.below);
    hide Flushed, AcceptStep;
    var bytes := s.services[e.i].pc.bytes;
    AcceptMarks(c, Flushed(s, e.below), e.i, bytes, e.after, e.place, e.swallow);
    AcceptMarks(c, s, e.i, bytes, e.after, e.place, e.swallow);
  }

  lemma TaskMarks(c: Config, s: State, e: Event)
    requires Enabled(c, s, e) && OfTask(e) && !s.willClose && Next(c, s, e).willClose
    ensures MarksForClosing(s, e)
  {
    hide WriteLockStep, AcceptStep, Flushed, CanFlush;
    if e.WriteLock? {
      NotGone(s.io, e.below);
      WriteLockMarks(c, s, e);
    } else if e.Resume? {
      AcceptMarks(c, s, e.i, s.services[e.i].pc.wait.bytes, e.after, e.place, e.swallow);
    } else if e.EndLock? {
      FlushMarks(s, e.flush);
    }
  }

  lemma TryFlushMarks(c: Config, s: State, acquired: bool, f: Outcome)
    ensures TryFlushStep(c, s, acquired, f).willClose == (s.willClose || (acquired && f.raised))
  {
    hide WakeFirst, Flushed;
    FlushMarks(s, f);
  }

  lemma MainMarks(c: Config, s: State, e: Event)
    requires Enabled(c, s, e) && OfMainThread(e) && !s.willClose && Next(c, s, e).willClose
    ensures MarksForClosing(s, e)
  {
    hide WakeFirst, ParseStep, TryFlushStep, Turned, CanTurn, CanFail, Spent, Overtake, CanFlush;
    if e.Parse? {
      ParseLeaves(s, e);
    } else if e.TryFlush? {
      TryFlushMarks(c, s, e.acquired, e.flush);
    }
  }

  /** Maintenance and the test of a flushed channel do mark it. */
  lemma MarkIsSet(c: Config, s: State, e: Event)
    requires Enabled(c, s, e) && (e.Maintain? || e.TestFlushed?) && MarksForClosing(s, e)
    ensures Next(c, s, e).willClose
  {
  }

  /** In every run a channel is marked for closing only for a reason: in particular, a worker that closes
      it does not cut off the output that is still pending. */
  lemma {:induction false} ClosingHasAReason(c: Config, states: seq<State>, events: seq<Event>, k: nat)
    requires IsRun(c, states, events) && k < |states| && states[k].willClose
    ensures exists j :: 0 <= j < k && MarksForClosing(states[j], events[j])
  {
    hide Next, Enabled, MarksForClosing;
    assert k > 0;
    var s, e := states[k - 1], events[k - 1];
    if s.willClose {
      ClosingHasAReason(c, states, events, k - 1);
    } else if OfTask(e) {
      TaskMarks(c, s, e);
    } else if OfMainThread(e) {
      MainMarks(c, s, e);
    } else if OfTail(e) {
      TailLeaves(c, s, e);
    } else {
      ServiceLeaves(c, s, e);
    }
  }

  // ---------- a client that waits for a 100 Continue ----------

  /** While nothing is queued, whoever expects a line has a worker about to send it. */
  ghost predicate NobodyForgotten(s: State) {
    s.connected && s.requests == [] && !s.finished && ExpectsContinue(s) ==> s.tail.BeforeLock?
  }

  lemma StepForgetsNobody(c: Config, s: State, e: Event)
    requires c.Sound() && Inv(c, s) && Enabled(c, s, e) && NobodyForgotten(s)
    ensures NobodyForgotten(Next(c, s, e))
  {
    NobodyActiveThen(c, s);
    hide Inv, Next, Enabled;
    if OfTask(e) {
      TaskLeaves(c, s, e);
    } else if e.TryFlush? {
      FlushLeaves(c, s, e.acquired, e.flush);
      NextFlushes(c, s, e);
    } else if e.Parse? {
      ParseLeaves(s, e);
      NextFlushes(c, s, e);
    } else if OfMainThread(e) {
      MainLeaves(c, s, e);
    } else if OfTail(e) {
      TailLeaves(c, s, e);
    } else {
      ServiceLeaves(c, s, e);
    }
  }

  lemma NobodyActiveThen(c: Config, s: State)
    requires Inv(c, s)
    ensures s.requests == [] ==> !SomeActive(s)
    ensures s.receiving ==> s.tail.NoTail?
  {
  }

  /** In every run, a client that waits for a 100 Continue on a connected channel with nothing queued,
      and that no worker has closed, gets the line: a worker is about to take the lock and send it. */
  lemma {:induction false} ExpectingClientIsTold(c: Config, states: seq<State>, events: seq<Event>, k: nat)
    requires c.Sound() && IsRun(c, states, events) && k < |states|
    ensures NobodyForgotten(states[k])
  {
    hide Inv, Next, Enabled;
    if k > 0 {
      ExpectingClientIsTold(c, states, events, k - 1);
      RunKeepsInv(c, states, events, k - 1);
      StepForgetsNobody(c, states[k - 1], events[k - 1]);
    }
  }

  /** The line has as many bytes as the channel counts for it. */
  lemma LineLength()
    ensures |Output.CONTINUE_LINE| == CONTINUE_BYTES
  {
  }

  /** Steps of any threads, one after the other. */
  ghost predicate Path(c: Config, s: State, events: seq<Event>, s': State)
    decreases |events|
  {
    if events == [] then s' == s
    else Enabled(c, s, events[0]) && Path(c, Next(c, s, events[0]), events[1..], s')
  }

  lemma PathOn(c: Config, s: State, e: Event, events: seq<Event>, s': State)
    requires Enabled(c, s, e) && Path(c, Next(c, s, e), events, s')
    ensures Path(c, s, [e] + events, s')
  {
    hide Enabled, Next;
    assert ([e] + events)[1..] == events;
  }

  function TailTurns(ns: seq<nat>): seq<Event> {
    if ns == [] then [] else [TailTurn(ns[0])] + TailTurns(ns[1..])
  }

  lemma OneTailTurn(c: Config, s: State, n: nat)
    requires s.tail.Flushing? && !s.writing.Unlocked? && CanTurn(s.io, s.tail.f, n)
    requires !Turned(s.io, s.tail.f, n, false).next.Failed?
    ensures var t := Turned(s.io, s.tail.f, n, false);
      && Enabled(c, s, TailTurn(n))
      && Next(c, s, TailTurn(n)) == s.(io := t.io, total := s.total - Spent(s.io, s.tail.f),
                                       tail := if t.next.Going? then Flushing(t.next.f) else NoTail)
  {
    hide Turned, CanTurn, Spent, Overtake;
  }

  /** The steps of the worker that make those turns. */
  lemma {:induction false} TailLeads(c: Config, s: State, ns: seq<nat>, io: Io, spent: nat)
    requires s.tail.Flushing? && !s.writing.Unlocked? && Turns(s.io, s.tail.f, ns, io, spent)
    ensures Path(c, s, TailTurns(ns), s.(io := io, total := s.total - spent, tail := NoTail))
    decreases |ns|
  {
    hide Turned, CanTurn, Spent, Next, Enabled, Turns;
    FirstTurn(s.io, s.tail.f, ns, io, spent);
    OneTailTurn(c, s, ns[0]);
    var t := Turned(s.io, s.tail.f, ns[0], false);
    var s1 := Next(c, s, TailTurn(ns[0]));
    if t.next.Going? {
      TailLeads(c, s1, ns[1..], io, spent - Spent(s.io, s.tail.f));
    }
    PathOn(c, s, TailTurn(ns[0]), TailTurns(ns[1..]), s.(io := io, total := s.total - spent, tail := NoTail));
  }

  lemma TakesTheLock(c: Config, s: State)
    requires s.tail.BeforeLock? && s.pending.Some? && !s.io.NoOutbuf()
    ensures var p := s.pending.value;
      && Enabled(c, s, TailLock(false))
      && Next(c, s, TailLock(false)) == s.(
        pending := Some(p.(expects := false)), log := s.log + [ContinueLine(p.id)], sentContinue := true,
        total := s.total + CONTINUE_BYTES, io := Accept(s.io, CONTINUE_BYTES, Last), tail := Flushing(AtTop))
  {
    hide Accept;
  }

  /** In every run without a race so far: while the main thread is not in a flush of its own, the worker
      that is to send the line does so with a willing socket, and everything accepted is on the wire. */
  lemma LateLineGoesOut(c: Config, states: seq<State>, events: seq<Event>, k: nat) returns (send: seq<Event>, s': State)
    requires c.Sound() && IsRun(c, states, events) && k < |states|
    requires forall j :: 0 <= j < k ==> !Races(states[j], events[j])
    requires var s := states[k];
      s.connected && s.requests == [] && !s.finished && ExpectsContinue(s) && !s.writing.Unlocked?
    ensures var s := states[k]; var id := s.pending.value.id;
      && Path(c, s, send, s') && s'.tail.NoTail? && s'.connected && s'.total == 0
      && s'.log == s.log + [ContinueLine(id)] && s'.sentContinue && s'.pending == Some(s.pending.value.(expects := false))
      && s'.io.wire == Numbers(0, s.io.accepted + CONTINUE_BYTES)
  {
    hide Inv, Enabled, Next, Races, Numbers, Unread, Flush, WakeFirst, Path, Accept;
    var s := states[k];
    RunKeepsWire(c, states, events, k);
    ExpectingClientIsTold(c, states, events, k);
    AcceptKeeps(s.io, CONTINUE_BYTES, Last, 0);
    var io := Accept(s.io, CONTINUE_BYTES, Last);
    var n := |Unread(io)|;
    FlushConserves(io, n);
    FlushKeeps(io, n);
    TakesTheLock(c, s);
    var s1 := Next(c, s, TailLock(false));
    var ns := AllTurns(io);
    TailLeads(c, s1, ns, Flush(io, n), n);
    s' := s1.(io := Flush(io, n), total := s1.total - n, tail := NoTail);
    PathOn(c, s, TailLock(false), TailTurns(ns), s');
    send := [TailLock(false)] + TailTurns(ns);
    assert Unread(s'.io) == [] && s'.io.wire + [] == s'.io.wire;
  }

  // ---------- a request that goes through ----------

  const NO_FLUSH := Outcome(0, false, false)

  /** The channel is open and has nothing to do. */
  ghost predicate AtRest(c: Config, s: State) {
    && Inv(c, s) && MainIdle(s) && s.tail.NoTail? && s.connected && !s.willClose && !s.closeWhenFlushed
    && s.requests == [] && s.pending.None? && s.total <= c.highWatermark && !s.io.NoOutbuf()
  }

  /** The main thread reads a request in one piece. */
  lemma RequestArrives(c: Config, s: State, more: seq<Event>, s': State)
    requires AtRest(c, s)
    requires Path(c, s.(requests := [s.nextId], received := s.received + [s.nextId], nextId := s.nextId + 1,
                        sentContinue := false, queued := s.queued + 1), more, s')
    ensures Path(c, s, [BeginReceive, Parse(false, true, true, false, NO_FLUSH), EndReceive] + more, s')
  {
    hide Path, Inv, Accept, WakeFirst, Unread, ContinueStep;
    var parse := Parse(false, true, true, false, NO_FLUSH);
    var s1 := s.(receiving := true);
    var s2 := s1.(requests := [s.nextId], received := s.received + [s.nextId], nextId := s.nextId + 1,
                  sentContinue := false, queued := s.queued + 1);
    AcceptLeavesRoom(s.io);
    assert s.requests + [s.nextId] == [s.nextId];
    PathOn(c, s2, EndReceive, more, s');
    PathOn(c, s1, parse, [EndReceive] + more, s');
    PathOn(c, s, BeginReceive, [parse] + ([EndReceive] + more), s');
    assert [BeginReceive] + ([parse] + ([EndReceive] + more)) == [BeginReceive, parse, EndReceive] + more;
  }

  lemma AcceptLeavesRoom(io: Io)
    ensures Accept(io, CONTINUE_BYTES, Last).NoOutbuf() <==> io.NoOutbuf()
  {
    hide Numbers;
  }

  function WithService(s: State, pc: Pc, request: nat): State {
    s.(services := s.services + [Service(pc, request)])
  }

  /** A worker takes the task and comes to its first write. */
  lemma TaskBegins(c: Config, s: State, bytes: nat, more: seq<Event>, s': State)
    requires s.queued == 1 && s.connected && |s.requests| == 1 && bytes > 0
    requires Path(c, WithService(s, Locking(bytes), s.requests[0]).(queued := 0, served := s.served + [s.requests[0]]), more, s')
    ensures var k := |s.services|;
      Path(c, s, [TakeTask, Start(k), WriteCheck(k, bytes, false)] + more, s')
  {
    hide Path;
    var k, r := |s.services|, s.requests[0];
    var s1 := WithService(s, Starting, 0).(queued := 0);
    var s2 := WithService(s, Executing, r).(queued := 0, served := s.served + [r]);
    assert s1.services[k := Service(Executing, r)] == s2.services;
    assert s2.services[k := Service(Locking(bytes), r)] == s.services + [Service(Locking(bytes), r)];
    PathOn(c, s2, WriteCheck(k, bytes, false), more, s');
    PathOn(c, s1, Start(k), [WriteCheck(k, bytes, false)] + more, s');
    PathOn(c, s, TakeTask, [Start(k)] + ([WriteCheck(k, bytes, false)] + more), s');
    assert [TakeTask] + ([Start(k)] + ([WriteCheck(k, bytes, false)] + more))
      == [TakeTask, Start(k), WriteCheck(k, bytes, false)] + more;
  }

  /** The output after a write that the socket does not take anything of. */
  function Stored(c: Config, s: State, bytes: nat): Io {
    var io := Accept(s.io, bytes, Last);
    if s.total + bytes >= c.sendBytes then Flush(io, 0) else io
  }

  /** It writes a piece of the response. */
  lemma PieceIsWritten(c: Config, s: State, bytes: nat, request: nat, more: seq<Event>, s': State)
    requires s.connected && s.total <= c.highWatermark && !s.io.NoOutbuf() && s.tail.NoTail?
    requires Path(c, WithService(s, Executing, request).(
      total := s.total + bytes, log := s.log + [Piece(request)], io := Stored(c, s, bytes)), more, s')
    ensures var write := WriteLock(|s.services|, NO_FLUSH, NO_FLUSH, Last, false);
      Path(c, WithService(s, Locking(bytes), request), [write] + more, s')
  {
    hide Path, Flush, Unread, Accept, WakeFirst;
    var k := |s.services|;
    var s0 := WithService(s, Locking(bytes), request);
    AcceptHasRoom(s.io, bytes);
    assert s0.services[k := Service(Executing, request)] == s.services + [Service(Executing, request)];
    PathOn(c, s0, WriteLock(k, NO_FLUSH, NO_FLUSH, Last, false), more, s');
  }

  lemma AcceptHasRoom(io: Io, n: nat)
    ensures Accept(io, n, Last).NoOutbuf() <==> io.NoOutbuf()
  {
    hide Numbers;
  }

  /** The task ends and the worker moves on; there is no other request. */
  lemma TaskIsOver(c: Config, s: State, request: nat, more: seq<Event>, s': State)
    requires |s.requests| == 1 && s.pending.None? && !RequestsLocked(s)
    requires Path(c, WithService(s, Gone, request).(requests := []), more, s')
    ensures var k := |s.services|;
      Path(c, WithService(s, Executing, request), [TaskEnds(k, false), EndCheck(k), KeepSection(k)] + more, s')
  {
    hide Path;
    hide WithService;
    var k := |s.services|;
    var s1, s2, s3 := WithService(s, Executing, request), WithService(s, Ending, request), WithService(s, Keeping, request);
    LastMoves(s, Executing, Ending, request);
    LastMoves(s, Ending, Keeping, request);
    LastMoves(s, Keeping, Gone, request);
    assert s.requests[1..] == [];
    PathOn(c, s3, KeepSection(k), more, s');
    PathOn(c, s2, EndCheck(k), [KeepSection(k)] + more, s');
    PathOn(c, s1, TaskEnds(k, false), [EndCheck(k)] + ([KeepSection(k)] + more), s');
    assert [TaskEnds(k, false)] + ([EndCheck(k)] + ([KeepSection(k)] + more))
      == [TaskEnds(k, false), EndCheck(k), KeepSection(k)] + more;
  }

  lemma LastMoves(s: State, pc: Pc, next: Pc, request: nat)
    ensures var s1 := WithService(s, pc, request); var k := |s.services|;
      && At(s1, k) && s1.services[k] == Service(pc, request) && Move(s1, k, next) == WithService(s, next, request)
      && s1 == s.(services := s1.services)
  {
    var v := s.services + [Service(pc, request)];
    assert v[|s.services| := Service(next, request)] == s.services + [Service(next, request)];
  }

  /** From rest a request is received, gets its task, is answered by one write, and leaves the channel at
      rest again, but for its output. */
  lemma RequestGoesThrough(c: Config, s: State, bytes: nat) returns (events: seq<Event>, s': State)
    requires c.Sound() && AtRest(c, s) && bytes > 0
    ensures Path(c, s, events, s')
    ensures s'.received == s.received + [s.nextId] && s'.served == s.served + [s.nextId]
    ensures s'.log == s.log + [Piece(s.nextId)] && s'.total == s.total + bytes
    ensures s'.requests == [] && s'.queued == 0 && s'.connected && MainIdle(s') && s'.pending.None?
  {
    hide Path, Inv, WithService, Flush, Accept;
    NothingQueued(c, s);
    var id, k := s.nextId, |s.services|;
    var s1 := s.(requests := [id], received := s.received + [id], nextId := id + 1, sentContinue := false,
                 queued := s.queued + 1);
    var s2 := s1.(queued := 0, served := s.served + [id]);
    var s3 := s2.(total := s.total + bytes, log := s.log + [Piece(id)], io := Stored(c, s, bytes));
    s' := WithService(s3, Gone, id).(requests := []);
    assert Path(c, s', [], s') by { PathEnds(c, s'); }
    ServicesApart(s1, s2, s3, id, bytes);
    TaskIsOver(c, s3, id, [], s');
    events := [TaskEnds(k, false), EndCheck(k), KeepSection(k)] + [];
    PieceIsWritten(c, s2, bytes, id, events, s');
    events := [WriteLock(k, NO_FLUSH, NO_FLUSH, Last, false)] + events;
    TaskBegins(c, s1, bytes, events, s');
    events := [TakeTask, Start(k), WriteCheck(k, bytes, false)] + events;
    RequestArrives(c, s, events, s');
    events := [BeginReceive, Parse(false, true, true, false, NO_FLUSH), EndReceive] + events;
  }

  lemma PathEnds(c: Config, s: State)
    ensures Path(c, s, [], s)
  {
  }

  lemma NothingQueued(c: Config, s: State)
    requires Inv(c, s) && s.requests == []
    ensures s.queued == 0
  {
  }

  lemma ServicesApart(s1: State, s2: State, s3: State, id: nat, bytes: nat)
    requires s2 == s1.(queued := 0, served := s2.served)
    requires s3 == s2.(total := s3.total, log := s3.log, io := s3.io)
    ensures WithService(s1, Locking(bytes), id).(queued := 0, served := s2.served) == WithService(s2, Locking(bytes), id)
    ensures WithService(s2, Executing, id).(total := s3.total, log := s3.log, io := s3.io) == WithService(s3, Executing, id)
    ensures WithService(s3, Gone, id).(requests := []).requests == []
    ensures var t := WithService(s3, Gone, id);
      t == s3.(services := t.services)
  {
  }

  // ---------- a writer that goes on ----------

  /** How much is pending after a write when the socket takes whatever it is offered. */
  function LeftPending(c: Config, total: int, bytes: nat): int {
    var all := (if total > c.highWatermark then 0 else total) + bytes;
    if all >= c.sendBytes then 0 else all
  }

  /** Everything pending is sent. */
  function All(io: Io): Outcome { Outcome(|Unread(io)|, false, false) }

  lemma AllIsFlushed(io: Io)
    requires Tidy(true, io, |Unread(io)|)
    ensures CanFlush(io, All(io), false) && !io.NoOutbuf() && Tidy(true, Flush(io, |Unread(io)|), 0)
    ensures Flush(io, |Unread(io)|).accepted == io.accepted
  {
    hide Unread, Flush, Numbers;
    FlushConserves(io, |Unread(io)|);
    FlushKeeps(io, |Unread(io)|);
  }

  lemma BytesAreAccepted(io: Io, bytes: nat)
    requires Tidy(true, io, |Unread(io)|)
    ensures var io' := Accept(io, bytes, Last); Tidy(true, io', |Unread(io)| + bytes) && io'.accepted == io.accepted + bytes
  {
    hide Unread, Numbers;
    AcceptKeeps(io, bytes, Last, 0);
  }

  lemma WriteBelow(c: Config, s: State, i: nat, bytes: nat)
    requires At(s, i) && Tidy(true, s.io, s.total) && s.connected
    ensures var io := Accept(s.io, bytes, Last);
      var s' := AcceptStep(c, s, i, bytes, All(io), Last, false);
      && CanFlush(io, All(io), false)
      && s'.services == s.services[i := s.services[i].(pc := Executing)]
      && s'.log == s.log + [Piece(s.services[i].request)] && s'.connected
      && s'.total == (if s.total + bytes >= c.sendBytes then 0 else s.total + bytes)
      && s'.io.accepted == s.io.accepted + bytes && Tidy(true, s'.io, s'.total)
  {
    hide Flush, Unread, Accept, Conserved, WakeFirst;
    BytesAreAccepted(s.io, bytes);
    AllIsFlushed(s.io);
    AllIsFlushed(Accept(s.io, bytes, Last));
  }

  /** With a willing socket a write gets through at once, whatever was pending: above the watermark that
      goes out first, and what reaches send_bytes goes out too. */
  lemma WritersGetThrough(c: Config, s: State, i: nat) returns (e: Event)
    requires At(s, i) && s.services[i].pc.Locking? && s.connected && !OutbufsLocked(s)
    requires c.Sound() && Tidy(true, s.io, s.total)
    ensures Enabled(c, s, e)
    ensures var bytes := s.services[i].pc.bytes; var s' := Next(c, s, e);
      && s'.services == s.services[i := s.services[i].(pc := Executing)]
      && s'.log == s.log + [Piece(s.services[i].request)] && s'.connected
      && s'.total == LeftPending(c, s.total, bytes)
      && s'.io.accepted == s.io.accepted + bytes && Tidy(true, s'.io, s'.total)
  {
    hide Flush, Unread, Accept, Tidy, AcceptStep, CanFlush, WakeFirst;
    var bytes := s.services[i].pc.bytes;
    IsUnread(s);
    if s.total > c.highWatermark {
      AllIsFlushed(s.io);
      var s1 := s.(io := Flush(s.io, |Unread(s.io)|), total := 0);
      WriteBelow(c, s1, i, bytes);
      e := WriteLock(i, All(s.io), All(Accept(s1.io, bytes, Last)), Last, false);
      assert Flushed(s, All(s.io)) == s1;
    } else {
      WriteBelow(c, s, i, bytes);
      AllIsFlushed(s.io);
      e := WriteLock(i, All(s.io), All(Accept(s.io, bytes, Last)), Last, false);
    }
  }

  lemma IsUnread(s: State)
    requires Tidy(true, s.io, s.total)
    ensures s.total == |Unread(s.io)|
  {
  }

  /** A task that asks to close, or is interrupted because its client has gone, has its worker close the
      channel. */
  lemma ClosingTaskCloses(c: Config, s: State, i: nat, bytes: nat)
    requires At(s, i) && s.services[i].pc.Executing? && !RequestsLocked(s) && bytes > 0
    ensures var s' := CloseStep(s, i);
      && s'.finished && s'.closeWhenFlushed && s'.requests == [] && s'.willClose == s.willClose
      && Path(c, s, [TaskEnds(i, true), CloseSection(i)], s')
      && (!s.connected ==> Path(c, s, [WriteCheck(i, bytes, false), CloseSection(i)], s'))
  {
    hide Path;
    var s1, s2 := Move(s, i, Closing), CloseStep(s, i);
    assert s1.services[i := s1.services[i].(pc := Gone)] == s.services[i := s.services[i].(pc := Gone)];
    PathEnds(c, s2);
    assert CloseStep(s1, i) == s2;
    PathOn(c, s1, CloseSection(i), [], s2);
    assert [CloseSection(i)] + [] == [CloseSection(i)];
    PathOn(c, s, TaskEnds(i, true), [CloseSection(i)], s2);
    assert [TaskEnds(i, true)] + [CloseSection(i)] == [TaskEnds(i, true), CloseSection(i)];
    if !s.connected {
      PathOn(c, s, WriteCheck(i, bytes, false), [CloseSection(i)], s2);
      assert [WriteCheck(i, bytes, false)] + [CloseSection(i)] == [WriteCheck(i, bytes, false), CloseSection(i)];
    }
  }

  /** A woken writer that finds the output below the watermark, or does not look, has its bytes accepted. */
  lemma WokenWriterGoesOn(c: Config, s: State, i: nat)
    requires i < |s.services| && s.services[i].pc.Woken? && !s.services[i].pc.wait.atEnd
    requires s.connected && !OutbufsLocked(s) && !s.io.NoOutbuf()
    requires s.services[i].pc.wait.exceptional || s.total <= c.highWatermark
    ensures var e := Resume(i, NO_FLUSH, Last, false); var w := s.services[i].pc.wait;
      && Enabled(c, s, e)
      && var s' := Next(c, s, e);
        && s'.services == s.services[i := s.services[i].(pc := Executing)] && s'.total == s.total + w.bytes
        && s'.log == s.log + [Piece(s.services[i].request)] && s'.connected
  {
    hide Flush, Unread, Accept, WakeFirst;
    AcceptHasRoom(s.io, s.services[i].pc.wait.bytes);
  }

  /** Service i moves on only below the watermark when another request is queued. */
  predicate MovesOnBelow(c: Config, s: State, i: nat) {
    At(s, i) && (s.services[i].pc.Keeping? && s.connected && |s.requests| > 1 ==> s.total <= c.highWatermark)
  }

  lemma EndCheckWaits(c: Config, s: State, i: nat)
    requires At(s, i)
    ensures MovesOnBelow(c, Move(s, i, if |s.requests| > 1 && s.total > c.highWatermark then EndFlushing else Keeping), i)
  {
  }

  lemma EndLockWaits(c: Config, s: State, i: nat, f: Outcome)
    requires At(s, i) && !f.gone
    ensures MovesOnBelow(c, EndLockStep(c, s, i, f), i)
  {
    FlushedFields(s, f);
    hide Flushed;
  }

  lemma EndResumeWaits(c: Config, s: State, i: nat)
    requires At(s, i) && s.services[i].pc.Woken? && !s.services[i].pc.wait.exceptional
    ensures MovesOnBelow(c, EndResumeStep(c, s, i), i)
  {
  }

  /** In every run: a service that ends while another request is queued moves on only with at most the
      watermark pending, unless it was woken from the wait after a flush that failed. */
  lemma NextRequestWaits(c: Config, states: seq<State>, events: seq<Event>, k: nat)
    requires IsRun(c, states, events) && k < |events|
    requires events[k].EndCheck? || events[k].EndLock? || events[k].EndResume?
    ensures var s := states[k]; var i := events[k].i;
      MovesOnBelow(c, states[k + 1], i)
      || (At(s, i) && s.services[i].pc.Woken? && s.services[i].pc.wait.exceptional)
  {
    hide EndLockStep, EndResumeStep, Move, MovesOnBelow, Unread;
    var s, e := states[k], events[k];
    EndCheckWaits(c, s, e.i);
    if e.EndLock? {
      EndLockWaits(c, s, e.i, e.flush);
    } else if e.EndResume? && !s.services[e.i].pc.wait.exceptional {
      EndResumeWaits(c, s, e.i);
    }
  }
}
