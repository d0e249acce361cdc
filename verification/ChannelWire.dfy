/** What the runs of the channel do to its output: when every accepted byte goes to the wire once and in
    order, and the exact way in which that can fail. */
module ChannelWire {
  import opened Wrappers
  import opened SharedOutbufs
  import opened ChannelMachine

  /** The output is conserved, bytes sent and not yet skipped being in flight. */
  predicate Whole(s: State) {
    Conserved(s.io, Inflight(MainFlusher(s)) + Inflight(TailFlusher(s)))
  }

  /** The two flushes that can meet are that of `handle_write` without the lock and that of a worker with
      a late 100 Continue. The step is a race when one of them sends bytes that the other has sent since
      they were taken, or pops an outbuf that is the last or not exhausted. */
  predicate Races(s: State, e: Event) {
    s.connected &&
    match e
    case MainTurn(n) => Misstep(s.io, MainFlusher(s), n)
    case TailTurn(n) => Misstep(s.io, TailFlusher(s), n)
    case _ => false
  }

  ghost predicate WireInv(s: State) {
    s.connected ==> Sound(s.io, MainFlusher(s), TailFlusher(s)) && s.total == |Unread(s.io)|
  }

  // ---------- steps under the lock ----------

  ghost predicate NoFlusher(s: State) { !s.writing.Unlocked? && !s.tail.Flushing? }

  /** Output and connection as one value. */
  ghost predicate Tidy(connected: bool, io: Io, total: int) {
    connected ==> Conserved(io, 0) && PoppedAreEmpty(io) && total == |Unread(io)|
  }

  lemma TidyIs(s: State)
    requires NoFlusher(s)
    ensures WireInv(s) <==> Tidy(s.connected, s.io, s.total)
  {
  }

  lemma FlushTidy(s: State, f: Outcome, doClose: bool)
    requires Tidy(s.connected, s.io, s.total) && CanFlush(s.io, f, doClose)
    ensures var s' := Flushed(s, f); Tidy(s'.connected, s'.io, s'.total)
  {
    hide Flush, Unread, Conserved, WakeFirst;
    if s.connected {
      FlushConserves(s.io, f.sent);
    }
  }

  lemma AcceptTidy(c: Config, s: State, i: nat, bytes: nat, after: Outcome, place: Place, swallow: bool)
    requires At(s, i) && Tidy(s.connected, s.io, s.total) && CanFlush(Accept(s.io, bytes, place), after, false)
    ensures var s' := AcceptStep(c, s, i, bytes, after, place, swallow);
      Tidy(s'.connected, s'.io, s'.total)
  {
    hide Flush, Unread, Conserved, Accept, WakeFirst;
    if s.connected {
      AcceptKeeps(s.io, bytes, place, 0);
      FlushConserves(Accept(s.io, bytes, place), after.sent);
    }
  }

  lemma WriteLockTidy(c: Config, s: State, e: Event)
    requires e.WriteLock? && Enabled(c, s, e) && Tidy(s.connected, s.io, s.total)
    ensures var s' := WriteLockStep(c, s, e.i, e); Tidy(s'.connected, s'.io, s'.total)
  {
    NotGone(s.io, e.below);
    FlushedFields(s, e.below);
    hide Tidy, AcceptStep, CanFlush, Accept, Flush, Flushed, Unread;
    var bytes := s.services[e.i].pc.bytes;
    if s.total > c.highWatermark {
      var s1 := Flushed(s, e.below);
      FlushTidy(s, e.below, false);
      if !e.below.raised && s1.connected && s1.total <= c.highWatermark {
        AcceptTidy(c, s1, e.i, bytes, e.after, e.place, e.swallow);
      }
    } else if s.connected {
      AcceptTidy(c, s, e.i, bytes, e.after, e.place, e.swallow);
    }
  }

  lemma NotGone(io: Io, f: Outcome)
    requires CanFlush(io, f, false)
    ensures !f.gone
  {
  }

  lemma ResumeTidy(c: Config, s: State, e: Event)
    requires e.Resume? && Enabled(c, s, e) && Tidy(s.connected, s.io, s.total)
    ensures var s' := ResumeStep(c, s, e.i, e); Tidy(s'.connected, s'.io, s'.total)
  {
    hide Tidy, AcceptStep, CanFlush, Accept, Flush, Unread;
    var w := s.services[e.i].pc.wait;
    if s.connected && (w.exceptional || s.total <= c.highWatermark) {
      AcceptTidy(c, s, e.i, w.bytes, e.after, e.place, e.swallow);
    }
  }

  lemma ContinueTidy(s: State, p: Pending, f: Outcome)
    requires s.connected && Tidy(true, s.io, s.total) && CanFlush(Accept(s.io, CONTINUE_BYTES, Last), f, true)
    ensures var s' := ContinueStep(s, p, f); Tidy(s'.connected, s'.io, s'.total)
  {
    hide Flush, Unread, Conserved, Accept, WakeFirst;
    AcceptKeeps(s.io, CONTINUE_BYTES, Last, 0);
    FlushConserves(Accept(s.io, CONTINUE_BYTES, Last), f.sent);
  }

  /** Inside a task no other thread flushes. */
  lemma NoFlusherAbout(c: Config, s: State, i: nat)
    requires Inv(c, s) && At(s, i) && s.services[i].Active()
    ensures NoFlusher(s) && s.tail.NoTail?
  {
    hide Ids, InOrder, Logged, Waits, Totals;
  }

  lemma EndLockTidy(c: Config, s: State, i: nat, f: Outcome)
    requires Enabled(c, s, EndLock(i, f)) && Tidy(s.connected, s.io, s.total)
    ensures var s' := EndLockStep(c, s, i, f); Tidy(s'.connected, s'.io, s'.total)
  {
    hide Tidy, CanFlush, Flush, Unread, WakeFirst;
    FlushTidy(s, f, false);
  }

  lemma WorkerWire(c: Config, s: State, e: Event)
    requires c.Sound() && Inv(c, s) && WireInv(s) && Enabled(c, s, e)
    requires e.WriteCheck? || e.WriteLock? || e.Resume? || e.TaskEnds? || e.EndCheck? || e.EndLock? || e.EndResume?
    ensures WireInv(Next(c, s, e))
  {
    WorkerStepIsMove(c, s, e);
    hide Inv, Tidy, WireInv, Next, Enabled, CanFlush;
    var s' := Next(c, s, e);
    ActiveWorker(c, s, e);
    NoFlusherAbout(c, s, e.i);
    TidyIs(s);
    TidyIs(s');
    WorkerTidy(c, s, e);
  }

  lemma ActiveWorker(c: Config, s: State, e: Event)
    requires Enabled(c, s, e)
    requires e.WriteCheck? || e.WriteLock? || e.Resume? || e.TaskEnds? || e.EndCheck? || e.EndLock? || e.EndResume?
    ensures At(s, e.i) && s.services[e.i].Active()
  {
  }

  lemma WorkerTidy(c: Config, s: State, e: Event)
    requires Enabled(c, s, e) && Tidy(s.connected, s.io, s.total)
    requires e.WriteCheck? || e.WriteLock? || e.Resume? || e.TaskEnds? || e.EndCheck? || e.EndLock? || e.EndResume?
    ensures var s' := Next(c, s, e); Tidy(s'.connected, s'.io, s'.total)
  {
    hide Tidy, CanFlush, WriteLockStep, ResumeStep, EndLockStep, Accept, Flush, Unread;
    if e.WriteLock? {
      WriteLockTidy(c, s, e);
    } else if e.Resume? {
      ResumeTidy(c, s, e);
    } else if e.EndLock? {
      EndLockTidy(c, s, e.i, e.flush);
    }
  }

  // ---------- steps of the main thread and of a late 100 Continue ----------

  /** Nothing that the claim speaks of has changed. */
  lemma SameWire(s: State, s': State)
    requires WireInv(s) && s'.io == s.io && s'.total == s.total && (s'.connected ==> s.connected)
    requires MainFlusher(s') == MainFlusher(s) && TailFlusher(s') == TailFlusher(s)
    ensures WireInv(s')
  {
  }

  lemma TryFlushWire(c: Config, s: State, acquired: bool, f: Outcome)
    requires WireInv(s) && Enabled(c, s, TryFlush(acquired, f))
    ensures WireInv(TryFlushStep(c, s, acquired, f))
  {
    hide WireInv, Tidy, TryFlushStep, Flushed, CanFlush;
    var s' := TryFlushStep(c, s, acquired, f);
    if acquired {
      TryFlushGoesOn(c, s, f);
      TryFlushIo(c, s, f);
      TidyIs(s);
      FlushTidy(s, f, true);
      TidyIs(s');
    } else {
      assert s' == s.(writing := Testing) by { NotAcquired(c, s, f); }
      SameWire(s, s');
    }
  }

  lemma NotAcquired(c: Config, s: State, f: Outcome)
    ensures TryFlushStep(c, s, false, f) == s.(writing := Testing)
  {
  }

  lemma TryFlushIo(c: Config, s: State, f: Outcome)
    ensures var s' := TryFlushStep(c, s, true, f); var s1 := Flushed(s, f);
      s'.io == s1.io && s'.total == s1.total && s'.connected == s1.connected
  {
    hide Flushed, WakeFirst;
  }

  lemma ParseWire(c: Config, s: State, e: Event)
    requires Inv(c, s) && WireInv(s) && e.Parse? && Enabled(c, s, e)
    ensures WireInv(ParseStep(s, e))
  {
    NoTailThere(c, s);
    hide Inv, Sound, Flush, Accept, Unread, Conserved, WakeFirst, CanFlush;
    var p := Pending(if s.pending.Some? then s.pending.value.id else s.nextId, e.expects, e.headersFinished);
    var s1 := s.(pending := Some(p), nextId := if s.pending.Some? then s.nextId else s.nextId + 1);
    if p.expects && p.headersFinished && s.requests == [] && !s.sentContinue && s.connected && !s.io.NoOutbuf() {
      TidyIs(s);
      ContinueTidy(s1, p, e.flush);
      hide Tidy;
      var s2 := ContinueStep(s1, p, e.flush);
      TidyIs(s2);
    }
  }

  lemma MainTurnWire(s: State, n: nat)
    requires WireInv(s) && s.writing.Unlocked? && CanTurn(s.io, s.writing.f, n) && !Races(s, MainTurn(n))
    ensures WireInv(MainTurnStep(s, n))
  {
    hide Sound, Turned, Unread, Misstep, CanTurn, Spent;
    if s.connected {
      TurnKeeps(s.io, MainFlusher(s), TailFlusher(s), n);
    }
  }

  lemma TailTurnWire(s: State, n: nat)
    requires WireInv(s) && s.tail.Flushing? && CanTurn(s.io, s.tail.f, n) && !Races(s, TailTurn(n))
    ensures WireInv(TailTurnStep(s, n))
  {
    hide Turned, Unread, Misstep, CanTurn, Spent, Fits, Conserved;
    if s.connected {
      TurnKeeps(s.io, TailFlusher(s), MainFlusher(s), n);
    }
  }

  /** A flush that fails has nothing in flight. */
  lemma FailLeavesNothing(io: Io, f: Flusher, g: Flusher)
    requires Sound(io, f, g) && CanFail(io, f, true)
    ensures Sound(io, AtTop, g) && Sound(io, g, AtTop)
  {
    hide Conserved;
  }

  lemma FailWire(s: State, s': State)
    requires WireInv(s) && s'.io == s.io && s'.total == s.total && s'.connected == s.connected
    requires
      || (s.writing.Unlocked? && CanFail(s.io, s.writing.f, s.connected) && !s'.writing.Unlocked? && s'.tail == s.tail)
      || (s.tail.Flushing? && CanFail(s.io, s.tail.f, s.connected) && !s'.tail.Flushing? && s'.writing == s.writing)
    ensures WireInv(s')
  {
    hide CanFail, Fits, Conserved, Unread;
    if s.connected {
      if s.writing.Unlocked? && !s'.writing.Unlocked? {
        FailLeavesNothing(s.io, MainFlusher(s), TailFlusher(s));
      } else {
        FailLeavesNothing(s.io, TailFlusher(s), MainFlusher(s));
      }
    }
  }

  lemma TailLockWire(s: State, raises: bool)
    requires WireInv(s) && s.tail.BeforeLock? && s.pending.Some?
    ensures WireInv(TailLockStep(s, raises))
  {
    if s.connected && !raises && !s.io.NoOutbuf() {
      AcceptSound(s.io, CONTINUE_BYTES, MainFlusher(s));
    }
    hide Sound, Accept, Unread;
  }

  lemma AcceptSound(io: Io, n: nat, f: Flusher)
    requires Sound(io, f, AtTop)
    ensures var io' := Accept(io, n, Last); Sound(io', f, AtTop) && |Unread(io')| == |Unread(io)| + n
  {
    hide Conserved, Unread, Accept;
    AcceptKeeps(io, n, Last, Inflight(f));
  }

  lemma TailWire(c: Config, s: State, e: Event)
    requires WireInv(s) && Enabled(c, s, e) && !Races(s, e)
    requires e.MainTurn? || e.MainFails? || e.MainGone? || e.TailLock? || e.TailTurn? || e.TailFails? || e.TailGone?
    ensures WireInv(Next(c, s, e))
  {
    hide WireInv, Races, MainTurnStep, TailTurnStep, TailLockStep, CanTurn, CanFail, WakeFirst;
    if e.MainTurn? {
      MainTurnWire(s, e.n);
    } else if e.TailTurn? {
      TailTurnWire(s, e.n);
    } else if e.TailLock? {
      TailLockWire(s, e.raises);
    } else if e.MainFails? || e.TailFails? {
      FailWire(s, Next(c, s, e));
    } else {
      ClosedWire(Next(c, s, e));
    }
  }

  lemma ClosedWire(s: State)
    requires !s.connected
    ensures WireInv(s)
  {
  }

  lemma QuietWire(c: Config, s: State, e: Event)
    requires WireInv(s) && Enabled(c, s, e)
    requires e.BeginReceive? || e.EndReceive? || e.BeginWrite? || e.ChooseFlush? || e.TestFlushed? || e.TestClose?
      || e.CloseDown? || e.LoseClient? || e.Maintain? || e.TakeTask? || e.Start? || e.CloseSection? || e.KeepSection?
    ensures WireInv(Next(c, s, e))
  {
    hide WireInv, WakeFirst;
    var s' := Next(c, s, e);
    if s'.connected {
      SameWire(s, s');
    } else {
      ClosedWire(s');
    }
  }

  /** A step that is no race keeps the output whole. */
  lemma StepKeepsWire(c: Config, s: State, e: Event)
    requires c.Sound() && Inv(c, s) && WireInv(s) && Enabled(c, s, e) && !Races(s, e)
    ensures WireInv(Next(c, s, e))
  {
    hide Inv, WireInv, Enabled, Races;
    match e
    case Parse(_, _, _, _, _) => ParseWire(c, s, e);
    case TryFlush(acquired, f) => TryFlushWire(c, s, acquired, f);
    case MainTurn(_) => TailWire(c, s, e);
    case MainFails => TailWire(c, s, e);
    case MainGone => TailWire(c, s, e);
    case TailLock(_) => TailWire(c, s, e);
    case TailTurn(_) => TailWire(c, s, e);
    case TailFails => TailWire(c, s, e);
    case TailGone => TailWire(c, s, e);
    case WriteCheck(_, _, _) => WorkerWire(c, s, e);
    case WriteLock(_, _, _, _, _) => WorkerWire(c, s, e);
    case Resume(_, _, _, _) => WorkerWire(c, s, e);
    case TaskEnds(_, _) => WorkerWire(c, s, e);
    case EndCheck(_) => WorkerWire(c, s, e);
    case EndLock(_, _) => WorkerWire(c, s, e);
    case EndResume(_) => WorkerWire(c, s, e);
    case _ => QuietWire(c, s, e);
  }

  /** A race leaves the output broken. */
  lemma RaceBreaks(c: Config, s: State, e: Event)
    requires WireInv(s) && Enabled(c, s, e) && Races(s, e)
    ensures !Whole(Next(c, s, e))
  {
    hide Turned, Unread, Misstep, CanTurn, Spent, Fits, Conserved;
    if e.MainTurn? {
      MisstepBreaks(s.io, MainFlusher(s), TailFlusher(s), e.n);
    } else {
      MisstepBreaks(s.io, TailFlusher(s), MainFlusher(s), e.n);
    }
  }

  // ---------- every run ----------

  lemma {:induction false} ConnectedBefore(c: Config, states: seq<State>, events: seq<Event>, j: nat, k: nat)
    requires c.Sound() && IsRun(c, states, events) && j <= k < |states| && states[k].connected
    ensures states[j].connected
    decreases k - j
  {
    hide Inv, Enabled, Next;
    if j < k {
      ConnectedBefore(c, states, events, j + 1, k);
      RunKeepsInv(c, states, events, j);
      NeverReconnected(c, states[j], events[j]);
    }
  }

  lemma NeverReconnected(c: Config, s: State, e: Event)
    requires c.Sound() && Inv(c, s) && Enabled(c, s, e)
    ensures Next(c, s, e).connected ==> s.connected
  {
    if e.WriteCheck? || e.WriteLock? || e.Resume? || e.TaskEnds? || e.EndCheck? || e.EndLock? || e.EndResume? {
      WorkerStepIsMove(c, s, e);
      hide Inv, Next, Enabled;
    } else if e.TryFlush? {
      hide Inv;
      FlushNeverReconnects(c, s, e.acquired, e.flush);
    } else if e.Parse? {
      hide Inv;
      ParseNeverReconnects(s, e);
    } else {
      hide Inv;
      OthersNeverReconnect(c, s, e);
    }
  }

  lemma FlushNeverReconnects(c: Config, s: State, acquired: bool, f: Outcome)
    ensures TryFlushStep(c, s, acquired, f).connected ==> s.connected
  {
    if acquired {
      TryFlushIo(c, s, f);
      hide TryFlushStep, WakeFirst, Flush;
    } else {
      NotAcquired(c, s, f);
    }
  }

  lemma ParseNeverReconnects(s: State, e: Event)
    requires e.Parse?
    ensures ParseStep(s, e).connected ==> s.connected
  {
    hide WakeFirst, Flush, Accept, Unread;
  }

  lemma OthersNeverReconnect(c: Config, s: State, e: Event)
    requires Enabled(c, s, e) && !e.TryFlush? && !e.Parse?
    requires !e.WriteCheck? && !e.WriteLock? && !e.Resume? && !e.TaskEnds? && !e.EndCheck? && !e.EndLock? && !e.EndResume?
    ensures Next(c, s, e).connected ==> s.connected
  {
    hide WakeFirst, Accept, Turned, CanTurn, CanFail, Spent, Overtake;
  }

  lemma {:induction false} RunKeepsWire(c: Config, states: seq<State>, events: seq<Event>, k: nat)
    requires c.Sound() && IsRun(c, states, events) && k < |states|
    requires forall j :: 0 <= j < k ==> !Races(states[j], events[j])
    ensures WireInv(states[k])
  {
    hide Inv, WireInv, Enabled, Next, Races;
    if k == 0 {
      InitialWire();
    } else {
      RunKeepsWire(c, states, events, k - 1);
      RunKeepsInv(c, states, events, k - 1);
      StepKeepsWire(c, states[k - 1], events[k - 1]);
    }
  }

  lemma InitialWire()
    ensures WireInv(INITIAL) && AloneInv(INITIAL)
  {
  }

  lemma {:induction false} FirstRace(c: Config, states: seq<State>, events: seq<Event>, k: nat) returns (j: nat)
    requires c.Sound() && IsRun(c, states, events) && k < |states|
    requires exists j :: 0 <= j < k && Races(states[j], events[j])
    ensures j < k && Races(states[j], events[j]) && forall i :: 0 <= i < j ==> !Races(states[i], events[i])
    decreases k
  {
    hide Races, Enabled, Next;
    if exists j :: 0 <= j < k - 1 && Races(states[j], events[j]) {
      j := FirstRace(c, states, events, k - 1);
    } else {
      j := k - 1;
    }
  }

  /** In every run, as long as the client is there: the bytes on the wire and the unread ones are the
      accepted ones, each once and in order, at every moment so far, if and only if no step so far was a race. */
  lemma WholeExactlyWithoutRace(c: Config, states: seq<State>, events: seq<Event>, k: nat)
    requires c.Sound() && IsRun(c, states, events) && k < |states| && states[k].connected
    ensures (forall j :: 0 <= j <= k ==> Whole(states[j])) <==> (forall j :: 0 <= j < k ==> !Races(states[j], events[j]))
  {
    hide Races, Whole, WireInv, Inv, Enabled, Next;
    if exists j :: 0 <= j < k && Races(states[j], events[j]) {
      var j := FirstRace(c, states, events, k);
      RunKeepsWire(c, states, events, j);
      RaceBreaks(c, states[j], events[j]);
      assert !Whole(states[j + 1]);
    } else {
      forall j | 0 <= j <= k ensures Whole(states[j]) {
        ConnectedBefore(c, states, events, j, k);
        RunKeepsWire(c, states, events, j);
        WireIsWhole(states[j]);
      }
    }
  }

  lemma WireIsWhole(s: State)
    requires WireInv(s) && s.connected
    ensures Whole(s) && s.total == |Unread(s.io)|
  {
  }

  // ---------- a condition on the threads alone ----------

  /** The two flushes are under way at the same time. */
  predicate Overlap(s: State) { s.writing.Unlocked? && s.tail.Flushing? }

  ghost predicate AloneInv(s: State) {
    s.connected ==> Alone(s.io, MainFlusher(s)) && Alone(s.io, TailFlusher(s))
  }

  lemma TurnAlone(c: Config, s: State, e: Event)
    requires WireInv(s) && AloneInv(s) && !Overlap(s) && Enabled(c, s, e) && (e.MainTurn? || e.TailTurn?)
    ensures !Races(s, e) && AloneInv(Next(c, s, e))
  {
    hide Sound, Turned, Misstep, CanTurn, Spent, Unread, Alone;
    if s.connected {
      AtTopIsAlone(s.io);
      if e.MainTurn? {
        AloneIsSafe(s.io, MainFlusher(s), e.n);
        AtTopIsAlone(Next(c, s, e).io);
      } else {
        SoundSwap(s.io, MainFlusher(s), TailFlusher(s));
        AloneIsSafe(s.io, TailFlusher(s), e.n);
        AtTopIsAlone(Next(c, s, e).io);
      }
    }
  }

  lemma AtTopIsAlone(io: Io)
    ensures Alone(io, AtTop)
  {
  }

  lemma SoundSwap(io: Io, f: Flusher, g: Flusher)
    requires Sound(io, f, g)
    ensures Sound(io, g, f)
  {
    hide Conserved, Fits;
  }

  /** Only the flushers themselves, and steps that meet none, touch the output. */
  lemma OthersAlone(c: Config, s: State, e: Event)
    requires c.Sound() && Inv(c, s) && AloneInv(s) && Enabled(c, s, e) && !Overlap(Next(c, s, e))
    requires !e.MainTurn? && !e.TailTurn?
    ensures AloneInv(Next(c, s, e))
  {
    var s' := Next(c, s, e);
    AtTopIsAlone(s'.io);
    if e.WriteCheck? || e.WriteLock? || e.Resume? || e.TaskEnds? || e.EndCheck? || e.EndLock? || e.EndResume? {
      WorkerStepIsMove(c, s, e);
      hide Inv, Alone, Next, Enabled;
      ActiveWorker(c, s, e);
      NoFlusherAbout(c, s, e.i);
    } else if e.Parse? {
      ParseMeetsNone(c, s, e);
      hide Alone, Next, Enabled, Inv;
    } else if e.TryFlush? {
      TryFlushAlone(c, s, e.acquired, e.flush);
    } else {
      IdleAlone(c, s, e);
    }
  }

  lemma TryFlushAlone(c: Config, s: State, acquired: bool, f: Outcome)
    requires AloneInv(s) && Enabled(c, s, TryFlush(acquired, f))
    ensures AloneInv(TryFlushStep(c, s, acquired, f))
  {
    hide Alone, TryFlushStep, CanFlush;
    TryFlushTail(c, s, acquired, f);
    if acquired {
      AtTopIsAlone(TryFlushStep(c, s, acquired, f).io);
    } else {
      NotAcquired(c, s, f);
    }
  }

  lemma IdleAlone(c: Config, s: State, e: Event)
    requires AloneInv(s) && Enabled(c, s, e) && !Overlap(Next(c, s, e))
    requires !e.MainTurn? && !e.TailTurn? && !e.Parse? && !e.TryFlush?
    requires !e.WriteCheck? && !e.WriteLock? && !e.Resume? && !e.TaskEnds? && !e.EndCheck? && !e.EndLock? && !e.EndResume?
    ensures AloneInv(Next(c, s, e))
  {
    hide Alone, Accept, WakeFirst, CanFail, Unread;
    AtTopIsAlone(Next(c, s, e).io);
  }

  lemma ParseMeetsNone(c: Config, s: State, e: Event)
    requires Inv(c, s) && e.Parse? && Enabled(c, s, e)
    ensures NoFlusher(Next(c, s, e)) && Next(c, s, e).tail.NoTail?
  {
    NoTailThere(c, s);
    hide Inv, Flush, Accept, WakeFirst, CanFlush, Unread;
  }

  lemma {:induction false} RunStaysAlone(c: Config, states: seq<State>, events: seq<Event>, k: nat)
    requires c.Sound() && IsRun(c, states, events) && k < |states|
    requires forall j :: 0 <= j <= k ==> !Overlap(states[j])
    ensures WireInv(states[k]) && AloneInv(states[k])
  {
    hide Inv, WireInv, AloneInv, Overlap, Enabled, Next, Races;
    if k == 0 {
      InitialWire();
    } else {
      RunStaysAlone(c, states, events, k - 1);
      RunKeepsInv(c, states, events, k - 1);
      assert !Overlap(states[k]) && states[k - 1 + 1] == Next(c, states[k - 1], events[k - 1]);
      StepAlone(c, states[k - 1], events[k - 1]);
    }
  }

  lemma StepAlone(c: Config, s: State, e: Event)
    requires c.Sound() && Inv(c, s) && WireInv(s) && AloneInv(s) && !Overlap(s) && Enabled(c, s, e)
    requires !Overlap(Next(c, s, e))
    ensures WireInv(Next(c, s, e)) && AloneInv(Next(c, s, e))
  {
    hide Inv, WireInv, AloneInv, Overlap, Enabled, Next;
    if e.MainTurn? || e.TailTurn? {
      TurnAlone(c, s, e);
    } else {
      OthersAlone(c, s, e);
    }
    StepKeepsWire(c, s, e);
  }

  /** If the two flushes are never under way at the same time, no byte is lost, repeated or reordered
      while the client is there, and the total is what is unread. */
  lemma WholeWithoutOverlap(c: Config, states: seq<State>, events: seq<Event>, k: nat)
    requires c.Sound() && IsRun(c, states, events) && k < |states| && states[k].connected
    requires forall j :: 0 <= j <= k ==> !Overlap(states[j])
    ensures Whole(states[k]) && states[k].total == |Unread(states[k].io)|
  {
    hide WireInv, Overlap, Enabled, Next;
    RunStaysAlone(c, states, events, k);
    WireIsWhole(states[k]);
  }

  /** A run without pipelining and expectations has no late 100 Continue, and so no overlap: the second
      flush begins only when a service ends with nothing queued and a half-read request that expects one. */
  lemma OverlapNeedsExpectation(c: Config, s: State, e: Event)
    requires c.Sound() && Inv(c, s) && Enabled(c, s, e) && s.tail.NoTail? && !Next(c, s, e).tail.NoTail?
    ensures e.KeepSection? && |s.requests| == 1 && ExpectsContinue(s)
  {
    if e.WriteCheck? || e.WriteLock? || e.Resume? || e.TaskEnds? || e.EndCheck? || e.EndLock? || e.EndResume? {
      WorkerStepIsMove(c, s, e);
      hide Inv, Next, Enabled;
    } else if e.TryFlush? {
      hide Inv;
      TryFlushTail(c, s, e.acquired, e.flush);
    } else if e.Parse? {
      ParseMeetsNone(c, s, e);
    } else if !e.KeepSection? {
      hide Inv;
      OthersLeaveTail(c, s, e);
    }
  }

  lemma OthersLeaveTail(c: Config, s: State, e: Event)
    requires Enabled(c, s, e) && s.tail.NoTail? && !e.TryFlush? && !e.Parse? && !e.KeepSection?
    requires !e.WriteCheck? && !e.WriteLock? && !e.Resume? && !e.TaskEnds? && !e.EndCheck? && !e.EndLock? && !e.EndResume?
    ensures Next(c, s, e).tail.NoTail?
  {
    if e.TakeTask? || e.Start? || e.CloseSection? {
      hide WakeFirst, Flush;
    } else if e.MainGone? || e.CloseDown? || e.LoseClient? {
      hide WakeFirst, CanFail;
    } else {
      hide Closed, Move, Accept, Turned, CanTurn, CanFail, Spent, Overtake;
    }
  }

  lemma TryFlushTail(c: Config, s: State, acquired: bool, f: Outcome)
    ensures var s' := TryFlushStep(c, s, acquired, f); s'.tail == s.tail && s'.writing == Testing
  {
    if acquired {
      TryFlushGoesOn(c, s, f);
    } else {
      NotAcquired(c, s, f);
    }
  }
}
