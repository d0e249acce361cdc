/** Two runs of the channel that show that the conditions proved for it are needed. */
module ChannelScenarios {
  import opened Wrappers
  import opened SharedOutbufs
  import opened ChannelMachine
  import opened ChannelWire

  const NO_FLUSH := Outcome(0, false, false)

  const QUEUE_ONE := Parse(false, true, true, false, NO_FLUSH)

  predicate Goes(c: Config, s: State, e: Event, s': State) {
    Enabled(c, s, e) && s' == Next(c, s, e)
  }

  /** A run up to state s goes on with the event e to s'. */
  lemma Extend(c: Config, states: seq<State>, events: seq<Event>, s: State, e: Event, s': State)
    returns (states': seq<State>, events': seq<Event>)
    requires IsRun(c, states, events) && states[|states| - 1] == s && Goes(c, s, e, s')
    ensures IsRun(c, states', events') && states' == states + [s'] && events' == events + [e]
  {
    hide Enabled, Next;
    states', events' := states + [s'], events + [e];
  }

  // ---------- a wait that nobody ends ----------

  const TINY := Config(1, 1)

  const RECEIVING := INITIAL.(receiving := true)

  const ONE_QUEUED := RECEIVING.(requests := [0], received := [0], nextId := 1, queued := 1)

  const TWO_QUEUED := INITIAL.(requests := [0, 1], received := [0, 1], nextId := 2, queued := 1)

  const TWO_TAKEN := TWO_QUEUED.(queued := 0, services := [Service(Starting, 0)])

  const FIRST_SERVED := TWO_TAKEN.(services := [Service(Executing, 0)], served := [0])

  const FIVE := Flush(Accept(NO_OUTPUT, 5, Last), 0)

  const FIRST_WRITTEN := FIRST_SERVED.(total := 5, log := [Piece(0)], io := FIVE)

  const CLIENT_LOST := FIRST_WRITTEN.(services := [Service(EndFlushing, 0)], total := 0, connected := false)

  const STUCK := CLIENT_LOST.(services := [Service(Waiting(Wait(0, true, true)), 0)], willClose := true,
                              io := Flush(FIVE, 0))

  lemma StuckReceives()
    ensures Goes(TINY, INITIAL, BeginReceive, RECEIVING)
    ensures Goes(TINY, RECEIVING, QUEUE_ONE, ONE_QUEUED)
    ensures Goes(TINY, ONE_QUEUED, QUEUE_ONE, TWO_QUEUED.(receiving := true))
    ensures Goes(TINY, TWO_QUEUED.(receiving := true), EndReceive, TWO_QUEUED)
  {
    hide Unread;
    assert [0] + [1] == [0, 1] && [] + [0] == [0];
  }

  lemma StuckStarts()
    ensures Goes(TINY, TWO_QUEUED, TakeTask, TWO_TAKEN)
  {
    assert [] + [Service(Starting, 0)] == [Service(Starting, 0)];
  }

  lemma StuckServes()
    ensures Goes(TINY, TWO_TAKEN, Start(0), FIRST_SERVED)
  {
    assert [] + [0] == [0];
  }

  lemma StuckWrites()
    ensures Goes(TINY, FIRST_SERVED, WriteCheck(0, 5, false), FIRST_SERVED.(services := [Service(Locking(5), 0)]))
    ensures Goes(TINY, FIRST_SERVED.(services := [Service(Locking(5), 0)]), WriteLock(0, NO_FLUSH, NO_FLUSH, Last, false),
                 FIRST_WRITTEN)
  {
    hide Unread, Flush;
    assert [] + [Piece(0)] == [Piece(0)];
  }

  lemma StuckEnds()
    ensures Goes(TINY, FIRST_WRITTEN, TaskEnds(0, false), FIRST_WRITTEN.(services := [Service(Ending, 0)]))
    ensures Goes(TINY, FIRST_WRITTEN.(services := [Service(Ending, 0)]), EndCheck(0),
                 FIRST_WRITTEN.(services := [Service(EndFlushing, 0)]))
  {
    hide Flush, Unread, FIVE;
  }

  lemma StuckLoses()
    ensures Goes(TINY, FIRST_WRITTEN.(services := [Service(EndFlushing, 0)]), LoseClient, CLIENT_LOST)
    ensures Goes(TINY, CLIENT_LOST, EndLock(0, Outcome(0, true, false)), STUCK)
  {
    hide Flush, Unread, FIVE;
    assert WakeFirst([]) == [];
    assert WakeFirst([Service(EndFlushing, 0)]) == [Service(EndFlushing, 0)];
  }

  /** The wait that nobody ends is reachable: two pipelined requests, the first response leaves too much
      pending, and the client goes away between the check and the lock at the end of its service. */
  lemma StuckWaitIsReachable() returns (states: seq<State>, events: seq<Event>)
    ensures TINY.Sound() && IsRun(TINY, states, events) && states[|states| - 1] == STUCK
    ensures !STUCK.connected && MainIdle(STUCK)
    ensures STUCK.services[0].pc == Waiting(Wait(0, true, true))
  {
    StuckReceives();
    StuckStarts();
    StuckServes();
    StuckWrites();
    StuckEnds();
    StuckLoses();
    states, events := [INITIAL], [];
    assert STUCK.services == [Service(Waiting(Wait(0, true, true)), 0)];
    hide Goes, Enabled, Next, INITIAL, RECEIVING, ONE_QUEUED, TWO_QUEUED, TWO_TAKEN, FIRST_SERVED, FIRST_WRITTEN, CLIENT_LOST,
      FIVE;
    assert IsRun(TINY, states, events);
    hide IsRun;
    states, events := Extend(TINY, states, events, INITIAL, BeginReceive, RECEIVING);
    states, events := Extend(TINY, states, events, RECEIVING, QUEUE_ONE, ONE_QUEUED);
    states, events := Extend(TINY, states, events, ONE_QUEUED, QUEUE_ONE, TWO_QUEUED.(receiving := true));
    states, events := Extend(TINY, states, events, TWO_QUEUED.(receiving := true), EndReceive, TWO_QUEUED);
    states, events := Extend(TINY, states, events, TWO_QUEUED, TakeTask, TWO_TAKEN);
    states, events := Extend(TINY, states, events, TWO_TAKEN, Start(0), FIRST_SERVED);
    var locking := FIRST_SERVED.(services := [Service(Locking(5), 0)]);
    states, events := Extend(TINY, states, events, FIRST_SERVED, WriteCheck(0, 5, false), locking);
    states, events := Extend(TINY, states, events, locking, WriteLock(0, NO_FLUSH, NO_FLUSH, Last, false), FIRST_WRITTEN);
    var ending := FIRST_WRITTEN.(services := [Service(Ending, 0)]);
    states, events := Extend(TINY, states, events, FIRST_WRITTEN, TaskEnds(0, false), ending);
    var flushing := FIRST_WRITTEN.(services := [Service(EndFlushing, 0)]);
    states, events := Extend(TINY, states, events, ending, EndCheck(0), flushing);
    states, events := Extend(TINY, states, events, flushing, LoseClient, CLIENT_LOST);
    states, events := Extend(TINY, states, events, CLIENT_LOST, EndLock(0, Outcome(0, true, false)), STUCK);
  }

  // ---------- a byte that goes out twice ----------

  const LARGE := Config(20, 10)

  const EXPECT_HALF := Parse(true, true, false, false, NO_FLUSH)

  const HALF_QUEUED := ONE_QUEUED.(nextId := 2, pending := Some(Pending(1, true, true)))

  const HALF_TAKEN := HALF_QUEUED.(receiving := false, queued := 0, services := [Service(Starting, 0)])

  const ANSWERING := HALF_TAKEN.(services := [Service(Executing, 0)], served := [0])

  const ONE_BYTE := Io([[0]], 0, [], 1)

  const ANSWERED := ANSWERING.(total := 1, log := [Piece(0)], io := ONE_BYTE)

  const POPPED := ANSWERED.(requests := [], services := [Service(Gone, 0)], tail := BeforeLock)

  const WITH_LINE := Io([Numbers(0, 26)], 0, [], 26)

  const CONTINUING := POPPED.(pending := Some(Pending(1, false, true)), sentContinue := true, total := 26,
                              log := [Piece(0), ContinueLine(1)], io := WITH_LINE)

  /** The state with the two flushes where they are and that much on the wire. */
  function Both(main: Flusher, tail: Flusher, wire: seq<nat>): State {
    CONTINUING.(io := WITH_LINE.(wire := wire), writing := Unlocked(main), tail := Flushing(tail))
  }

  lemma TwiceReceives()
    ensures Goes(LARGE, INITIAL, BeginReceive, RECEIVING)
    ensures Goes(LARGE, RECEIVING, QUEUE_ONE, ONE_QUEUED)
    ensures Goes(LARGE, ONE_QUEUED, EXPECT_HALF, HALF_QUEUED)
    ensures Goes(LARGE, HALF_QUEUED, EndReceive, HALF_QUEUED.(receiving := false))
  {
    hide Unread;
    assert [] + [0] == [0];
  }

  lemma TwiceStarts()
    ensures Goes(LARGE, HALF_QUEUED.(receiving := false), TakeTask, HALF_TAKEN)
  {
    assert [] + [Service(Starting, 0)] == [Service(Starting, 0)];
  }

  lemma TwiceServes()
    ensures Goes(LARGE, HALF_TAKEN, Start(0), ANSWERING)
  {
    assert [] + [0] == [0];
  }

  lemma TwiceWrites()
    ensures Goes(LARGE, ANSWERING, WriteCheck(0, 1, false), ANSWERING.(services := [Service(Locking(1), 0)]))
    ensures Goes(LARGE, ANSWERING.(services := [Service(Locking(1), 0)]),
                 WriteLock(0, NO_FLUSH, NO_FLUSH, Last, false), ANSWERED)
  {
    hide Unread;
    assert [] + [Piece(0)] == [Piece(0)];
    assert NO_OUTPUT.bufs[0] + Numbers(0, 1) == [0];
    assert Accept(NO_OUTPUT, 1, Last) == ONE_BYTE;
  }

  lemma TwicePops()
    ensures Goes(LARGE, ANSWERED, TaskEnds(0, false), ANSWERED.(services := [Service(Ending, 0)]))
    ensures Goes(LARGE, ANSWERED.(services := [Service(Ending, 0)]), EndCheck(0), ANSWERED.(services := [Service(Keeping, 0)]))
    ensures Goes(LARGE, ANSWERED.(services := [Service(Keeping, 0)]), KeepSection(0), POPPED)
  {
    hide Unread;
    assert [0 as nat][1..] == [];
  }

  lemma MainTakes()
    ensures Goes(LARGE, POPPED, BeginWrite, POPPED.(writing := Unlocked(AtTop)))
    ensures Goes(LARGE, POPPED.(writing := Unlocked(AtTop)), MainTurn(0), POPPED.(writing := Unlocked(Inner(0, 1))))
    ensures Goes(LARGE, POPPED.(writing := Unlocked(Inner(0, 1))), MainTurn(1),
                 POPPED.(writing := Unlocked(Taken(0, 1, [0], false))))
  {
    assert [0 as nat][..1] == [0];
  }

  lemma TailBegins()
    ensures Goes(LARGE, POPPED.(writing := Unlocked(Taken(0, 1, [0], false))), TailLock(false),
                 Both(Taken(0, 1, [0], false), AtTop, []))
  {
    assert [0] + Numbers(1, 25) == Numbers(0, 26);
    assert Accept(ONE_BYTE, CONTINUE_BYTES, Last) == WITH_LINE;
    assert [Piece(0)] + [ContinueLine(1)] == [Piece(0), ContinueLine(1)];
    hide Accept, Numbers;
  }

  lemma TailLooks()
    ensures Goes(LARGE, Both(Taken(0, 1, [0], false), AtTop, []), TailTurn(0),
                 Both(Taken(0, 1, [0], false), Inner(0, 26), []))
  {
    hide Numbers;
  }

  lemma TailTakes()
    ensures Goes(LARGE, Both(Taken(0, 1, [0], false), Inner(0, 26), []), TailTurn(1),
                 Both(Taken(0, 1, [0], false), Taken(0, 26, [0], false), []))
  {
    FirstNumber();
    hide Numbers;
  }

  lemma FirstNumber()
    ensures Numbers(0, 26)[..1] == [0]
  {
  }

  lemma MainSends()
    ensures Goes(LARGE, Both(Taken(0, 1, [0], false), Taken(0, 26, [0], false), []), MainTurn(1),
                 Both(Sent(0, 1, 1), Taken(0, 26, [0], true), [0]))
  {
    hide Numbers;
    assert [0 as nat][..1] == [0];
    assert [] + [0 as nat] == [0];
  }

  lemma TailSends()
    ensures Goes(LARGE, Both(Sent(0, 1, 1), Taken(0, 26, [0], true), [0]), TailTurn(1),
                 Both(Sent(0, 1, 1), Sent(0, 26, 1), [0, 0]))
  {
    hide Numbers;
    assert [0 as nat][..1] == [0];
    assert [0] + [0 as nat] == [0, 0];
  }

  /** The race is reachable. One response of one byte, and the header of a second request that expects a
      100 Continue: the main thread takes the byte without the lock, and before it has skipped it so does
      the worker with its line. The byte is on the wire twice. */
  lemma ByteIsSentTwice() returns (states: seq<State>, events: seq<Event>)
    ensures LARGE.Sound() && IsRun(LARGE, states, events) && |events| == 19
    ensures states[19].connected && states[19].io.wire == [0, 0]
    ensures Races(states[18], events[18]) && !Whole(states[19])
  {
    states, events := AnswersOne();
    MainTakes();
    TailBegins();
    TailLooks();
    TailTakes();
    MainSends();
    TailSends();
    BothRace();
    hide Goes, Enabled, Next, IsRun, POPPED, Both, Races, Whole;
    states, events := Extend(LARGE, states, events, POPPED, BeginWrite, POPPED.(writing := Unlocked(AtTop)));
    var looking := POPPED.(writing := Unlocked(Inner(0, 1)));
    states, events := Extend(LARGE, states, events, POPPED.(writing := Unlocked(AtTop)), MainTurn(0), looking);
    var taken := POPPED.(writing := Unlocked(Taken(0, 1, [0], false)));
    states, events := Extend(LARGE, states, events, looking, MainTurn(1), taken);
    var begun := Both(Taken(0, 1, [0], false), AtTop, []);
    states, events := Extend(LARGE, states, events, taken, TailLock(false), begun);
    var inner := Both(Taken(0, 1, [0], false), Inner(0, 26), []);
    states, events := Extend(LARGE, states, events, begun, TailTurn(0), inner);
    var both := Both(Taken(0, 1, [0], false), Taken(0, 26, [0], false), []);
    states, events := Extend(LARGE, states, events, inner, TailTurn(1), both);
    var sent := Both(Sent(0, 1, 1), Taken(0, 26, [0], true), [0]);
    states, events := Extend(LARGE, states, events, both, MainTurn(1), sent);
    states, events := Extend(LARGE, states, events, sent, TailTurn(1), Both(Sent(0, 1, 1), Sent(0, 26, 1), [0, 0]));
  }

  lemma AnswersOne() returns (states: seq<State>, events: seq<Event>)
    ensures IsRun(LARGE, states, events) && |events| == 11 && |states| == 12 && states[11] == POPPED
  {
    TwiceReceives();
    TwiceStarts();
    TwiceServes();
    TwiceWrites();
    TwicePops();
    states, events := [INITIAL], [];
    hide Goes, Enabled, Next, INITIAL, RECEIVING, ONE_QUEUED, HALF_QUEUED, HALF_TAKEN, ANSWERING, ANSWERED, POPPED, ONE_BYTE;
    assert IsRun(LARGE, states, events);
    hide IsRun;
    states, events := Extend(LARGE, states, events, INITIAL, BeginReceive, RECEIVING);
    states, events := Extend(LARGE, states, events, RECEIVING, QUEUE_ONE, ONE_QUEUED);
    states, events := Extend(LARGE, states, events, ONE_QUEUED, EXPECT_HALF, HALF_QUEUED);
    var received := HALF_QUEUED.(receiving := false);
    states, events := Extend(LARGE, states, events, HALF_QUEUED, EndReceive, received);
    states, events := Extend(LARGE, states, events, received, TakeTask, HALF_TAKEN);
    states, events := Extend(LARGE, states, events, HALF_TAKEN, Start(0), ANSWERING);
    var locking := ANSWERING.(services := [Service(Locking(1), 0)]);
    states, events := Extend(LARGE, states, events, ANSWERING, WriteCheck(0, 1, false), locking);
    states, events := Extend(LARGE, states, events, locking, WriteLock(0, NO_FLUSH, NO_FLUSH, Last, false), ANSWERED);
    var ending := ANSWERED.(services := [Service(Ending, 0)]);
    states, events := Extend(LARGE, states, events, ANSWERED, TaskEnds(0, false), ending);
    var keeping := ANSWERED.(services := [Service(Keeping, 0)]);
    states, events := Extend(LARGE, states, events, ending, EndCheck(0), keeping);
    states, events := Extend(LARGE, states, events, keeping, KeepSection(0), POPPED);
  }

  lemma BothRace()
    ensures Races(Both(Sent(0, 1, 1), Taken(0, 26, [0], true), [0]), TailTurn(1))
    ensures var s := Both(Sent(0, 1, 1), Sent(0, 26, 1), [0, 0]); !Whole(s) && s.connected && s.io.wire == [0, 0]
  {
    hide Unread, Numbers;
    var s := Both(Sent(0, 1, 1), Sent(0, 26, 1), [0, 0]);
    assert s.io.wire[1] == 0;
    if Whole(s) {
      FrontOfWire(s.io, 2);
      assert false;
    }
  }
}
