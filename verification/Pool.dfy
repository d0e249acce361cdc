/** The thread pool: its lock sections as steps, and what every run keeps. */
module Pool {
  import opened Wrappers

  type TaskId = nat

  /** Where a worker thread is between two lock sections. */
  datatype Pc =
    | Ready               // about to take the lock at the top of its loop
    | Sleeping            // inside wait(), not notified
    | Woken               // inside wait(), notified, not yet resumed
    | Running(task: TaskId)
    | Exited

  datatype Worker = Worker(no: nat, pc: Pc)

  datatype Fate = Started(task: TaskId) | Cancelled(task: TaskId)

  /** The dispatcher's fields, its threads, and what has become of the tasks added so far. */
  datatype State = State(
    threads: set<nat>,
    workers: seq<Worker>,
    stopCount: int,
    activeCount: int,
    queue: seq<TaskId>,
    added: seq<TaskId>,
    fates: seq<Fate>,
    target: nat)

  const INITIAL := State({}, [], 0, 0, [], [], [], 0)

  // ---------- steps ----------

  predicate Schedulable(pc: Pc) { pc.Ready? || pc.Woken? }

  /** The lock section of worker i: from the lock, or from the end of its wait, to its next wait, its
      exit, or the task it takes. */
  function Handle(s: State, i: nat): State
    requires i < |s.workers| && Schedulable(s.workers[i].pc)
  {
    var w := s.workers[i];
    var active := s.activeCount + if w.pc.Woken? then 1 else 0;
    if s.stopCount > 0 then
      s.(workers := s.workers[i := w.(pc := Exited)], activeCount := active - 1,
         stopCount := s.stopCount - 1, threads := s.threads - {w.no})
    else if s.queue == [] then
      s.(workers := s.workers[i := w.(pc := Sleeping)], activeCount := active - 1)
    else
      s.(workers := s.workers[i := w.(pc := Running(s.queue[0]))], activeCount := active,
         queue := s.queue[1..], fates := s.fates + [Started(s.queue[0])])
  }

  function Finish(s: State, i: nat): State
    requires i < |s.workers| && s.workers[i].pc.Running?
  {
    s.(workers := s.workers[i := s.workers[i].(pc := Ready)])
  }

  function WakeAll(ws: seq<Worker>): (r: seq<Worker>)
    ensures |r| == |ws|
  {
    seq(|ws|, i requires 0 <= i < |ws| => if ws[i].pc.Sleeping? then ws[i].(pc := Woken) else ws[i])
  }

  /** `notify()`: one sleeper is woken, if there is one. */
  predicate Notified(ws: seq<Worker>, ws': seq<Worker>) {
    if exists i :: 0 <= i < |ws| && ws[i].pc.Sleeping?
    then exists i :: 0 <= i < |ws| && ws[i].pc.Sleeping? && ws' == ws[i := ws[i].(pc := Woken)]
    else ws' == ws
  }

  predicate Add(s: State, s': State, task: TaskId) {
    && s' == s.(queue := s.queue + [task], added := s.added + [task], workers := s'.workers)
    && Notified(s.workers, s'.workers)
  }

  function Numbers(ws: seq<Worker>): set<nat> {
    set i | 0 <= i < |ws| && !ws[i].pc.Exited? :: ws[i].no
  }

  predicate DistinctNumbers(ws: seq<Worker>) {
    forall i, j :: 0 <= i < j < |ws| && !ws[i].pc.Exited? && !ws[j].pc.Exited? ==> ws[i].no != ws[j].no
  }

  /** `set_thread_count(n)`: new threads under free numbers, or that many more to stop. */
  predicate SetCount(s: State, s': State, n: nat) {
    var running := |s.threads| - s.stopCount;
    if running > n then
      s' == s.(stopCount := s.stopCount + (running - n), workers := WakeAll(s.workers), target := n)
    else
      && |s'.workers| == |s.workers| + (n - running)
      && s'.workers[..|s.workers|] == s.workers
      && (var started := s'.workers[|s.workers|..];
        && (forall w :: w in started ==> w.pc.Ready? && w.no !in s.threads)
        && DistinctNumbers(started)
        && s' == s.(workers := s.workers + started, threads := s.threads + Numbers(started),
                    activeCount := s.activeCount + |started|, target := n))
  }

  function CancelAll(queue: seq<TaskId>): (r: seq<Fate>)
    ensures |r| == |queue|
  {
    seq(|queue|, i requires 0 <= i < |queue| => Cancelled(queue[i]))
  }

  /** The last lock section of `shutdown`. */
  function CancelPending(s: State): State {
    s.(queue := [], fates := s.fates + CancelAll(s.queue), workers := WakeAll(s.workers))
  }

  datatype Event =
    | HandleEvent(worker: nat)
    | FinishEvent(worker: nat)
    | AddEvent(task: TaskId)
    | SetCountEvent(count: nat)
    | CancelEvent

  predicate Step(s: State, e: Event, s': State) {
    match e
    case HandleEvent(i) => i < |s.workers| && Schedulable(s.workers[i].pc) && s' == Handle(s, i)
    case FinishEvent(i) => i < |s.workers| && s.workers[i].pc.Running? && s' == Finish(s, i)
    case AddEvent(t) => Add(s, s', t)
    case SetCountEvent(n) => SetCount(s, s', n)
    case CancelEvent => s' == CancelPending(s)
  }

  // ---------- counting workers ----------

  datatype Kind = Live | Awake | Asleep | WokenUp

  predicate Is(k: Kind, pc: Pc) {
    match k
    case Live => !pc.Exited?
    case Awake => pc.Ready? || pc.Running?
    case Asleep => pc.Sleeping?
    case WokenUp => pc.Woken?
  }

  function One(k: Kind, w: Worker): nat { if Is(k, w.pc) then 1 else 0 }

  function Count(ws: seq<Worker>, k: Kind): nat {
    if ws == [] then 0 else One(k, ws[0]) + Count(ws[1..], k)
  }

  lemma {:induction false} CountUpdate(ws: seq<Worker>, i: nat, w: Worker, k: Kind)
    requires i < |ws|
    ensures Count(ws[i := w], k) == Count(ws, k) - One(k, ws[i]) + One(k, w)
  {
    var ws' := ws[i := w];
    if i == 0 {
      assert ws'[1..] == ws[1..];
    } else {
      assert ws'[1..] == ws[1..][i - 1 := w];
      CountUpdate(ws[1..], i - 1, w, k);
    }
  }

  lemma {:induction false} CountAppend(a: seq<Worker>, b: seq<Worker>, k: Kind)
    ensures Count(a + b, k) == Count(a, k) + Count(b, k)
  {
    if a == [] {
      assert a + b == b;
    } else {
      assert (a + b)[1..] == a[1..] + b;
      CountAppend(a[1..], b, k);
    }
  }

  lemma {:induction false} CountAll(ws: seq<Worker>, k: Kind)
    requires forall w :: w in ws ==> Is(k, w.pc)
    ensures Count(ws, k) == |ws|
  {
    if ws != [] {
      assert ws[0] in ws;
      CountAll(ws[1..], k);
    }
  }

  lemma {:induction false} CountNone(ws: seq<Worker>, k: Kind)
    ensures Count(ws, k) == 0 <==> forall i :: 0 <= i < |ws| ==> !Is(k, ws[i].pc)
  {
    if ws != [] {
      CountNone(ws[1..], k);
      assert forall i :: 0 < i < |ws| ==> ws[i] == ws[1..][i - 1];
    }
  }

  lemma {:induction false} CountWakeAll(ws: seq<Worker>)
    ensures Count(WakeAll(ws), Live) == Count(ws, Live)
    ensures Count(WakeAll(ws), Awake) == Count(ws, Awake)
    ensures Count(WakeAll(ws), Asleep) == 0
    ensures Count(WakeAll(ws), WokenUp) == Count(ws, WokenUp) + Count(ws, Asleep)
  {
    if ws != [] {
      assert WakeAll(ws)[1..] == WakeAll(ws[1..]);
      CountWakeAll(ws[1..]);
    }
  }

  /** The live workers are as many as their numbers. */
  lemma {:induction false} CountNumbers(ws: seq<Worker>)
    requires DistinctNumbers(ws)
    ensures |Numbers(ws)| == Count(ws, Live)
  {
    if ws != [] {
      var rest := ws[1..];
      assert forall i :: 0 <= i < |rest| ==> rest[i] == ws[i + 1];
      CountNumbers(rest);
      if ws[0].pc.Exited? {
        assert Numbers(ws) == Numbers(rest);
      } else {
        assert ws[0].no !in Numbers(rest);
        assert Numbers(ws) == {ws[0].no} + Numbers(rest) by {
          forall n | n in Numbers(rest) ensures n in Numbers(ws) {
            var i :| 0 <= i < |rest| && !rest[i].pc.Exited? && rest[i].no == n;
            assert ws[i + 1] == rest[i];
          }
          forall n | n in Numbers(ws) ensures n == ws[0].no || n in Numbers(rest) {
            var i :| 0 <= i < |ws| && !ws[i].pc.Exited? && ws[i].no == n;
            if i > 0 { assert rest[i - 1] == ws[i]; }
          }
        }
      }
    }
  }

  // ---------- the invariant ----------

  function Tasks(fates: seq<Fate>): seq<TaskId> {
    seq(|fates|, i requires 0 <= i < |fates| => fates[i].task)
  }

  ghost predicate Bookkeeping(s: State) {
    && DistinctNumbers(s.workers) && s.threads == Numbers(s.workers)
    && 0 <= s.stopCount && |s.threads| - s.stopCount == s.target
    && s.activeCount == Count(s.workers, Awake)
    && Tasks(s.fates) + s.queue == s.added
  }

  ghost predicate NoLostWakeup(s: State) {
    && (Count(s.workers, Asleep) > 0 ==> |s.queue| <= Count(s.workers, WokenUp))
    && (s.stopCount > 0 ==> Count(s.workers, Asleep) == 0)
  }

  ghost predicate Inv(s: State) { Bookkeeping(s) && NoLostWakeup(s) }

  lemma Counts(s: State, i: nat, w: Worker)
    requires i < |s.workers|
    ensures forall k :: Count(s.workers[i := w], k) == Count(s.workers, k) - One(k, s.workers[i]) + One(k, w)
  {
    forall k ensures Count(s.workers[i := w], k) == Count(s.workers, k) - One(k, s.workers[i]) + One(k, w) {
      CountUpdate(s.workers, i, w, k);
    }
  }

  /** A worker that changes its place but not its number leaves the numbers as they are. */
  lemma NumbersUpdate(ws: seq<Worker>, i: nat, pc: Pc)
    requires i < |ws| && DistinctNumbers(ws) && !ws[i].pc.Exited?
    ensures var ws' := ws[i := ws[i].(pc := pc)];
      && DistinctNumbers(ws')
      && Numbers(ws') == if pc.Exited? then Numbers(ws) - {ws[i].no} else Numbers(ws)
  {
    var ws' := ws[i := ws[i].(pc := pc)];
    forall n | n in Numbers(ws) && (!pc.Exited? || n != ws[i].no) ensures n in Numbers(ws') {
      var j :| 0 <= j < |ws| && !ws[j].pc.Exited? && ws[j].no == n;
      assert ws'[j].no == n;
    }
    forall n | n in Numbers(ws') ensures n in Numbers(ws) && (!pc.Exited? || n != ws[i].no) {
      var j :| 0 <= j < |ws'| && !ws'[j].pc.Exited? && ws'[j].no == n;
      assert ws[j].no == n;
    }
  }

  lemma HandleKeepsInv(s: State, i: nat)
    requires Inv(s) && i < |s.workers| && Schedulable(s.workers[i].pc)
    ensures Inv(Handle(s, i))
  {
    hide Numbers, DistinctNumbers;
    var s' := Handle(s, i);
    var w' := s'.workers[i];
    Counts(s, i, w');
    NumbersUpdate(s.workers, i, w'.pc);
    CountNumbers(s.workers);
    CountNumbers(s'.workers);
    if s.stopCount == 0 && s.queue != [] {
      assert Tasks(s'.fates) == Tasks(s.fates) + [s.queue[0]];
      assert s.queue == [s.queue[0]] + s'.queue;
    }
  }

  lemma FinishKeepsInv(s: State, i: nat)
    requires Inv(s) && i < |s.workers| && s.workers[i].pc.Running?
    ensures Inv(Finish(s, i))
  {
    hide Numbers, DistinctNumbers;
    Counts(s, i, s.workers[i].(pc := Ready));
    NumbersUpdate(s.workers, i, Ready);
  }

  lemma AddKeepsInv(s: State, s': State, task: TaskId)
    requires Inv(s) && Add(s, s', task)
    ensures Inv(s')
  {
    hide Numbers, DistinctNumbers;
    CountNone(s.workers, Asleep);
    if i :| 0 <= i < |s.workers| && s.workers[i].pc.Sleeping? && s'.workers == s.workers[i := s.workers[i].(pc := Woken)] {
      Counts(s, i, s.workers[i].(pc := Woken));
      NumbersUpdate(s.workers, i, Woken);
    }
    assert Tasks(s.fates) + (s.queue + [task]) == s.added + [task];
  }

  lemma WakeAllNumbers(ws: seq<Worker>)
    ensures Numbers(WakeAll(ws)) == Numbers(ws)
    ensures DistinctNumbers(ws) ==> DistinctNumbers(WakeAll(ws))
  {
    var r := WakeAll(ws);
    assert forall i :: 0 <= i < |ws| ==> r[i].no == ws[i].no && (r[i].pc.Exited? <==> ws[i].pc.Exited?);
    forall n | n in Numbers(ws) ensures n in Numbers(r) {
      var i :| 0 <= i < |ws| && !ws[i].pc.Exited? && ws[i].no == n;
      assert r[i].no == n;
    }
    forall n | n in Numbers(r) ensures n in Numbers(ws) {
      var i :| 0 <= i < |ws| && !r[i].pc.Exited? && r[i].no == n;
      assert ws[i].no == n;
    }
  }

  lemma NumbersAppend(a: seq<Worker>, b: seq<Worker>)
    ensures Numbers(a + b) == Numbers(a) + Numbers(b)
    ensures DistinctNumbers(a) && DistinctNumbers(b) && Numbers(a) !! Numbers(b) ==> DistinctNumbers(a + b)
  {
    var c := a + b;
    forall n | n in Numbers(a) + Numbers(b) ensures n in Numbers(c) {
      if n in Numbers(a) {
        var i :| 0 <= i < |a| && !a[i].pc.Exited? && a[i].no == n;
        assert c[i] == a[i];
      } else {
        var i :| 0 <= i < |b| && !b[i].pc.Exited? && b[i].no == n;
        assert c[|a| + i] == b[i];
      }
    }
    if DistinctNumbers(a) && DistinctNumbers(b) && Numbers(a) !! Numbers(b) {
      forall i, j | 0 <= i < j < |c| && !c[i].pc.Exited? && !c[j].pc.Exited? ensures c[i].no != c[j].no {
        if i < |a| <= j {
          assert a[i].no in Numbers(a) && b[j - |a|].no in Numbers(b);
        }
      }
    }
  }

  lemma StartedCounts(ws: seq<Worker>, started: seq<Worker>)
    requires forall w :: w in started ==> w.pc.Ready?
    ensures Count(started, Live) == |started|
    ensures Count(ws + started, Awake) == Count(ws, Awake) + |started|
    ensures Count(ws + started, Asleep) == Count(ws, Asleep)
    ensures Count(ws + started, WokenUp) == Count(ws, WokenUp)
  {
    CountAll(started, Live);
    CountAll(started, Awake);
    assert forall i :: 0 <= i < |started| ==> started[i] in started;
    CountNone(started, Asleep);
    CountNone(started, WokenUp);
    CountAppend(ws, started, Awake);
    CountAppend(ws, started, Asleep);
    CountAppend(ws, started, WokenUp);
  }

  lemma SetCountKeepsInv(s: State, s': State, n: nat)
    requires Inv(s) && SetCount(s, s', n)
    ensures Inv(s')
  {
    hide Numbers, DistinctNumbers, Count;
    var running := |s.threads| - s.stopCount;
    if running > n {
      CountWakeAll(s.workers);
      WakeAllNumbers(s.workers);
    } else {
      var started := s'.workers[|s.workers|..];
      StartedNumbers(s.workers, started);
      NumbersAppend(s.workers, started);
      CountNumbers(started);
      StartedCounts(s.workers, started);
    }
  }

  lemma StartedNumbers(ws: seq<Worker>, started: seq<Worker>)
    requires forall w :: w in started ==> w.no !in Numbers(ws)
    ensures Numbers(ws) !! Numbers(started)
  {
    forall n | n in Numbers(started) ensures n !in Numbers(ws) {
      var i :| 0 <= i < |started| && !started[i].pc.Exited? && started[i].no == n;
      assert started[i] in started;
    }
  }

  lemma CancelKeepsInv(s: State)
    requires Inv(s)
    ensures Inv(CancelPending(s))
  {
    CountWakeAll(s.workers);
    WakeAllNumbers(s.workers);
    assert Tasks(s.fates + CancelAll(s.queue)) == Tasks(s.fates) + s.queue;
  }

  lemma StepKeepsInv(s: State, e: Event, s': State)
    requires Inv(s) && Step(s, e, s')
    ensures Inv(s')
  {
    hide Inv, Handle, Finish, Add, SetCount, CancelPending;
    match e
    case HandleEvent(i) => HandleKeepsInv(s, i);
    case FinishEvent(i) => FinishKeepsInv(s, i);
    case AddEvent(t) => AddKeepsInv(s, s', t);
    case SetCountEvent(n) => SetCountKeepsInv(s, s', n);
    case CancelEvent => CancelKeepsInv(s);
  }

  // ---------- every run ----------

  /** A run from the initial state, with what happened at each step. */
  ghost predicate IsRun(states: seq<State>, events: seq<Event>) {
    && |states| == |events| + 1 && states[0] == INITIAL
    && forall i :: 0 <= i < |events| ==> Step(states[i], events[i], states[i + 1])
  }

  lemma {:induction false} RunKeepsInv(states: seq<State>, events: seq<Event>, k: nat)
    requires IsRun(states, events) && k < |states|
    ensures Inv(states[k])
  {
    hide Step, Inv;
    if k == 0 {
      InitialInv();
    } else {
      RunKeepsInv(states, events, k - 1);
      StepKeepsInv(states[k - 1], events[k - 1], states[k]);
    }
  }

  lemma InitialInv()
    ensures Inv(INITIAL)
  {
    assert Tasks([]) == [];
  }

  /** In no run does a task wait while every worker sleeps, or does a worker sleep through a stop. */
  lemma NoTaskIsForgotten(states: seq<State>, events: seq<Event>, k: nat)
    requires IsRun(states, events) && k < |states|
    ensures var s := states[k];
      && (Count(s.workers, Asleep) > 0 ==> |s.queue| <= Count(s.workers, WokenUp))
      && ((exists w :: w in s.workers && w.pc.Sleeping?) && (forall w :: w in s.workers ==> !w.pc.Woken?) ==>
        s.queue == [])
      && (s.stopCount > 0 ==> forall w :: w in s.workers ==> !w.pc.Sleeping?)
  {
    RunKeepsInv(states, events, k);
    var s := states[k];
    CountNone(s.workers, Asleep);
    CountNone(s.workers, WokenUp);
  }

  /** Tasks are started or cancelled in the order they were added, each at most once; the rest wait. */
  lemma TasksAreConserved(states: seq<State>, events: seq<Event>, k: nat)
    requires IsRun(states, events) && k < |states|
    ensures var s := states[k];
      && Tasks(s.fates) + s.queue == s.added
      && |s.threads| - s.stopCount == s.target
      && s.activeCount == Count(s.workers, Awake)
      && DistinctNumbers(s.workers)
  {
    RunKeepsInv(states, events, k);
  }

  // ---------- what has become of each task ----------

  /** The tasks with that fate, in order. */
  function Fated(fates: seq<Fate>, started: bool): seq<TaskId> {
    if fates == [] then []
    else
      var f := fates[|fates| - 1];
      Fated(fates[..|fates| - 1], started) + if f.Started? == started then [f.task] else []
  }

  /** The task that the step has put into a worker's hands, read off the worker. */
  function Taken(e: Event, s': State): seq<TaskId> {
    if e.HandleEvent? && e.worker < |s'.workers| && s'.workers[e.worker].pc.Running?
    then [s'.workers[e.worker].pc.task] else []
  }

  /** The tasks that `shutdown` has found waiting, read off the queue. */
  function Dropped(s: State, e: Event): seq<TaskId> {
    if e.CancelEvent? then s.queue else []
  }

  function AllTaken(states: seq<State>, events: seq<Event>, k: nat): seq<TaskId>
    requires k <= |events| < |states|
  {
    if k == 0 then [] else AllTaken(states, events, k - 1) + Taken(events[k - 1], states[k])
  }

  function AllDropped(states: seq<State>, events: seq<Event>, k: nat): seq<TaskId>
    requires k <= |events| < |states|
  {
    if k == 0 then [] else AllDropped(states, events, k - 1) + Dropped(states[k - 1], events[k - 1])
  }

  lemma {:induction false} FatedAppend(a: seq<Fate>, b: seq<Fate>, started: bool)
    ensures Fated(a + b, started) == Fated(a, started) + Fated(b, started)
    decreases |b|
  {
    if b == [] {
      assert a + b == a;
    } else {
      assert (a + b)[..|a + b| - 1] == a + b[..|b| - 1];
      FatedAppend(a, b[..|b| - 1], started);
    }
  }

  lemma {:induction false} FatedCancelled(queue: seq<TaskId>)
    ensures Fated(CancelAll(queue), false) == queue && Fated(CancelAll(queue), true) == []
    decreases |queue|
  {
    if queue != [] {
      var n := |queue| - 1;
      assert CancelAll(queue)[..n] == CancelAll(queue[..n]);
      FatedCancelled(queue[..n]);
    }
  }

  lemma StepTellsTheFates(s: State, e: Event, s': State)
    requires Step(s, e, s')
    ensures Fated(s'.fates, true) == Fated(s.fates, true) + Taken(e, s')
    ensures Fated(s'.fates, false) == Fated(s.fates, false) + Dropped(s, e)
  {
    hide Notified, Numbers, DistinctNumbers;
    if e.HandleEvent? && s.stopCount <= 0 && s.queue != [] {
      var last := Started(s.queue[0]);
      assert (s.fates + [last])[..|s.fates|] == s.fates;
    } else if e.CancelEvent? {
      FatedCancelled(s.queue);
      FatedAppend(s.fates, CancelAll(s.queue), true);
      FatedAppend(s.fates, CancelAll(s.queue), false);
    }
  }

  /** In every run: the tasks recorded as started are those that workers took, in that order, and those
      recorded as cancelled are those that `shutdown` found waiting. */
  lemma {:induction false} FatesTellTheTruth(states: seq<State>, events: seq<Event>, k: nat)
    requires IsRun(states, events) && k < |states|
    ensures Fated(states[k].fates, true) == AllTaken(states, events, k)
    ensures Fated(states[k].fates, false) == AllDropped(states, events, k)
  {
    hide Step, Taken, Dropped;
    if k > 0 {
      FatesTellTheTruth(states, events, k - 1);
      StepTellsTheFates(states[k - 1], events[k - 1], states[k]);
    }
  }
}
