/** The task dispatcher. Each method is one lock section; `workers` stands for the threads themselves. */
module Dispatcher {
  import opened Wrappers
  import opened Pool

  class ThreadedTaskDispatcher {
    var threads: set<nat>
    var queue: seq<TaskId>
    var stopCount: int
    var activeCount: int
    var workers: seq<Worker>

    ghost var added: seq<TaskId>
    ghost var fates: seq<Fate>
    ghost var target: nat

    ghost function Now(): State
      reads this
    {
      State(threads, workers, stopCount, activeCount, queue, added, fates, target)
    }

    constructor ()
      ensures Now() == INITIAL
    {
      threads, queue, stopCount, activeCount, workers := {}, [], 0, 0, [];
      added, fates, target := [], [], 0;
    }

    /** The lock section of a handler thread that is at the top of its loop or has been woken. */
    method HandlerSection(i: nat) returns (task: Option<TaskId>)
      requires i < |workers| && Schedulable(workers[i].pc) && 0 <= stopCount
      modifies this
      ensures Step(old(Now()), HandleEvent(i), Now())
      ensures task.Some? <==> workers[i].pc.Running?
      ensures task.Some? ==> workers[i].pc == Running(task.value)
    {
      var me := workers[i];
      task := None;
      if me.pc.Woken? {
        activeCount := activeCount + 1;
      }
      if queue == [] && stopCount == 0 {
        activeCount := activeCount - 1;
        workers := workers[i := me.(pc := Sleeping)];
        return;
      }
      if stopCount > 0 {
        activeCount := activeCount - 1;
        stopCount := stopCount - 1;
        threads := threads - {me.no};
        workers := workers[i := me.(pc := Exited)];
        return;
      }
      task := Some(queue[0]);
      fates := fates + [Started(queue[0])];
      workers := workers[i := me.(pc := Running(queue[0]))];
      queue := queue[1..];
    }

    /** The task has returned, or its exception has been logged. */
    method TaskDone(i: nat)
      requires i < |workers| && workers[i].pc.Running?
      modifies this`workers
      ensures Step(old(Now()), FinishEvent(i), Now())
    {
      workers := workers[i := workers[i].(pc := Ready)];
    }

    /** `queue_cv.notify()` */
    method Notify()
      modifies this`workers
      ensures Notified(old(workers), workers)
    {
      if exists i :: 0 <= i < |workers| && workers[i].pc.Sleeping? {
        var i :| 0 <= i < |workers| && workers[i].pc.Sleeping?;
        workers := workers[i := workers[i].(pc := Woken)];
      }
    }

    method AddTask(task: TaskId)
      modifies this
      ensures Step(old(Now()), AddEvent(task), Now())
    {
      queue := queue + [task];
      added := added + [task];
      Notify();
    }

    /** `while thread_no in threads: thread_no = thread_no + 1` */
    method FreeNumber(from: nat) returns (no: nat)
      ensures from <= no && no !in threads
    {
      no := from;
      while no in threads
        invariant from <= no
        decreases |set t | t in threads && t >= no|
      {
        SmallerAbove(threads, no);
        no := no + 1;
      }
    }

    /** One new thread under a free number. */
    method StartThread(from: nat, ghost started: seq<Worker>) returns (no: nat, ghost more: seq<Worker>)
      requires DistinctNumbers(started) && forall w :: w in started ==> w.no < from
      modifies this`threads, this`workers, this`activeCount
      ensures from <= no && no !in old(threads)
      ensures more == started + [Worker(no, Ready)] && DistinctNumbers(more)
      ensures Numbers(more) == Numbers(started) + {no}
      ensures threads == old(threads) + {no} && workers == old(workers) + [Worker(no, Ready)]
      ensures activeCount == old(activeCount) + 1
    {
      no := FreeNumber(from);
      threads := threads + {no};
      workers := workers + [Worker(no, Ready)];
      activeCount := activeCount + 1;
      StartOne(started, no);
      more := started + [Worker(no, Ready)];
    }

    method StartThreads(running0: int, count: nat) returns (running: int, ghost started: seq<Worker>)
      modifies this`threads, this`workers, this`activeCount
      ensures running == (if running0 < count then count else running0) && |started| == running - running0
      ensures workers == old(workers) + started && threads == old(threads) + Numbers(started)
      ensures activeCount == old(activeCount) + |started|
      ensures DistinctNumbers(started)
      ensures forall w :: w in started ==> w.pc.Ready? && w.no !in old(threads)
    {
      hide Numbers, DistinctNumbers;
      var threadNo := 0;
      running, started := running0, [];
      NoNumbers();
      while running < count
        invariant workers == old(workers) + started && threads == old(threads) + Numbers(started)
        invariant activeCount == old(activeCount) + |started|
        invariant running == running0 + |started| && (started != [] ==> running <= count)
        invariant DistinctNumbers(started)
        invariant forall w :: w in started ==> w.pc.Ready? && w.no !in old(threads) && w.no < threadNo
        decreases count - running
      {
        ghost var before := started;
        var no;
        no, started := StartThread(threadNo, started);
        assert old(workers) + before + [Worker(no, Ready)] == old(workers) + started;
        running := running + 1;
        threadNo := no + 1;
      }
    }

    method SetThreadCount(count: nat)
      modifies this
      ensures Step(old(Now()), SetCountEvent(count), Now())
    {
      hide Numbers, DistinctNumbers;
      var running, started := StartThreads(|threads| - stopCount, count);
      assert workers[|old(workers)|..] == started;
      assert |old(threads)| - stopCount > count ==> started == [];
      NoNumbers();
      target := count;
      if running > count {
        assert old(workers) + started == old(workers);
        stopCount := stopCount + (running - count);
        workers := WakeAll(workers);
      }
    }

    /** What `shutdown` does to the tasks that are left, after its wait for the threads. */
    method CancelPendingTasks()
      modifies this
      ensures Step(old(Now()), CancelEvent, Now())
    {
      ghost var before := queue;
      while queue != []
        invariant |queue| <= |before| && queue == before[|before| - |queue|..]
        invariant fates == old(fates) + CancelAll(before[..|before| - |queue|])
        invariant Now() == old(Now()).(queue := queue, fates := fates)
        decreases |queue|
      {
        ghost var k := |before| - |queue|;
        assert CancelAll(before[..k + 1]) == CancelAll(before[..k]) + [Cancelled(before[k])];
        fates := fates + [Cancelled(queue[0])];
        queue := queue[1..];
      }
      assert before[..|before|] == before;
      workers := WakeAll(workers);
    }
  }

  lemma NoNumbers()
    ensures Numbers([]) == {} && DistinctNumbers([])
  {
  }

  lemma SmallerAbove(threads: set<nat>, no: nat)
    requires no in threads
    ensures |set t | t in threads && t >= no + 1| < |set t | t in threads && t >= no|
  {
    var a := set t | t in threads && t >= no + 1;
    var b := set t | t in threads && t >= no;
    assert b == a + {no};
  }

  lemma StartOne(started: seq<Worker>, no: nat)
    requires DistinctNumbers(started) && forall w :: w in started ==> w.no < no
    ensures var next := started + [Worker(no, Ready)];
      DistinctNumbers(next) && Numbers(next) == Numbers(started) + {no}
  {
    var one := [Worker(no, Ready)];
    assert Numbers(one) == {no} by {
      assert one[0].no == no;
    }
    forall n | n in Numbers(started) ensures n != no {
      var i :| 0 <= i < |started| && !started[i].pc.Exited? && started[i].no == n;
      assert started[i] in started;
    }
    NumbersAppend(started, one);
  }
}
