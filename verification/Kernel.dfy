// kernel/thread.c as it runs: one object whose fields are the file's globals,
// with the run-queue bitmap and the waiter counts that Scheduler.dfy leaves out.
// Every method is proved to compute the corresponding function of Scheduler.
module Kernel {
  import opened Basics
  import opened Scheduler
  import opened Bits

  // ------------------------------------------------------------- the bitmap

  /** The complement of 1 << p. */
  function OffMask(p: nat): nat
    requires p < NUM_PRIORITIES
  {
    Pow2Monotone(p, NUM_PRIORITIES);
    Not(Pow2(p), NUM_PRIORITIES)
  }

  /** Zero bits of b from bit p down to the first one that is set. */
  function LeadingZeros(b: nat, p: int): (n: nat)
    requires -1 <= p < NUM_PRIORITIES
    ensures n <= p + 1
    decreases p + 1
  {
    if p == -1 || Bit(b, p) then 0 else 1 + LeadingZeros(b, p - 1)
  }

  /** __builtin_clz. */
  function Clz(b: nat): nat {
    LeadingZeros(b, 31)
  }

  ghost predicate BitmapOk(b: nat, rq: seq<seq<Tid>>)
    requires |rq| == NUM_PRIORITIES
  {
    b < Pow2(NUM_PRIORITIES) &&
    forall p: nat :: p < NUM_PRIORITIES ==> (Bit(b, p) <==> rq[p] != [])
  }

  /** The bitmap and clz find the queue that the disabled linear scan would find. */
  lemma {:induction false} ClzIsScan(b: nat, rq: seq<seq<Tid>>, p: int)
    requires -1 <= p < |rq| == NUM_PRIORITIES && BitmapOk(b, rq)
    ensures p - LeadingZeros(b, p) == Scan(rq, p)
    decreases p + 1
  {
    if p == -1 || Bit(b, p) {
    } else {
      ClzIsScan(b, rq, p - 1);
    }
  }

  lemma BitmapGrows(b: nat, rq: seq<seq<Tid>>, rq': seq<seq<Tid>>, p: nat)
    requires |rq| == |rq'| == NUM_PRIORITIES && p < NUM_PRIORITIES && BitmapOk(b, rq)
    requires rq' == rq[p := rq'[p]] && rq'[p] != []
    ensures BitmapOk(Or(b, Pow2(p)), rq')
  {
    Pow2Monotone(p, NUM_PRIORITIES);
    OrBound(b, Pow2(p), NUM_PRIORITIES);
    forall k: nat | k < NUM_PRIORITIES
      ensures Bit(Or(b, Pow2(p)), k) <==> rq'[k] != []
    {
      OrBit(b, Pow2(p), k);
      Pow2Bit(p, k);
    }
  }

  lemma BitmapShrinks(b: nat, rq: seq<seq<Tid>>, rq': seq<seq<Tid>>, p: nat)
    requires |rq| == |rq'| == NUM_PRIORITIES && p < NUM_PRIORITIES && BitmapOk(b, rq)
    requires rq' == rq[p := []]
    ensures BitmapOk(And(b, OffMask(p)), rq')
  {
    Pow2Monotone(p, NUM_PRIORITIES);
    AndBound(b, OffMask(p));
    forall k: nat | k < NUM_PRIORITIES
      ensures Bit(And(b, OffMask(p)), k) <==> rq'[k] != []
    {
      AndBit(b, OffMask(p), k);
      NotBit(Pow2(p), NUM_PRIORITIES, k);
      Pow2Bit(p, k);
    }
  }

  lemma BitmapKept(b: nat, rq: seq<seq<Tid>>, rq': seq<seq<Tid>>, p: nat)
    requires |rq| == |rq'| == NUM_PRIORITIES && p < NUM_PRIORITIES && BitmapOk(b, rq)
    requires rq' == rq[p := rq'[p]] && rq[p] != [] && rq'[p] != []
    ensures BitmapOk(b, rq')
  {
  }

  lemma EmptyBitmap(rq: seq<seq<Tid>>)
    requires |rq| == NUM_PRIORITIES && forall p :: 0 <= p < NUM_PRIORITIES ==> rq[p] == []
    ensures BitmapOk(0, rq)
  {
    forall k: nat | k < NUM_PRIORITIES
      ensures !Bit(0, k)
    {
      ZeroBits(k);
    }
  }

  // ------------------------------------------------------------- the kernel state

  /** wait_queue_t. */
  datatype WaitQueue = WaitQueue(list: seq<Tid>, count: int)

  ghost function Lists(w: map<Qid, WaitQueue>): (m: map<Qid, seq<Tid>>)
    ensures m.Keys == w.Keys
  {
    map q | q in w :: w[q].list
  }

  lemma ListsUpdate(w: map<Qid, WaitQueue>, q: Qid, x: WaitQueue)
    ensures Lists(w[q := x]) == Lists(w)[q := x.list]
  {
  }

  lemma SetTwice(m: map<Tid, Thread>, t: Tid, x: Thread, y: Thread)
    ensures m[t := x][t := y] == m[t := y]
  {
  }

  lemma ReschedIs(s: Sched)
    requires Switching(s)
    ensures var p := Scan(s.runQueue, HIGHEST_PRIORITY);
      0 <= p < |s.runQueue| && s.runQueue[p] != [] && s.runQueue[p][0] in s.threads
    ensures var p := Scan(s.runQueue, HIGHEST_PRIORITY); var t := s.runQueue[p][0];
      var th := s.threads[t].(state := Running);
      Resched(s) == s.(runQueue := s.runQueue[p := s.runQueue[p][1..]], current := t,
                       threads := s.threads[t := if t != s.current && th.quantum <= 0 then th.(quantum := 5) else th])
  {
    hide Inv, QueuesOk, NobodyOutranks, Scan;
    QueueCount(s);
    ReschedOk(s);
  }

  class ThreadSystem {
    var threads: map<Tid, Thread>
    var runQueue: seq<seq<Tid>>
    var runQueueBitmap: nat
    var waitQueues: map<Qid, WaitQueue>
    var currentThread: Tid
    var idleThread: Option<Tid>
    const bootstrapThread: Tid

    ghost function Abs(): Sched
      reads this
    {
      Sched(threads, runQueue, Lists(waitQueues), currentThread, bootstrapThread, idleThread)
    }

    /** The redundant fields agree with the queues. */
    ghost predicate Consistent()
      reads this`runQueue, this`runQueueBitmap, this`waitQueues
    {
      && |runQueue| == NUM_PRIORITIES
      && BitmapOk(runQueueBitmap, runQueue)
      && forall q :: q in waitQueues ==> waitQueues[q].count == |waitQueues[q].list|
    }

    ghost predicate Valid()
      reads this
    {
      Consistent() && Inv(Abs())
    }

    /** thread_init_early. */
    constructor (b: Tid)
      ensures Valid() && Abs() == Scheduler.Boot(b)
    {
      threads := map[b := Thread(HIGHEST_PRIORITY, Running, 0, None, NoError)];
      hide Inv;
      runQueue := seq(NUM_PRIORITIES, _ => []);
      runQueueBitmap := 0;
      waitQueues := map[];
      currentThread := b;
      idleThread := None;
      bootstrapThread := b;
      new;
      assert Lists(waitQueues) == map[];
      EmptyBitmap(runQueue);
      assert Abs() == Scheduler.Boot(b);
    }

    method InsertInRunQueueHead(t: Tid)
      requires Consistent() && t in threads && 0 <= threads[t].priority < NUM_PRIORITIES
      modifies this`runQueue, this`runQueueBitmap
      ensures Consistent() && Abs() == Insert(old(Abs()), t, true)
    {
      hide BitmapOk;
      var p := threads[t].priority;
      runQueue := runQueue[p := [t] + runQueue[p]];
      BitmapGrows(runQueueBitmap, old(runQueue), runQueue, p);
      runQueueBitmap := Or(runQueueBitmap, Pow2(p));
    }

    method InsertInRunQueueTail(t: Tid)
      requires Consistent() && t in threads && 0 <= threads[t].priority < NUM_PRIORITIES
      modifies this`runQueue, this`runQueueBitmap
      ensures Consistent() && Abs() == Insert(old(Abs()), t, false)
    {
      hide BitmapOk;
      var p := threads[t].priority;
      runQueue := runQueue[p := runQueue[p] + [t]];
      BitmapGrows(runQueueBitmap, old(runQueue), runQueue, p);
      runQueueBitmap := Or(runQueueBitmap, Pow2(p));
    }

    method ThreadResched()
      requires Consistent() && Switching(Abs())
      modifies this
      ensures Valid() && Abs() == Resched(old(Abs()))
    {
      hide BitmapOk, Inv, Switching, QueuesOk, NobodyOutranks, Resched, Scan, LeadingZeros, And, OffMask;
      ReschedOk(Abs());
      ReschedIs(Abs());
      ClzIsScan(runQueueBitmap, runQueue, HIGHEST_PRIORITY);
      var oldThread := currentThread;
      var nextQueue: nat := HIGHEST_PRIORITY - Clz(runQueueBitmap) - (32 - NUM_PRIORITIES);
      var newThread := runQueue[nextQueue][0];
      runQueue := runQueue[nextQueue := runQueue[nextQueue][1..]];
      if runQueue[nextQueue] == [] {
        BitmapShrinks(runQueueBitmap, old(runQueue), runQueue, nextQueue);
        runQueueBitmap := And(runQueueBitmap, OffMask(nextQueue));
      } else {
        BitmapKept(runQueueBitmap, old(runQueue), runQueue, nextQueue);
      }
      SetTwice(threads, newThread, threads[newThread].(state := Running),
               threads[newThread].(state := Running, quantum := 5));
      threads := threads[newThread := threads[newThread].(state := Running)];
      if newThread == oldThread {
        assert Abs() == Resched(old(Abs()));
        return;
      }
      if threads[newThread].quantum <= 0 {
        threads := threads[newThread := threads[newThread].(quantum := 5)];
      }
      currentThread := newThread;
      assert Abs() == Resched(old(Abs()));
    }

    method ThreadCreate(t: Tid, priority: int)
      requires Valid() && t !in threads && 0 <= priority < NUM_PRIORITIES
      modifies this`threads
      ensures Valid() && Abs() == CreateThread(old(Abs()), t, priority)
    {
      InvFacts(Abs());
      hide Consistent, Inv, QueuesOk, Switching, NobodyOutranks;
      threads := threads[t := Thread(priority, Suspended, 0, None, NoError)];
      assert Abs() == CreateThread(old(Abs()), t, priority);
    }

    method ThreadResume(t: Tid) returns (r: Status)
      requires Valid() && t in threads && threads[t].state in {Suspended, Ready, Running}
      modifies this
      ensures Valid() && Abs() == ResumeThread(old(Abs()), t)
      ensures r == if old(threads)[t].state.Suspended? then NoError else NotSuspended
    {
      if threads[t].state.Ready? || threads[t].state.Running? {
        return NotSuspended;
      }
      MakeReadyOk(Abs(), t, true);
      threads := threads[t := threads[t].(state := Ready)];
      InsertInRunQueueHead(t);
      ThreadYield();
      return NoError;
    }

    /** thread_cleanup_dpc. */
    method ThreadCleanup(t: Tid)
      requires Valid() && t in threads && threads[t].state.Death?
      modifies this`threads
      ensures Valid() && Abs() == Reaped(old(Abs()), t)
    {
      hide Consistent, Inv, QueuesOk;
      threads := threads - {t};
      assert Abs() == Reaped(old(Abs()), t);
    }

    method ThreadYield()
      requires Valid()
      modifies this
      ensures Valid() && Abs() == YieldTo(old(Abs()))
    {
      hide Consistent, Inv, QueuesOk, Switching, NobodyOutranks, Resched;
      InvFacts(Abs());
      GivenUpOk(Abs());
      ghost var s1 := GivenUp(Abs());
      threads := threads[currentThread := threads[currentThread].(state := Ready)];
      threads := threads[currentThread := threads[currentThread].(quantum := 0)];
      InsertInRunQueueTail(currentThread);
      assert Abs().threads == s1.threads;
      assert Abs() == s1;
      ThreadResched();
    }

    method ThreadPreempt()
      requires Valid()
      modifies this
      ensures Valid() && Abs() == PreemptTo(old(Abs()))
    {
      hide Consistent, Inv, QueuesOk, Switching, NobodyOutranks, Resched;
      InvFacts(Abs());
      MakeReadyOk(Abs(), currentThread, threads[currentThread].quantum > 0);
      threads := threads[currentThread := threads[currentThread].(state := Ready)];
      if threads[currentThread].quantum > 0 {
        InsertInRunQueueHead(currentThread);
      } else {
        InsertInRunQueueTail(currentThread);
      }
      ThreadResched();
    }

    /** The current thread has already been given a state and a queue. */
    method ThreadBlock()
      requires Consistent() && Switching(Abs())
      modifies this
      ensures Valid() && Abs() == Resched(old(Abs()))
    {
      ThreadResched();
    }

    method ThreadTimerTick() returns (reschedule: bool)
      requires Valid()
      modifies this`threads
      ensures Valid() && Abs() == TickCurrent(old(Abs()))
      ensures reschedule <==> idleThread != Some(currentThread) && threads[currentThread].quantum <= 0
    {
      InvFacts(Abs());
      hide Consistent, Inv, QueuesOk, Switching, NobodyOutranks;
      if idleThread == Some(currentThread) {
        return false;
      }
      threads := threads[currentThread := threads[currentThread].(quantum := threads[currentThread].quantum - 1)];
      assert Abs() == TickCurrent(old(Abs()));
      return threads[currentThread].quantum <= 0;
    }

    method ThreadSleepHandler(t: Tid)
      requires Valid() && t in threads && threads[t].state.Sleeping?
      modifies this
      ensures Valid() && Abs() == WakeSleeper(old(Abs()), t)
    {
      MakeReadyOk(Abs(), t, true);
      threads := threads[t := threads[t].(state := Ready)];
      InsertInRunQueueHead(t);
    }

    /** Arming the one-shot timer is Timer.dfy's; its firing is ThreadSleepHandler. */
    method ThreadSleep()
      requires Valid() && currentThread != bootstrapThread
      modifies this
      ensures Valid() && Abs() == LeaveTo(old(Abs()), Sleeping)
    {
      hide Consistent, Inv, QueuesOk, Switching, NobodyOutranks, Resched;
      InvFacts(Abs());
      ghost var s1 := SetThread(Abs(), currentThread, threads[currentThread].(state := Sleeping));
      LeavingOk(Abs(), Sleeping);
      threads := threads[currentThread := threads[currentThread].(state := Sleeping)];
      assert Abs() == s1;
      ThreadResched();
    }

    method ThreadSetPriority(priority: int)
      requires Valid()
      modifies this`threads
      ensures Valid() && Abs() == Reprioritize(old(Abs()), ClampPriority(priority))
    {
      InvFacts(Abs());
      hide Consistent, Inv, QueuesOk;
      var p := priority;
      if p < LOWEST_PRIORITY {
        p := LOWEST_PRIORITY;
      }
      if p > HIGHEST_PRIORITY {
        p := HIGHEST_PRIORITY;
      }
      threads := threads[currentThread := threads[currentThread].(priority := p)];
      assert Abs() == Reprioritize(old(Abs()), ClampPriority(priority));
    }

    method ThreadBecomeIdle()
      requires Valid()
      modifies this`threads, this`idleThread
      ensures Valid() && Abs() == TurnIdle(old(Abs()))
    {
      hide Consistent, Inv, QueuesOk;
      ThreadSetPriority(IDLE_PRIORITY);
      idleThread := Some(currentThread);
      assert Abs() == TurnIdle(old(Abs()));
    }

    method WaitQueueInit(q: Qid)
      requires Valid() && q !in waitQueues
      modifies this`waitQueues
      ensures Valid() && Abs() == AddQueue(old(Abs()), q)
    {
      hide BitmapOk, Inv, QueuesOk;
      ListsUpdate(waitQueues, q, WaitQueue([], 0));
      waitQueues := waitQueues[q := WaitQueue([], 0)];
      assert Abs() == AddQueue(old(Abs()), q);
    }

    /** Up to the switch; true when the call returned ERR_TIMED_OUT without blocking. */
    method WaitQueueBlock(q: Qid, timeout: Timeout) returns (timedOut: bool)
      requires Valid() && q in waitQueues && (timeout.Zero? || currentThread != bootstrapThread)
      modifies this
      ensures Valid() && Abs() == Block(old(Abs()), q, timeout)
      ensures timedOut == timeout.Zero?
    {
      hide BitmapOk, Inv, QueuesOk, Switching, NobodyOutranks, Resched;
      if timeout.Zero? {
        return true;
      }
      InvFacts(Abs());
      ParkedOk(Abs(), q);
      var w := WaitQueue(waitQueues[q].list + [currentThread], waitQueues[q].count + 1);
      ListsUpdate(waitQueues, q, w);
      waitQueues := waitQueues[q := w];
      threads := threads[currentThread :=
        threads[currentThread].(state := Blocked, waitingOn := Some(q), blockRet := NoError)];
      assert Abs() == Parked(old(Abs()), q);
      ThreadBlock();
      return false;
    }

    /** The part of both wake-up loops that moves the head of q to its run queue. */
    method PopWaiter(q: Qid, ret: Status)
      requires Consistent() && QueuesOk(Abs()) && q in waitQueues && waitQueues[q].list != []
      modifies this
      ensures Consistent() && Abs() == Wake(old(Abs()), q, 0, ret)
      ensures waitQueues.Keys == old(waitQueues.Keys) && waitQueues[q].list == old(waitQueues[q].list[1..])
    {
      hide BitmapOk, Inv, QueuesOk, Switching;
      WakeOk(Abs(), q, 0, ret);
      var t := waitQueues[q].list[0];
      var w := WaitQueue(waitQueues[q].list[1..], waitQueues[q].count - 1);
      assert RemoveAt(waitQueues[q].list, 0) == w.list;
      ListsUpdate(waitQueues, q, w);
      waitQueues := waitQueues[q := w];
      threads := threads[t := threads[t].(state := Ready, waitingOn := None, blockRet := ret)];
      InsertInRunQueueHead(t);
      assert Abs() == Wake(old(Abs()), q, 0, ret);
    }

    method WaitQueueWakeOne(q: Qid, reschedule: bool, ret: Status) returns (woken: int)
      requires Valid() && q in waitQueues
      modifies this
      ensures Valid() && Abs() == WakeFirst(old(Abs()), q, reschedule, ret)
      ensures woken == if old(waitQueues[q].list) == [] then 0 else 1
    {
      hide BitmapOk, Inv, QueuesOk, Switching, Wake, Resched;
      InvFacts(Abs());
      if waitQueues[q].list == [] {
        return 0;
      }
      if reschedule {
        MakeReadyOk(Abs(), currentThread, true);
        threads := threads[currentThread := threads[currentThread].(state := Ready)];
        InsertInRunQueueHead(currentThread);
      }
      WakeOk(Abs(), q, 0, ret);
      PopWaiter(q, ret);
      if reschedule {
        ThreadResched();
      }
      return 1;
    }

    /** The loop of wait_queue_wake_all. */
    method PopAllWaiters(q: Qid, ret: Status) returns (woken: int)
      requires Consistent() && QueuesOk(Abs()) && q in waitQueues
      modifies this
      ensures Consistent() && Abs() == Drain(old(Abs()), q, ret)
      ensures woken == |old(waitQueues[q].list)|
    {
      hide Consistent, RunQueuesOk, WaitQueuesOk, BootOk;
      woken := 0;
      while waitQueues[q].list != []
        invariant Consistent() && QueuesOk(Abs()) && q in waitQueues
        invariant Drain(Abs(), q, ret) == Drain(old(Abs()), q, ret)
        invariant woken + |waitQueues[q].list| == |old(waitQueues[q].list)|
        decreases |waitQueues[q].list|
      {
        WakeOk(Abs(), q, 0, ret);
        PopWaiter(q, ret);
        woken := woken + 1;
      }
    }

    method WaitQueueWakeAll(q: Qid, reschedule: bool, ret: Status) returns (woken: int)
      requires Valid() && q in waitQueues
      modifies this
      ensures Valid() && Abs() == WakeEvery(old(Abs()), q, reschedule, ret)
      ensures woken == |old(waitQueues[q].list)|
    {
      hide BitmapOk, NobodyOutranks, QueuesOk, Inv, Switching, Drain, Resched;
      InvFacts(Abs());
      if reschedule && waitQueues[q].count > 0 {
        MakeReadyOk(Abs(), currentThread, true);
        threads := threads[currentThread := threads[currentThread].(state := Ready)];
        InsertInRunQueueHead(currentThread);
      }
      woken := PopAllWaiters(q, ret);
      if reschedule && woken > 0 {
        ThreadResched();
      }
      assert Abs() == WakeEvery(old(Abs()), q, reschedule, ret);
    }

    /** thread_unblock_from_wait_queue with reschedule == false, as the timeout handler calls it. */
    method ThreadUnblockFromWaitQueue(t: Tid, ret: Status) returns (r: Status)
      requires Valid() && t in threads
      modifies this
      ensures Valid() && Abs() == UnblockThread(old(Abs()), t, ret)
      ensures r == if old(threads[t].state).Blocked? then NoError else NotBlocked
    {
      hide BitmapOk, Inv, QueuesOk, Insert, IndexOf, RemoveAt;
      if !threads[t].state.Blocked? {
        return NotBlocked;
      }
      InvFacts(Abs());
      UnblockKept(Abs(), t, ret, t);
      var q := threads[t].waitingOn.value;
      var i := IndexOf(waitQueues[q].list, t);
      WakeOk(Abs(), q, i, ret);
      var w := WaitQueue(RemoveAt(waitQueues[q].list, i), waitQueues[q].count - 1);
      ListsUpdate(waitQueues, q, w);
      waitQueues := waitQueues[q := w];
      threads := threads[t := threads[t].(state := Ready, waitingOn := None, blockRet := ret)];
      InsertInRunQueueHead(t);
      assert Abs() == UnblockThread(old(Abs()), t, ret);
      return NoError;
    }
  }
}
