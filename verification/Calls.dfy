// kernel/thread.c call by call: what each call does to the threads and queues, in plain
// terms, and what follows from it.
module Calls {
  import opened Basics
  import opened Scheduler

  // ------------------------------------------------------------- the switch

  /** What runs is the head of the highest queue that is not empty, and it is off that queue. */
  ghost predicate Dispatched(rq: seq<seq<Tid>>, r: Sched) {
    exists p: nat ::
      && p < |rq| && rq[p] != [] && (forall k :: p < k < |rq| ==> rq[k] == [])
      && r.current == rq[p][0] && r.runQueue == rq[p := rq[p][1..]]
  }

  /** It is RUNNING, with a fresh time slice of five ticks if it is not the caller and had used up its last one. */
  ghost predicate Resumed(threads: map<Tid, Thread>, caller: Tid, r: Sched) {
    && r.current in threads
    && var th := threads[r.current];
       var slice := if r.current != caller && th.quantum <= 0 then 5 else th.quantum;
       r.threads == threads[r.current := th.(state := Running, quantum := slice)]
  }

  /** The call switches, with these run queues and threads before the switch. */
  ghost predicate Switches(s: Sched, rq: seq<seq<Tid>>, threads: map<Tid, Thread>, r: Sched) {
    && Dispatched(rq, r) && Resumed(threads, s.current, r) && NobodyOutranks(r)
    && r.boot == s.boot && r.idle == s.idle
  }

  lemma ReschedSwitches(s: Sched)
    requires Switching(s)
    ensures Switches(s, s.runQueue, s.threads, Resched(s)) && Resched(s).waiters == s.waiters
  {
    ReschedOk(s);
    QueueCount(s);
    hide QueuesOk, NobodyOutranks, Inv;
    var p := Scan(s.runQueue, HIGHEST_PRIORITY);
    assert forall k :: p < k < |s.runQueue| ==> s.runQueue[k] == [];
    var th, r := s.threads[s.runQueue[p][0]], Resched(s);
    assert r == SwitchTo(s, p);
  }

  /** At boot one thread runs, with the highest priority and no time slice, and every queue is empty. */
  lemma BootEffect(b: Tid)
    ensures var s := Boot(b);
      && s.threads == map[b := Thread(31, Running, 0, None, NoError)] && s.current == b && s.boot == b
      && |s.runQueue| == 32 && (forall p :: 0 <= p < 32 ==> s.runQueue[p] == [])
      && s.waiters == map[] && s.idle == None
  {
  }

  // ------------------------------------------------------------- calls that may switch

  lemma YieldEffect(s: Sched)
    requires Inv(s)
    ensures var c := s.current; var p := s.threads[c].priority; var r := Next(s, Yield);
      && 0 <= p < |s.runQueue| && r.waiters == s.waiters
      && Switches(s, s.runQueue[p := s.runQueue[p] + [c]],
                  s.threads[c := s.threads[c].(state := Ready, quantum := 0)], r)
  {
    hide Inv, QueuesOk, Switching, NobodyOutranks, Resched;
    InvFacts(s);
    GivenUpOk(s);
    ReschedSwitches(GivenUp(s));
    var c := s.current;
    assert GivenUp(s).threads == s.threads[c := s.threads[c].(state := Ready, quantum := 0)];
  }

  lemma PreemptEffect(s: Sched)
    requires Inv(s)
    ensures var c := s.current; var p := s.threads[c].priority; var l := s.runQueue[p]; var r := Next(s, Preempt);
      && 0 <= p < |s.runQueue| && r.waiters == s.waiters
      && Switches(s, s.runQueue[p := if s.threads[c].quantum > 0 then [c] + l else l + [c]],
                  s.threads[c := s.threads[c].(state := Ready)], r)
  {
    hide Inv, QueuesOk, Switching, NobodyOutranks, Resched;
    InvFacts(s);
    MakeReadyOk(s, s.current, s.threads[s.current].quantum > 0);
    ReschedSwitches(MakeReady(s, s.current, s.threads[s.current].quantum > 0));
  }

  lemma LeaveEffect(s: Sched, op: Op)
    requires Inv(s) && s.current != s.boot && (op.Sleep? || op.Exit?)
    ensures var c := s.current; var r := Next(s, op);
      && r.waiters == s.waiters
      && Switches(s, s.runQueue, s.threads[c := s.threads[c].(state := if op.Sleep? then Sleeping else Death)], r)
  {
    hide QueuesOk, NobodyOutranks, Resched;
    var st := if op.Sleep? then Sleeping else Death;
    LeavingOk(s, st);
    ReschedSwitches(SetThread(s, s.current, s.threads[s.current].(state := st)));
  }

  /** A resumed thread goes in front of the others of its priority, and the caller behind the others of its own. */
  lemma ResumeEffect(s: Sched, t: Tid)
    requires Inv(s) && t in s.threads && s.threads[t].state in {Suspended, Ready, Running}
    ensures var c := s.current; var r := Next(s, Resume(t)); var pt, pc := s.threads[t].priority, s.threads[c].priority;
      && 0 <= pt < |s.runQueue| && 0 <= pc < |s.runQueue|
      && (!s.threads[t].state.Suspended? ==> r == s)
      && (s.threads[t].state.Suspended? ==>
            var rq := s.runQueue[pt := [t] + s.runQueue[pt]];
            var ths := s.threads[t := s.threads[t].(state := Ready)];
            && r.waiters == s.waiters
            && Switches(s, rq[pc := rq[pc] + [c]], ths[c := s.threads[c].(state := Ready, quantum := 0)], r))
  {
    hide QueuesOk, Switching, NobodyOutranks, Resched;
    InvFacts(s);
    if s.threads[t].state.Suspended? {
      MakeReadyOk(s, t, true);
      var s1 := MakeReady(s, t, true);
      assert s1.threads == s.threads[t := s.threads[t].(state := Ready)];
      YieldEffect(s1);
    }
  }

  lemma BlockEffect(s: Sched, q: Qid, timeout: Timeout)
    requires Inv(s) && q in s.waiters && (timeout.Zero? || s.current != s.boot)
    ensures var c := s.current; var r := Next(s, BlockOn(q, timeout));
      && (timeout.Zero? ==> r == s)
      && (!timeout.Zero? ==>
            && r.waiters == s.waiters[q := s.waiters[q] + [c]]
            && Switches(s, s.runQueue,
                        s.threads[c := s.threads[c].(state := Blocked, waitingOn := Some(q), blockRet := NoError)], r))
  {
    hide QueuesOk, NobodyOutranks, Resched, Switching;
    if !timeout.Zero? {
      ParkedOk(s, q);
      ReschedSwitches(Parked(s, q));
    }
  }

  // ------------------------------------------------------------- calls that do not switch

  lemma CreateEffect(s: Sched, t: Tid, p: int)
    requires Inv(s) && t !in s.threads && 0 <= p < NUM_PRIORITIES
    ensures Next(s, Create(t, p)) == s.(threads := s.threads[t := Thread(p, Suspended, 0, None, NoError)])
  {
  }

  lemma InitQueueEffect(s: Sched, q: Qid)
    requires Inv(s) && q !in s.waiters
    ensures Next(s, InitQueue(q)) == s.(waiters := s.waiters[q := []])
  {
  }

  /** A tick takes one from the quantum of the running thread, unless that is the idle thread. */
  lemma TickEffect(s: Sched)
    requires Inv(s)
    ensures var c := s.current; var r := Next(s, Tick);
      if s.idle == Some(c) then r == s
      else r == s.(threads := s.threads[c := s.threads[c].(quantum := s.threads[c].quantum - 1)])
  {
  }

  lemma SleepDoneEffect(s: Sched, t: Tid)
    requires Inv(s) && t in s.threads && s.threads[t].state.Sleeping?
    ensures var p := s.threads[t].priority;
      && 0 <= p < |s.runQueue|
      && Next(s, SleepDone(t)) ==
         s.(threads := s.threads[t := s.threads[t].(state := Ready)], runQueue := s.runQueue[p := [t] + s.runQueue[p]])
  {
    hide QueuesOk;
    InvFacts(s);
  }

  lemma ReapEffect(s: Sched, t: Tid)
    requires Inv(s) && t in s.threads && s.threads[t].state.Death?
    ensures Next(s, Reap(t)) == s.(threads := map u | u in s.threads && u != t :: s.threads[u])
  {
  }

  /** A priority out of range becomes the nearest one in range. */
  lemma PriorityEffect(s: Sched, p: int)
    requires Inv(s)
    ensures var c := s.current; var r := Next(s, SetPriority(p)); var p' := r.threads[c].priority;
      && r == s.(threads := s.threads[c := s.threads[c].(priority := p')])
      && 0 <= p' <= 31 && (0 <= p <= 31 ==> p' == p) && (p < 0 ==> p' == 0) && (p > 31 ==> p' == 31)
  {
    hide QueuesOk;
    InvFacts(s);
  }

  lemma IdleEffect(s: Sched)
    requires Inv(s)
    ensures var c := s.current;
      Next(s, BecomeIdle) == s.(threads := s.threads[c := s.threads[c].(priority := 0)], idle := Some(c))
  {
  }

  lemma UnblockEffect(s: Sched, t: Tid, ret: Status)
    requires Inv(s) && t in s.threads
    ensures var r := Next(s, Unblock(t, ret)); var p := s.threads[t].priority;
      && 0 <= p < |s.runQueue|
      && (!s.threads[t].state.Blocked? ==> r == s)
      && (s.threads[t].state.Blocked? ==>
            && s.threads[t].waitingOn.Some? && s.threads[t].waitingOn.value in s.waiters
            && var q := s.threads[t].waitingOn.value;
            exists i :: 0 <= i < |s.waiters[q]| && s.waiters[q][i] == t &&
              r == s.(waiters := s.waiters[q := s.waiters[q][..i] + s.waiters[q][i+1..]],
                      runQueue := s.runQueue[p := [t] + s.runQueue[p]],
                      threads := s.threads[t := s.threads[t].(state := Ready, waitingOn := None, blockRet := ret)]))
  {
    InvFacts(s);
    if s.threads[t].state.Blocked? {
      UnblockKept(s, t, ret, t);
      hide QueuesOk, Inv;
      var q := s.threads[t].waitingOn.value;
      var i := IndexOf(s.waiters[q], t);
      assert s.waiters[q][i] == t;
    }
  }

  // ------------------------------------------------------------- waking

  lemma WakeOneEffect(s: Sched, q: Qid, reschedule: bool, ret: Status)
    requires Inv(s) && q in s.waiters && s.waiters[q] != []
    ensures var c := s.current; var w := s.waiters[q][0]; var r := Next(s, WakeOne(q, reschedule, ret));
      && w in s.threads && 0 <= s.threads[w].priority < |s.runQueue| && 0 <= s.threads[c].priority < |s.runQueue|
      && var pw, pc := s.threads[w].priority, s.threads[c].priority;
         var woken := s.threads[w].(state := Ready, waitingOn := None, blockRet := ret);
         && r.waiters == s.waiters[q := s.waiters[q][1..]]
         && (reschedule ==>
               var rq := s.runQueue[pc := [c] + s.runQueue[pc]];
               Switches(s, rq[pw := [w] + rq[pw]], s.threads[c := s.threads[c].(state := Ready)][w := woken], r))
         && (!reschedule ==>
               var rq := s.runQueue[pw := [w] + s.runQueue[pw]];
               r == s.(waiters := r.waiters, runQueue := rq, threads := s.threads[w := woken]))
  {
    hide QueuesOk, NobodyOutranks, Resched, Switching;
    InvFacts(s);
    WakeEffect(s, q, ret);
    WokenIsNew(s, q);
    WakeOk(s, q, 0, ret);
    if reschedule {
      MakeReadyOk(s, s.current, true);
      var s1 := MakeReady(s, s.current, true);
      WakeEffect(s1, q, ret);
      WakeOk(s1, q, 0, ret);
      ReschedSwitches(Wake(s1, q, 0, ret));
    }
  }

  /**
   * The line at priority p once everybody on q has been woken: the waiters of that priority,
   * the last first, then the caller if it asked for a reschedule, then the others.
   */
  ghost function Line(s: Sched, q: Qid, reschedule: bool, p: nat): seq<Tid>
    requires Inv(s) && q in s.waiters && p < NUM_PRIORITIES
  {
    WaitersExist(s, q);
    var c := s.current;
    var caller := if reschedule && s.threads[c].priority == p then [c] else [];
    Reversed(OfPriority(s, s.waiters[q], p)) + (caller + s.runQueue[p])
  }

  /** Waking everybody without a reschedule: the caller stays, and everybody is in line. */
  lemma WakeAllQuietly(s: Sched, q: Qid, ret: Status, p: nat)
    requires Inv(s) && q in s.waiters && p < NUM_PRIORITIES
    ensures var r := Next(s, WakeAll(q, false, ret));
      r.current == s.current && r.runQueue[p] == Line(s, q, false, p) && r.waiters == s.waiters[q := []]
  {
    hide QueuesOk, Drain;
    InvFacts(s);
    DrainReversesWaiters(s, q, ret, p);
    assert [] + s.runQueue[p] == s.runQueue[p];
  }

  /** With a reschedule the switch finds everybody in line, the caller too. */
  lemma WakeAllLines(s: Sched, q: Qid, ret: Status, p: nat)
    requires Inv(s) && q in s.waiters && s.waiters[q] != [] && p < NUM_PRIORITIES
    ensures var s1 := MakeReady(s, s.current, true);
      && Switching(s1) && q in s1.waiters && Switching(Drain(s1, q, ret))
      && Drain(s1, q, ret).runQueue[p] == Line(s, q, true, p)
      && Next(s, WakeAll(q, true, ret)) == Resched(Drain(s1, q, ret))
      && Drain(s1, q, ret).waiters == s.waiters[q := []] && Drain(s1, q, ret).current == s.current
  {
    hide QueuesOk, Drain, Inv, NobodyOutranks, Resched;
    InvFacts(s);
    MakeReadyOk(s, s.current, true);
    var s1 := MakeReady(s, s.current, true);
    QueueCount(s1);
    WaitersExist(s, q);
    OfPrioritySame(s, s1, s.waiters[q], p);
    DrainReversesWaiters(s1, q, ret, p);
    assert s1.runQueue[p] == (if s.threads[s.current].priority == p then [s.current] else []) + s.runQueue[p];
  }

  /** The thread taken is the first of the highest line; the lines stay otherwise. */
  lemma WakeAllSwitches(s: Sched, q: Qid, ret: Status) returns (best: nat)
    requires Inv(s) && q in s.waiters && s.waiters[q] != []
    ensures var r := Next(s, WakeAll(q, true, ret));
      && best < NUM_PRIORITIES && Line(s, q, true, best) == [r.current] + r.runQueue[best]
      && (forall k: nat :: k < NUM_PRIORITIES && k != best ==> r.runQueue[k] == Line(s, q, true, k))
      && (forall k :: best < k < NUM_PRIORITIES ==> Line(s, q, true, k) == [])
      && NobodyOutranks(r) && r.waiters == s.waiters[q := []]
      && r.current in r.threads && r.threads[r.current].priority == best
  {
    hide QueuesOk, Drain, Inv, NobodyOutranks, Resched, Line, Scan, Switching;
    InvFacts(s);
    WakeAllLines(s, q, ret, 0);
    MakeReadyOk(s, s.current, true);
    var s2 := Drain(MakeReady(s, s.current, true), q, ret);
    ReschedHasThread(s2);
    QueueCount(s2);
    forall k: nat | k < NUM_PRIORITIES
      ensures s2.runQueue[k] == Line(s, q, true, k)
    {
      WakeAllLines(s, q, ret, k);
    }
    best := Scan(s2.runQueue, HIGHEST_PRIORITY);
    ReschedFrom(s2, best);
    ReschedSwitches(s2);
    assert s2.runQueue[best] == [s2.runQueue[best][0]] + s2.runQueue[best][1..];
  }

  lemma {:induction false} LastOfPriority(s: Sched, l: seq<Tid>, i: nat)
    requires i < |l| && forall j :: 0 <= j < |l| ==> l[j] in s.threads
    requires forall j :: i < j < |l| ==> s.threads[l[j]].priority != s.threads[l[i]].priority
    ensures var o := OfPriority(s, l, s.threads[l[i]].priority); o != [] && o[|o| - 1] == l[i]
  {
    assert forall t :: t in l ==> t in s.threads;
    if i > 0 {
      LastOfPriority(s, l[1..], i - 1);
    } else {
      NoneOfPriority(s, l[1..], s.threads[l[0]].priority);
    }
  }

  lemma {:induction false} NoneOfPriority(s: Sched, l: seq<Tid>, p: int)
    requires forall t :: t in l ==> t in s.threads && s.threads[t].priority != p
    ensures OfPriority(s, l, p) == []
  {
    if l == [] {
    } else {
      assert l[0] in l;
      NoneOfPriority(s, l[1..], p);
    }
  }

  lemma {:induction false} ReversedHead<T>(l: seq<T>)
    requires l != []
    ensures Reversed(l) != [] && Reversed(l)[0] == l[|l| - 1]
  {
    if |l| == 1 {
    } else {
      ReversedHead(l[1..]);
    }
  }

  /** Waiter i has the highest priority of all waiters, and the later ones have lower priorities. */
  ghost predicate BestWaiter(s: Sched, q: Qid, i: nat)
    requires Inv(s) && q in s.waiters
  {
    var l := s.waiters[q];
    && i < |l| && (forall j :: 0 <= j < |l| ==> l[j] in s.threads)
    && (forall j :: 0 <= j < i ==> s.threads[l[j]].priority <= s.threads[l[i]].priority)
    && (forall j :: i < j < |l| ==> s.threads[l[j]].priority < s.threads[l[i]].priority)
  }
  lemma LineMembers(s: Sched, q: Qid, i: nat, p: nat)
    requires Inv(s) && q in s.waiters && s.waiters[q] != [] && p < NUM_PRIORITIES && BestWaiter(s, q, i)
    ensures s.waiters[q][i] in s.threads
    ensures var w := s.waiters[q][i]; var pw, pc := s.threads[w].priority, s.threads[s.current].priority;
      var l := Line(s, q, true, p);
      && 0 <= pw < NUM_PRIORITIES && 0 <= pc < NUM_PRIORITIES && w != s.current
      && (p == pw ==> l != [] && l[0] == w)
      && (p == pc ==> l != [])
      && (p > pw && p == pc ==> l == [s.current] + s.runQueue[p])
      && (p > pw && p != pc ==> l == s.runQueue[p])
  {
    hide QueuesOk;
    InvFacts(s);
    WaitersExist(s, q);
    var l := s.waiters[q];
    var w := l[i];
    assert w in l;
    RunningNotWaiting(s);
    QueuedWaits(s, q, w);
    if p == s.threads[w].priority {
      LastOfPriority(s, l, i);
      ReversedHead(OfPriority(s, l, p));
    } else if p > s.threads[w].priority {
      forall t | t in l
        ensures t in s.threads && s.threads[t].priority != p
      {
        var j :| 0 <= j < |l| && l[j] == t;
      }
      NoneOfPriority(s, l, p);
    }
  }

  lemma QueuedWaits(s: Sched, q: Qid, t: Tid)
    requires Inv(s) && q in s.waiters && t in s.waiters[q]
    ensures t in s.threads && s.threads[t].waitingOn == Some(q)
  {
  }

  lemma HeadIsReady(s: Sched, k: nat)
    requires Inv(s) && k < NUM_PRIORITIES && s.runQueue[k] != []
    ensures var t := s.runQueue[k][0]; t in s.threads && s.threads[t].state.Ready? && s.threads[t].priority == k
  {
    assert s.runQueue[k][0] in s.runQueue[k];
  }

  /** Nobody able to run is above p exactly if the caller and the run queues are not. */
  lemma AboveIffQueued(s: Sched, p: int)
    requires Inv(s)
    ensures Tops(s, p) <==>
      s.threads[s.current].priority <= p && forall k :: 0 <= k < NUM_PRIORITIES && s.runQueue[k] != [] ==> k <= p
  {
    if Tops(s, p) {
      forall k | 0 <= k < NUM_PRIORITIES && s.runQueue[k] != []
        ensures k <= p
      {
        HeadIsReady(s, k);
      }
    } else {
      var t :| t in s.threads && (s.threads[t].state.Ready? || s.threads[t].state.Running?)
        && s.threads[t].priority > p;
      assert s.threads[t].state.Ready? ==> t in s.runQueue[s.threads[t].priority];
    }
  }

  /**
   * A rescheduling wake-up of everybody runs the last waiter of the highest waiting priority
   * exactly when nobody able to run outranks it, and the caller exactly when the caller
   * outranks every waiter and nobody outranks the caller; nobody outranks whoever runs.
   */
  lemma WokenAllRunsIff(s: Sched, q: Qid, ret: Status, i: nat)
    requires Inv(s) && q in s.waiters && s.waiters[q] != [] && BestWaiter(s, q, i)
    ensures s.waiters[q][i] in s.threads
    ensures var w := s.waiters[q][i]; var c := s.current; var r := Next(s, WakeAll(q, true, ret));
      var pw, pc := s.threads[w].priority, s.threads[c].priority;
      && NobodyOutranks(r)
      && (r.current == w <==> Tops(s, pw))
      && (r.current == c <==> pw < pc && Tops(s, pc))
  {
    hide Inv, QueuesOk, Tops, Line, NobodyOutranks;
    InvFacts(s);
    LineMembers(s, q, i, 0);
    var w, c := s.waiters[q][i], s.current;
    var pw, pc := s.threads[w].priority, s.threads[c].priority;
    var best := WakeAllSwitches(s, q, ret);
    var r := Next(s, WakeAll(q, true, ret));
    LineMembers(s, q, i, best);
    LineMembers(s, q, i, pw);
    LineMembers(s, q, i, pc);
    assert best >= pw && best >= pc;
    assert r.threads[w].priority == pw && r.threads[c].priority == pc by {
      StepKeepsPriority(s, WakeAll(q, true, ret), w);
      StepKeepsPriority(s, WakeAll(q, true, ret), c);
    }
    AboveIffQueued(s, pw);
    AboveIffQueued(s, pc);
    forall k | best < k < NUM_PRIORITIES
      ensures s.runQueue[k] == []
    {
      LineMembers(s, q, i, k);
    }
    assert Line(s, q, true, best)[0] == r.current;
    if best == pw {
      assert Tops(s, pw) && r.current == w;
    } else if best == pc {
      assert Tops(s, pc) && !Tops(s, pw) && r.current == c;
    } else {
      assert s.runQueue[best] != [] && !Tops(s, pw) && !Tops(s, pc);
    }
  }

  /** There always is one to run. */
  lemma BestWaiterExists(s: Sched, q: Qid) returns (i: nat)
    requires Inv(s) && q in s.waiters && s.waiters[q] != []
    ensures BestWaiter(s, q, i)
  {
    hide Inv, QueuesOk;
    var l := s.waiters[q];
    InvFacts(s);
    WaitersExist(s, q);
    forall j | 0 <= j < |l|
      ensures l[j] in s.threads
    {
      var t := l[j];
      assert t in s.waiters[q];
    }
    i := 0;
    var n := 1;
    while n < |l|
      invariant i < n <= |l|
      invariant forall j :: 0 <= j < |l| ==> l[j] in s.threads
      invariant forall j :: 0 <= j < i ==> s.threads[l[j]].priority <= s.threads[l[i]].priority
      invariant forall j :: i < j < n ==> s.threads[l[j]].priority < s.threads[l[i]].priority
    {
      if s.threads[l[n]].priority >= s.threads[l[i]].priority {
        i := n;
      }
      n := n + 1;
    }
  }

  // ------------------------------------------------------------- time slices

  /** A timer interrupt: the tick, and the preemption if the tick asks for one. */
  function Interrupt(s: Sched): (r: Sched)
    requires Inv(s)
    ensures Inv(r)
  {
    var s1 := Next(s, Tick);
    if s.idle != Some(s.current) && s1.threads[s1.current].quantum <= 0 then Next(s1, Preempt) else s1
  }

  ghost function Interrupts(s: Sched, k: nat): (r: Sched)
    requires Inv(s)
    ensures Inv(r)
  {
    if k == 0 then s else Interrupt(Interrupts(s, k - 1))
  }

  /** A thread keeps the CPU through its time slice ... */
  lemma {:induction false} RunsThroughSlice(s: Sched, k: nat)
    requires Inv(s) && s.idle != Some(s.current) && k < s.threads[s.current].quantum
    ensures var c := s.current;
      Interrupts(s, k) == s.(threads := s.threads[c := s.threads[c].(quantum := s.threads[c].quantum - k)])
  {
    hide QueuesOk, Next, NobodyOutranks;
    InvFacts(s);
    if k == 0 {
    } else {
      RunsThroughSlice(s, k - 1);
      TickEffect(Interrupts(s, k - 1));
    }
  }

  /** The interrupt that finds one tick left. */
  lemma LastTick(s: Sched)
    requires Inv(s) && NobodyOutranks(s) && s.idle != Some(s.current) && s.threads[s.current].quantum == 1
    ensures var r := Interrupt(s);
      && NobodyOutranks(r) && Cycle(r) == Cycle(s)[1..] + [Cycle(s)[0]] && r.current in s.threads
      && (r.current != s.current ==> r.threads[r.current].quantum > 0)
      && (r.current != s.current && s.threads[r.current].quantum <= 0 ==> r.threads[r.current].quantum == 5)
  {
    hide QueuesOk, Switching, Resched;
    var s1 := Next(s, Tick);
    TickEffect(s);
    PreemptResult(s1);
    PreemptEffect(s1);
  }

  /** ... and gives way at its end: to the next thread of its priority, if nobody outranks it, which turns the cycle. */
  lemma SliceEnds(s: Sched)
    requires Inv(s) && NobodyOutranks(s) && s.idle != Some(s.current) && s.threads[s.current].quantum > 0
    ensures var r := Interrupts(s, s.threads[s.current].quantum);
      && NobodyOutranks(r) && Cycle(r) == Cycle(s)[1..] + [Cycle(s)[0]] && r.current in s.threads
      && (r.current != s.current ==> r.threads[r.current].quantum > 0)
      && (r.current != s.current && s.threads[r.current].quantum <= 0 ==> r.threads[r.current].quantum == 5)
  {
    hide QueuesOk, Interrupt;
    var n := s.threads[s.current].quantum;
    RunsThroughSlice(s, n - 1);
    LastTick(Interrupts(s, n - 1));
  }
}
