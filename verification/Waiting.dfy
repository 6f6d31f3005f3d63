// Threads inside a call that blocked on a wait queue, from the switch until they run again.
// Mutexes and events share this: what each kernel call does to such threads.
module Waiting {
  import opened Basics
  import opened Scheduler

  /**
   * waiting records the threads that blocked on q and have not run since, with true for a
   * finite timeout.  Each is queued on q, or woken and runnable; the result it will see is
   * NO_ERROR unless its timeout fired while it was queued.
   */
  predicate WaiterOk(s: Sched, q: Qid, waiting: map<Tid, bool>, t: Tid)
    requires t in waiting
  {
    && t in s.threads
    && (s.threads[t].waitingOn == Some(q) || Runnable(s, t))
    && (s.threads[t].blockRet.NoError? || (s.threads[t].blockRet.TimedOut? && waiting[t] && Runnable(s, t)))
  }

  /** Whoever is queued on q is recorded, and whoever is recorded is as it should be. */
  ghost predicate WaitersOk(s: Sched, q: Qid, waiting: map<Tid, bool>) {
    && Inv(s) && q in s.waiters
    && (forall t :: t in waiting ==> WaiterOk(s, q, waiting, t))
    && (forall t :: t in s.waiters[q] ==> t in waiting)
  }

  /** t was woken with NO_ERROR and has not run yet. */
  predicate Woken(s: Sched, waiting: map<Tid, bool>, t: Tid) {
    t in waiting && t in s.threads && !s.threads[t].state.Blocked? && s.threads[t].blockRet.NoError?
  }

  /** t's timeout fired while it was queued, and it has not run yet. */
  predicate Lapsed(s: Sched, waiting: map<Tid, bool>, t: Tid) {
    t in waiting && t in s.threads && s.threads[t].blockRet.TimedOut?
  }

  // ------------------------------------------------------------- what each call does to every thread

  lemma BlockFrame(s: Sched, q: Qid, timeout: Timeout)
    requires Inv(s) && q in s.waiters && s.current != s.boot && !timeout.Zero?
    ensures var r := Block(s, q, timeout); var c := s.current;
      && Inv(r)
      && r.waiters == s.waiters[q := s.waiters[q] + [c]]
      && c in r.threads && r.threads[c].state.Blocked? && r.threads[c].waitingOn == Some(q)
      && r.threads[c].blockRet.NoError?
      && forall t :: t in s.threads && t != c ==> Kept(s, r, t)
  {
    hide QueuesOk;
    InvFacts(s);
    BlockKept(s, q, timeout, s.current);
    forall t | t in s.threads && t != s.current
      ensures Kept(s, Block(s, q, timeout), t)
    {
      BlockKept(s, q, timeout, t);
    }
  }

  lemma WakeFrame(s: Sched, q: Qid, reschedule: bool)
    requires Inv(s) && q in s.waiters && s.waiters[q] != []
    ensures s.waiters[q][0] in s.threads
    ensures var r := WakeFirst(s, q, reschedule, NoError); var w := s.waiters[q][0];
      && Inv(r)
      && r.waiters == s.waiters[q := s.waiters[q][1..]]
      && w in r.threads && Runnable(r, w) && r.threads[w].blockRet.NoError?
      && forall t :: t in s.threads && t != w ==> Kept(s, r, t)
  {
    hide QueuesOk;
    InvFacts(s);
    WakeFirstKept(s, q, reschedule, NoError, s.current);
    forall t | t in s.threads && t != s.waiters[q][0]
      ensures Kept(s, WakeFirst(s, q, reschedule, NoError), t)
    {
      WakeFirstKept(s, q, reschedule, NoError, t);
    }
  }

  lemma WakeAllFrame(s: Sched, q: Qid, reschedule: bool)
    requires Inv(s) && q in s.waiters
    ensures var r := WakeEvery(s, q, reschedule, NoError);
      && Inv(r)
      && r.waiters == s.waiters[q := []]
      && (forall t :: t in s.waiters[q] ==> t in r.threads && Runnable(r, t) && r.threads[t].blockRet.NoError?)
      && forall t :: t in s.threads && s.threads[t].waitingOn != Some(q) ==> Kept(s, r, t)
  {
    InvFacts(s);
    RunningNotWaiting(s);
    WakeEveryKept(s, q, reschedule, NoError, s.current);
    forall t | t in s.threads && s.threads[t].waitingOn != Some(q)
      ensures Kept(s, WakeEvery(s, q, reschedule, NoError), t)
    {
      WakeEveryKept(s, q, reschedule, NoError, t);
    }
    forall t | t in s.waiters[q]
      ensures var r := WakeEvery(s, q, reschedule, NoError);
        t in r.threads && Runnable(r, t) && r.threads[t].blockRet.NoError?
    {
      WakeAllWakes(s, q, reschedule, t);
    }
  }

  /** Waking everybody makes every waiter runnable with NO_ERROR. */
  lemma WakeAllWakes(s: Sched, q: Qid, reschedule: bool, t: Tid)
    requires Inv(s) && q in s.waiters && t in s.waiters[q]
    ensures var r := WakeEvery(s, q, reschedule, NoError);
      t in r.threads && Runnable(r, t) && r.threads[t].blockRet.NoError?
  {
    InvFacts(s);
    assert t in s.threads;
    if reschedule {
      MakeReadyOk(s, s.current, true);
      DrainWakes(MakeReady(s, s.current, true), q, NoError, t);
      ReschedKept(Drain(MakeReady(s, s.current, true), q, NoError), t);
    } else {
      DrainWakes(s, q, NoError, t);
    }
  }

  lemma {:induction false} DrainWakes(s: Sched, q: Qid, ret: Status, t: Tid)
    requires QueuesOk(s) && q in s.waiters && t in s.waiters[q]
    ensures t in Drain(s, q, ret).threads && Runnable(Drain(s, q, ret), t)
    ensures Drain(s, q, ret).threads[t].blockRet == ret
    decreases |s.waiters[q]|
  {
    WakeEffect(s, q, ret);
    WakeOk(s, q, 0, ret);
    var r := Wake(s, q, 0, ret);
    if t == s.waiters[q][0] {
      DrainKept(r, q, ret, t);
    } else {
      DrainWakes(r, q, ret, t);
    }
  }

  lemma UnblockFrame(s: Sched, t: Tid)
    requires Inv(s) && t in s.threads && s.threads[t].state.Blocked?
    ensures s.threads[t].waitingOn.Some? && s.threads[t].waitingOn.value in s.waiters
    ensures t in s.waiters[s.threads[t].waitingOn.value]
    ensures var q := s.threads[t].waitingOn.value; var r := UnblockThread(s, t, TimedOut);
      && Inv(r)
      && r.waiters == s.waiters[q := RemoveAt(s.waiters[q], IndexOf(s.waiters[q], t))]
      && r.current == s.current
      && t in r.threads && Runnable(r, t) && r.threads[t].blockRet.TimedOut?
      && forall u :: u in s.threads && u != t ==> Kept(s, r, u)
  {
    hide QueuesOk;
    InvFacts(s);
    UnblockKept(s, t, TimedOut, s.current);
    forall u | u in s.threads && u != t
      ensures Kept(s, UnblockThread(s, t, TimedOut), u)
    {
      UnblockKept(s, t, TimedOut, u);
    }
  }

  // ------------------------------------------------------------- what each call does to the waiters

  /** Waiters that a step keeps stay well formed, and are woken or lapsed exactly if they were. */
  lemma KeptWaiters(s: Sched, r: Sched, q: Qid, waiting: map<Tid, bool>, waiting': map<Tid, bool>, ts: set<Tid>)
    requires ts <= waiting.Keys && ts <= waiting'.Keys
    requires forall t :: t in ts ==> WaiterOk(s, q, waiting, t) && Kept(s, r, t) && waiting'[t] == waiting[t]
    ensures forall t :: t in ts ==> WaiterOk(r, q, waiting', t)
    ensures forall t :: t in ts ==> (Woken(r, waiting', t) <==> Woken(s, waiting, t))
  {
  }

  /** A thread that is queued on q has not been woken. */
  lemma QueuedNotWoken(s: Sched, q: Qid, waiting: map<Tid, bool>, t: Tid)
    requires WaitersOk(s, q, waiting) && t in s.waiters[q]
    ensures t in s.threads && s.threads[t].waitingOn == Some(q) && s.threads[t].state.Blocked? && !Woken(s, waiting, t)
  {
  }

  lemma WaitersAreThreads(s: Sched, q: Qid, waiting: map<Tid, bool>)
    requires WaitersOk(s, q, waiting)
    ensures forall t :: t in waiting ==> t in s.threads && WaiterOk(s, q, waiting, t)
    ensures forall t :: t in s.waiters[q] ==> t in waiting
  {
  }

  /** wait_queue_block. */
  lemma WaiterJoins(s: Sched, q: Qid, waiting: map<Tid, bool>, timeout: Timeout)
    requires WaitersOk(s, q, waiting) && s.current != s.boot && !timeout.Zero? && s.current !in waiting
    ensures var r := Block(s, q, timeout); var c := s.current; var w := waiting[c := timeout.Finite?];
      && WaitersOk(r, q, w)
      && r.waiters[q] == s.waiters[q] + [c]
      && forall t :: Woken(r, w, t) <==> Woken(s, waiting, t)
  {
    hide Inv, Kept;
    var c, w := s.current, waiting[s.current := timeout.Finite?];
    InvFacts(s);
    BlockFrame(s, q, timeout);
    var r := Block(s, q, timeout);
    WaitersAreThreads(s, q, waiting);
    assert WaiterOk(r, q, w, c) && !Woken(r, w, c);
    KeptWaiters(s, r, q, waiting, w, waiting.Keys);
    hide WaiterOk, Woken;
    assert forall t :: t in r.waiters[q] <==> t in s.waiters[q] || t == c;
  }

  /** The waiter that is running again returns. */
  lemma WaiterReturns(s: Sched, q: Qid, waiting: map<Tid, bool>)
    requires WaitersOk(s, q, waiting) && s.current in waiting
    ensures var c := s.current; var w := waiting - {c};
      && c in s.threads
      && WaitersOk(s, q, w)
      && (s.threads[c].blockRet.NoError? || (s.threads[c].blockRet.TimedOut? && waiting[c]))
      && (Woken(s, waiting, c) <==> s.threads[c].blockRet.NoError?)
      && forall t :: Woken(s, w, t) <==> Woken(s, waiting, t) && t != c
  {
    InvFacts(s);
    RunningNotWaiting(s);
    assert s.current !in s.waiters[q];
    hide Inv;
    assert WaiterOk(s, q, waiting, s.current);
    forall t | t in waiting && t != s.current
      ensures WaiterOk(s, q, waiting - {s.current}, t)
    {
      assert WaiterOk(s, q, waiting, t);
    }
  }

  /** wait_queue_wake_one with a waiter. */
  lemma FirstWoken(s: Sched, q: Qid, waiting: map<Tid, bool>, reschedule: bool)
    requires WaitersOk(s, q, waiting) && s.waiters[q] != []
    ensures var r := WakeFirst(s, q, reschedule, NoError); var w := s.waiters[q][0];
      && w in waiting && !Woken(s, waiting, w)
      && WaitersOk(r, q, waiting)
      && r.waiters[q] == s.waiters[q][1..]
      && forall t :: Woken(r, waiting, t) <==> t == w || Woken(s, waiting, t)
  {
    hide Inv, Kept;
    var w := s.waiters[q][0];
    assert w in s.waiters[q];
    QueuedNotWoken(s, q, waiting, w);
    WakeFrame(s, q, reschedule);
    var r := WakeFirst(s, q, reschedule, NoError);
    WaitersAreThreads(s, q, waiting);
    assert WaiterOk(r, q, waiting, w) && Woken(r, waiting, w);
    KeptWaiters(s, r, q, waiting, waiting, waiting.Keys - {w});
    hide WaiterOk, Woken;
    assert forall t :: t in s.waiters[q][1..] ==> t in s.waiters[q];
  }

  /** wait_queue_wake_all. */
  lemma AllWoken(s: Sched, q: Qid, waiting: map<Tid, bool>, reschedule: bool)
    requires WaitersOk(s, q, waiting)
    ensures var r := WakeEvery(s, q, reschedule, NoError);
      && WaitersOk(r, q, waiting)
      && r.waiters[q] == []
      && (forall t :: t in s.waiters[q] ==> t in waiting)
      && forall t :: Woken(r, waiting, t) <==> t in s.waiters[q] || Woken(s, waiting, t)
  {
    WakeAllFrame(s, q, reschedule);
    WaitersAreThreads(s, q, waiting);
    var r := WakeEvery(s, q, reschedule, NoError);
    var others := set t | t in waiting && t !in s.waiters[q];
    forall t | t in others
      ensures Kept(s, r, t)
    {
    }
    hide Inv, Kept;
    KeptWaiters(s, r, q, waiting, waiting, others);
    assert forall t :: t in s.waiters[q] ==> WaiterOk(r, q, waiting, t) && Woken(r, waiting, t);
    hide WaiterOk, Woken;
  }

  /** The timeout of a waiter: it leaves the queue if it is still there, and nothing happens otherwise. */
  lemma WaiterExpires(s: Sched, q: Qid, waiting: map<Tid, bool>, t: Tid)
    requires WaitersOk(s, q, waiting) && t in waiting && waiting[t]
    ensures t in s.threads
    ensures t in s.waiters[q] <==> s.threads[t].state.Blocked?
    ensures Distinct(s.waiters[q])
    ensures var r := UnblockThread(s, t, TimedOut);
      && WaitersOk(r, q, waiting)
      && (t !in s.waiters[q] ==> r == s)
      && (t in s.waiters[q] ==> r.waiters[q] == RemoveAt(s.waiters[q], IndexOf(s.waiters[q], t)) && r.current == s.current)
      && forall u :: Woken(r, waiting, u) <==> Woken(s, waiting, u)
  {
    assert WaiterOk(s, q, waiting, t);
    assert Distinct(s.waiters[q]);
    if s.threads[t].state.Blocked? {
      assert s.threads[t].waitingOn == Some(q);
      ExpiryOfQueued(s, q, waiting, t);
    }
  }

  lemma ExpiryOfQueued(s: Sched, q: Qid, waiting: map<Tid, bool>, t: Tid)
    requires WaitersOk(s, q, waiting) && t in waiting && waiting[t] && t in s.waiters[q] && Distinct(s.waiters[q])
    requires t in s.threads && s.threads[t].state.Blocked? && s.threads[t].waitingOn == Some(q)
    ensures var r := UnblockThread(s, t, TimedOut);
      && WaitersOk(r, q, waiting)
      && r.waiters[q] == RemoveAt(s.waiters[q], IndexOf(s.waiters[q], t)) && r.current == s.current
      && forall u :: Woken(r, waiting, u) <==> Woken(s, waiting, u)
  {
    hide Inv, Kept, UnblockThread;
    var l := s.waiters[q];
    RemoveAtMembers(l, IndexOf(l, t));
    UnblockFrame(s, t);
    var r := UnblockThread(s, t, TimedOut);
    WaitersAreThreads(s, q, waiting);
    assert WaiterOk(r, q, waiting, t) && !Woken(r, waiting, t) && !Woken(s, waiting, t);
    KeptWaiters(s, r, q, waiting, waiting, waiting.Keys - {t});
    hide WaiterOk, Woken;
  }

  /** Any other kernel call that neither uses q nor acts on or as a waiter, except to reschedule. */
  lemma OthersAct(s: Sched, q: Qid, waiting: map<Tid, bool>, op: Op)
    requires WaitersOk(s, q, waiting) && Allowed(s, op) && Elsewhere(s, op, q, waiting.Keys)
    ensures var r := Next(s, op);
      && WaitersOk(r, q, waiting)
      && r.waiters[q] == s.waiters[q]
      && forall t :: Woken(r, waiting, t) <==> Woken(s, waiting, t)
  {
    hide Inv, Next, Allowed, Elsewhere, Kept;
    ElsewhereQueue(s, op, q, waiting.Keys);
    WaitersAreThreads(s, q, waiting);
    var r := Next(s, op);
    forall t | t in waiting
      ensures Kept(s, r, t)
    {
      ElsewhereKept(s, op, q, waiting.Keys, t);
    }
    KeptWaiters(s, r, q, waiting, waiting, waiting.Keys);
  }

  // ------------------------------------------------------------- counting

  /** The threads woken that have not run yet. */
  ghost function WokenSet(s: Sched, waiting: map<Tid, bool>): (r: set<Tid>)
    ensures forall t :: t in r <==> Woken(s, waiting, t)
  {
    set t | t in waiting.Keys && Woken(s, waiting, t)
  }

  /** The threads whose timeout fired that have not run yet. */
  ghost function LapsedSet(s: Sched, waiting: map<Tid, bool>): (r: set<Tid>)
    ensures forall t :: t in r <==> Lapsed(s, waiting, t)
  {
    set t | t in waiting.Keys && Lapsed(s, waiting, t)
  }

  lemma {:induction false} DistinctSize<T>(l: seq<T>)
    requires Distinct(l)
    ensures |set x | x in l| == |l|
  {
    if l == [] {
    } else {
      var n := |l| - 1;
      DistinctSize(l[..n]);
      assert l == l[..n] + [l[n]];
      assert (set x | x in l) == (set x | x in l[..n]) + {l[n]};
    }
  }

  lemma SplitSize<T>(all: set<T>, a: set<T>, b: set<T>, c: set<T>)
    requires forall t :: t in all <==> t in a || t in b || t in c
    requires a !! b && a !! c && b !! c
    ensures |all| == |a| + |b| + |c|
  {
    assert all == a + b + c;
  }

  lemma WaiterIsOne(s: Sched, q: Qid, waiting: map<Tid, bool>, t: Tid)
    requires WaitersOk(s, q, waiting)
    ensures t in waiting <==> t in s.waiters[q] || Woken(s, waiting, t) || Lapsed(s, waiting, t)
    ensures t in s.waiters[q] ==> !Woken(s, waiting, t) && !Lapsed(s, waiting, t)
    ensures Woken(s, waiting, t) ==> !Lapsed(s, waiting, t)
  {
    if t in waiting {
      assert WaiterOk(s, q, waiting, t);
    }
  }

  lemma QueueDistinct(s: Sched, q: Qid)
    requires Inv(s) && q in s.waiters
    ensures Distinct(s.waiters[q])
  {
  }

  /** Every waiter is queued, woken or lapsed, and only one of these. */
  lemma WaitersSplit(s: Sched, q: Qid, waiting: map<Tid, bool>)
    requires WaitersOk(s, q, waiting)
    ensures |waiting| == |s.waiters[q]| + |WokenSet(s, waiting)| + |LapsedSet(s, waiting)|
  {
    hide Inv, WaiterOk, Woken, Lapsed, WokenSet, LapsedSet, Distinct;
    var queued := set t | t in s.waiters[q];
    QueueDistinct(s, q);
    DistinctSize(s.waiters[q]);
    forall t
      ensures t in waiting <==> t in queued || t in WokenSet(s, waiting) || t in LapsedSet(s, waiting)
      ensures t in queued ==> t !in WokenSet(s, waiting) && t !in LapsedSet(s, waiting)
      ensures t in WokenSet(s, waiting) ==> t !in LapsedSet(s, waiting)
    {
      WaiterIsOne(s, q, waiting, t);
    }
    SplitSize(waiting.Keys, queued, WokenSet(s, waiting), LapsedSet(s, waiting));
  }
}
