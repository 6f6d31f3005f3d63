// kernel/event.c on top of the scheduler.
//
// A wait that blocks is two steps: up to the switch inside wait_queue_block, and the
// return of the wait once the thread runs again.  Anything else may happen in between.
module Event {
  import opened Basics
  import opened Scheduler
  import opened Calls
  import opened Kernel
  import opened Waiting

  /**
   * signalled, autoUnsignal and q are event_t's fields.  waiting records the threads inside
   * a wait that blocked and have not run since, with true for a finite timeout.  returned
   * counts the waits that have returned NO_ERROR, delivered the signals that found the
   * event unsignalled, cleared the unsignals that found it signalled.
   */
  datatype State = State(
    s: Sched,
    q: Qid,
    signalled: bool,
    autoUnsignal: bool,
    waiting: map<Tid, bool>,
    returned: nat,
    delivered: nat,
    cleared: nat)

  // ------------------------------------------------------------- the steps

  /** The thread that idles must not block. */
  ghost predicate CanWait(e: State, timeout: Timeout) {
    && Inv(e.s) && e.q in e.s.waiters && e.s.current !in e.waiting
    && (!e.signalled && !timeout.Zero? ==> e.s.current != e.s.boot)
  }

  /** event_wait_timeout, up to the switch. */
  function Wait(e: State, timeout: Timeout): State
    requires CanWait(e, timeout)
  {
    if e.signalled then e.(signalled := !e.autoUnsignal, returned := e.returned + 1)
    else if timeout.Zero? then e
    else e.(s := Block(e.s, e.q, timeout), waiting := e.waiting[e.s.current := timeout.Finite?])
  }

  ghost predicate CanReturn(e: State) {
    Inv(e.s) && e.s.current in e.waiting
  }

  /** The return of a wait that blocked, by the same thread later on. */
  function Return(e: State): State
    requires CanReturn(e)
  {
    var c := e.s.current;
    e.(waiting := e.waiting - {c},
       returned := if e.s.threads[c].blockRet.NoError? then e.returned + 1 else e.returned)
  }

  ghost predicate CanSignal(e: State) {
    Inv(e.s) && e.q in e.s.waiters
  }

  /** event_signal. */
  function Signal(e: State, reschedule: bool): State
    requires CanSignal(e)
  {
    if e.signalled then e
    else if e.autoUnsignal then
      if e.s.waiters[e.q] == [] then e.(signalled := true, delivered := e.delivered + 1)
      else e.(s := WakeFirst(e.s, e.q, reschedule, NoError), delivered := e.delivered + 1)
    else e.(signalled := true, s := WakeEvery(e.s, e.q, reschedule, NoError), delivered := e.delivered + 1)
  }

  /** event_unsignal. */
  function Unsignal(e: State): State {
    e.(signalled := false, cleared := e.cleared + Latch(e))
  }

  /** A waiter's timer may fire at any time before it runs again and cancels the timer. */
  ghost predicate CanExpire(e: State, t: Tid) {
    Inv(e.s) && t in e.s.threads && t in e.waiting && e.waiting[t]
  }

  /** wait_queue_timeout_handler. */
  function Expire(e: State, t: Tid): State
    requires CanExpire(e, t)
  {
    e.(s := UnblockThread(e.s, t, TimedOut))
  }

  /** Any other kernel call, by threads that are not in the middle of a wait here. */
  ghost predicate CanOther(e: State, op: Op) {
    Inv(e.s) && Allowed(e.s, op) && e.q in e.s.waiters && Elsewhere(e.s, op, e.q, e.waiting.Keys)
  }

  function Other(e: State, op: Op): State
    requires CanOther(e, op)
  {
    e.(s := Next(e.s, op))
  }

  datatype Step =
    | WaitStep(timeout: Timeout) | ReturnStep | SignalStep(reschedule: bool) | UnsignalStep
    | ExpireStep(t: Tid) | OtherStep(op: Op)

  ghost predicate Enabled(e: State, a: Step) {
    match a
    case WaitStep(timeout) => CanWait(e, timeout)
    case ReturnStep => CanReturn(e)
    case SignalStep(_) => CanSignal(e)
    case UnsignalStep => true
    case ExpireStep(t) => CanExpire(e, t)
    case OtherStep(op) => CanOther(e, op)
  }

  ghost function After(e: State, a: Step): State
    requires Enabled(e, a)
  {
    match a
    case WaitStep(timeout) => Wait(e, timeout)
    case ReturnStep => Return(e)
    case SignalStep(reschedule) => Signal(e, reschedule)
    case UnsignalStep => Unsignal(e)
    case ExpireStep(t) => Expire(e, t)
    case OtherStep(op) => Other(e, op)
  }

  // ------------------------------------------------------------- the invariant

  /** A signalled event never has waiters. */
  ghost predicate EventInv(e: State) {
    WaitersOk(e.s, e.q, e.waiting) && (e.signalled ==> e.s.waiters[e.q] == [])
  }

  function Latch(e: State): nat {
    if e.signalled then 1 else 0
  }

  /** The waits that a signal has let through and that have not run since. */
  ghost function Passing(e: State): (r: set<Tid>)
    ensures forall t :: t in r <==> Woken(e.s, e.waiting, t)
  {
    WokenSet(e.s, e.waiting)
  }

  // ------------------------------------------------------------- what each step does

  lemma WaitEffect(e: State, timeout: Timeout)
    requires EventInv(e) && CanWait(e, timeout)
    ensures var r := Wait(e, timeout); var l := e.s.waiters[e.q];
      && EventInv(r)
      && r.s.waiters[e.q] == (if e.signalled || timeout.Zero? then l else l + [e.s.current])
      && Passing(r) == Passing(e)
  {
    hide Inv, WaitersOk, Woken, Block;
    if !e.signalled && !timeout.Zero? {
      WaiterJoins(e.s, e.q, e.waiting, timeout);
    }
    assert Passing(Wait(e, timeout)) == Passing(e);
  }

  lemma ReturnEffect(e: State)
    requires EventInv(e) && CanReturn(e)
    ensures var r := Return(e);
      && EventInv(r) && r.s == e.s
      && (e.s.current in Passing(e) <==> e.s.threads[e.s.current].blockRet.NoError?)
      && Passing(r) == Passing(e) - {e.s.current}
  {
    hide Inv, WaitersOk, Woken;
    WaiterReturns(e.s, e.q, e.waiting);
    assert Passing(Return(e)) == Passing(e) - {e.s.current};
  }

  lemma SignalEffect(e: State, reschedule: bool)
    requires EventInv(e) && CanSignal(e)
    ensures var r := Signal(e, reschedule); var l := e.s.waiters[e.q];
      && EventInv(r)
      && r.s.waiters[e.q] == (if e.signalled || l == [] then l else if e.autoUnsignal then l[1..] else [])
      && (e.signalled || l == [] ==> Passing(r) == Passing(e))
      && (!e.signalled && e.autoUnsignal && l != [] ==> l[0] !in Passing(e) && Passing(r) == Passing(e) + {l[0]})
      && (!e.signalled && !e.autoUnsignal ==> forall t :: t in Passing(r) <==> t in l || t in Passing(e))
  {
    hide Inv, WaitersOk, Woken, WakeFirst, WakeEvery;
    QueueExists(e);
    var r, l := Signal(e, reschedule), e.s.waiters[e.q];
    if !e.signalled {
      if e.autoUnsignal {
        if e.s.waiters[e.q] != [] {
          FirstWoken(e.s, e.q, e.waiting, reschedule);
          assert Passing(r) == Passing(e) + {l[0]};
        } else {
          assert Passing(r) == Passing(e);
        }
      } else {
        AllWoken(e.s, e.q, e.waiting, reschedule);
        if l == [] {
          assert Passing(r) == Passing(e);
        }
      }
    }
  }

  /**
   * Who runs after a signal.  Without a reschedule it is the caller.  With one, if anybody
   * waited, an event that unsignals itself runs the first waiter, any other the last waiter
   * of the highest priority, exactly if nobody able to run outranks that thread.
   */
  lemma SignalGivesWay(e: State, reschedule: bool, i: nat)
    requires EventInv(e) && CanSignal(e) && !e.signalled && e.s.waiters[e.q] != []
    requires if e.autoUnsignal then i == 0 else BestWaiter(e.s, e.q, i)
    ensures i < |e.s.waiters[e.q]| && e.s.waiters[e.q][i] in e.s.threads
    ensures var w := e.s.waiters[e.q][i]; var c := e.s.current; var r := Signal(e, reschedule).s;
      var pw, pc := e.s.threads[w].priority, e.s.threads[c].priority;
      && (!reschedule ==> r.current == c)
      && (reschedule ==> NobodyOutranks(r))
      && (reschedule ==> (r.current == w <==> Tops(e.s, pw)))
      && (reschedule ==> (r.current == c <==> pw < pc && Tops(e.s, pc)))
  {
    hide WaitersOk, WakeFirst, WakeEvery, Tops, NobodyOutranks, Inv, QueuesOk;
    if e.autoUnsignal {
      WokenRunsIff(e.s, e.q, NoError);
      WakeOneEffect(e.s, e.q, reschedule, NoError);
    } else {
      WokenAllRunsIff(e.s, e.q, NoError, i);
      WakeAllQuietly(e.s, e.q, NoError, 0);
    }
  }

  lemma ExpireEffect(e: State, t: Tid)
    requires EventInv(e) && CanExpire(e, t)
    ensures Distinct(e.s.waiters[e.q])
    ensures var r := Expire(e, t); var l := e.s.waiters[e.q];
      && EventInv(r)
      && r.s.waiters[e.q] == (if t in l then RemoveAt(l, IndexOf(l, t)) else l)
      && Passing(r) == Passing(e)
  {
    hide Inv, WaitersOk, Woken, UnblockThread;
    WaiterExpires(e.s, e.q, e.waiting, t);
    assert Passing(Expire(e, t)) == Passing(e);
  }

  lemma OtherEffect(e: State, op: Op)
    requires EventInv(e) && CanOther(e, op)
    ensures var r := Other(e, op);
      EventInv(r) && r.s.waiters[e.q] == e.s.waiters[e.q] && Passing(r) == Passing(e)
  {
    hide Inv, WaitersOk, Woken, Next, Allowed, Elsewhere;
    OthersAct(e.s, e.q, e.waiting, op);
    assert Passing(Other(e, op)) == Passing(e);
  }

  /** Every step keeps the invariant, and does this to the wait queue. */
  lemma StepQueue(e: State, a: Step)
    requires EventInv(e) && Enabled(e, a)
    ensures EventInv(After(e, a)) && After(e, a).q == e.q && After(e, a).autoUnsignal == e.autoUnsignal
    ensures e.q in e.s.waiters && e.q in After(e, a).s.waiters
    ensures var l := e.s.waiters[e.q]; var l' := After(e, a).s.waiters[e.q];
      match a
      case WaitStep(timeout) => l' == if e.signalled || timeout.Zero? then l else l + [e.s.current]
      case SignalStep(_) =>
        l' == if e.signalled || l == [] then l else if e.autoUnsignal then l[1..] else []
      case ExpireStep(t) => Distinct(l) && l' == if t in l then RemoveAt(l, IndexOf(l, t)) else l
      case _ => l' == l
  {
    hide Inv, CanWait, CanReturn, CanSignal, CanExpire, CanOther;
    match a
    case WaitStep(timeout) => WaitEffect(e, timeout);
    case ReturnStep => ReturnEffect(e);
    case SignalStep(r) => SignalEffect(e, r);
    case ExpireStep(t) => ExpireEffect(e, t);
    case OtherStep(op) => OtherEffect(e, op);
    case UnsignalStep =>
  }

  /** The kernel call a step makes, if any. */
  function KernelCall(e: State, a: Step): Option<Op> {
    match a
    case WaitStep(timeout) => if e.signalled then None else Some(BlockOn(e.q, timeout))
    case SignalStep(r) =>
      if e.signalled then None
      else if e.autoUnsignal then Some(WakeOne(e.q, r, NoError)) else Some(WakeAll(e.q, r, NoError))
    case ExpireStep(t) => Some(Unblock(t, TimedOut))
    case OtherStep(op) => Some(op)
    case _ => None
  }

  /** Nothing else happens to threads and queues. */
  lemma StepsAreKernelCalls(e: State, a: Step)
    requires EventInv(e) && Enabled(e, a)
    ensures Inv(e.s)
    ensures var k := KernelCall(e, a);
      if k.None? then After(e, a).s == e.s else Allowed(e.s, k.value) && After(e, a).s == Next(e.s, k.value)
  {
    hide QueuesOk, WakeEvery, UnblockThread, Woken;
    QueueExists(e);
  }

  // ------------------------------------------------------------- conservation

  /**
   * What an auto-unsignalling event has received, less what it has given: always zero once the
   * initial signal is counted.
   */
  ghost function Balance(e: State): int {
    e.returned + |Passing(e)| + Latch(e) + e.cleared - e.delivered
  }

  lemma SizeGrows(s: set<Tid>, t: Tid)
    ensures |s + {t}| == if t in s then |s| else |s| + 1
    ensures |s - {t}| == if t in s then |s| - 1 else |s|
  {
    if t in s {
      assert s + {t} == s;
    } else {
      assert s - {t} == s;
    }
  }

  /** Every signal that finds the event unsignalled lets exactly one wait return NO_ERROR, or stays latched. */
  lemma StepConserves(e: State, a: Step)
    requires EventInv(e) && Enabled(e, a) && e.autoUnsignal
    ensures Balance(After(e, a)) == Balance(e)
  {
    hide Inv, EventInv, Passing, CanWait, CanReturn, CanSignal, CanExpire, CanOther;
    match a
    case WaitStep(timeout) => WaitEffect(e, timeout);
    case ReturnStep => ReturnEffect(e); SizeGrows(Passing(e), e.s.current);
    case SignalStep(r) =>
      SignalEffect(e, r);
      QueueExists(e);
      var l := e.s.waiters[e.q];
      if l != [] {
        SizeGrows(Passing(e), l[0]);
      }
    case ExpireStep(t) => ExpireEffect(e, t);
    case OtherStep(op) => OtherEffect(e, op);
    case UnsignalStep => assert Passing(Unsignal(e)) == Passing(e) by { SamePassing(e, Unsignal(e)); }
  }

  lemma SamePassing(e: State, r: State)
    requires r.s == e.s && r.waiting == e.waiting
    ensures Passing(r) == Passing(e)
  {
  }

  /** A waiter that was woken returns NO_ERROR: no later timeout, signal or other call spoils that. */
  lemma WokenWaitSucceeds(e: State, a: Step, t: Tid)
    requires EventInv(e) && Enabled(e, a) && t in Passing(e)
    ensures if a.ReturnStep? && t == e.s.current then After(e, a).returned == e.returned + 1 else t in Passing(After(e, a))
  {
    hide Inv, EventInv, Passing, CanWait, CanReturn, CanSignal, CanExpire, CanOther;
    match a
    case WaitStep(timeout) => WaitEffect(e, timeout);
    case ReturnStep => ReturnEffect(e);
    case SignalStep(r) => SignalEffect(e, r);
    case ExpireStep(u) => ExpireEffect(e, u);
    case OtherStep(op) => OtherEffect(e, op);
    case UnsignalStep => SamePassing(e, Unsignal(e));
  }

  // ------------------------------------------------------------- whole runs

  /** event_init on a wait queue nobody waits on. */
  function Init(s: Sched, q: Qid, initial: bool, autoUnsignal: bool): (e: State)
    requires Inv(s) && q in s.waiters && s.waiters[q] == []
    ensures EventInv(e)
  {
    State(s, q, initial, autoUnsignal, map[], 0, 0, 0)
  }

  ghost predicate EnabledRun(e: State, steps: seq<Step>)
    decreases |steps|
  {
    steps == [] || (Enabled(e, steps[0]) && EnabledRun(After(e, steps[0]), steps[1..]))
  }

  ghost function Run(e: State, steps: seq<Step>): State
    requires EnabledRun(e, steps)
    decreases |steps|
  {
    if steps == [] then e else Run(After(e, steps[0]), steps[1..])
  }

  lemma {:induction false} RunKeepsInv(e: State, steps: seq<Step>)
    requires EventInv(e) && EnabledRun(e, steps)
    ensures EventInv(Run(e, steps))
    ensures e.autoUnsignal ==> Balance(Run(e, steps)) == Balance(e)
    decreases |steps|
  {
    hide EventInv, Enabled, After, Balance;
    if steps == [] {
    } else {
      StepQueue(e, steps[0]);
      if e.autoUnsignal {
        StepConserves(e, steps[0]);
      }
      RunKeepsInv(After(e, steps[0]), steps[1..]);
    }
  }

  /**
   * In every reachable state of an event: signalled means no waiters, and an
   * auto-unsignalling event has let return, is letting return, still holds, or was made to
   * drop exactly its initial signal and the signals that found it unsignalled.
   */
  lemma EventRuns(s: Sched, q: Qid, initial: bool, autoUnsignal: bool, steps: seq<Step>)
    requires Inv(s) && q in s.waiters && s.waiters[q] == []
    requires EnabledRun(Init(s, q, initial, autoUnsignal), steps)
    ensures var e := Run(Init(s, q, initial, autoUnsignal), steps);
      && e.q in e.s.waiters
      && (e.signalled ==> e.s.waiters[e.q] == [])
      && (autoUnsignal ==> e.returned + |Passing(e)| + Latch(e) + e.cleared == e.delivered + if initial then 1 else 0)
  {
    hide EnabledRun, Run, Inv, WaitersOk, Woken;
    var e0 := Init(s, q, initial, autoUnsignal);
    RunKeepsInv(e0, steps);
    assert Passing(e0) == {} by { NobodyPassing(e0); }
    QueueExists(Run(e0, steps));
  }

  lemma NobodyPassing(e: State)
    requires e.waiting == map[]
    ensures Passing(e) == {}
  {
  }

  lemma QueueExists(e: State)
    requires EventInv(e)
    ensures e.q in e.s.waiters
  {
  }

  /** Signalling a manual event releases every waiter with NO_ERROR and leaves it signalled. */
  lemma ManualSignalReleasesAll(e: State, reschedule: bool, t: Tid)
    requires EventInv(e) && !e.signalled && !e.autoUnsignal && t in e.s.waiters[e.q]
    ensures Signal(e, reschedule).signalled && Signal(e, reschedule).s.waiters[e.q] == []
    ensures t in Signal(e, reschedule).s.threads && Runnable(Signal(e, reschedule).s, t)
    ensures Signal(e, reschedule).s.threads[t].blockRet.NoError?
  {
    hide QueuesOk, WakeEvery;
    WakeAllFrame(e.s, e.q, reschedule);
  }

  // ------------------------------------------------------------- the code

  class EventObject {
    var signalled: bool
    const autoUnsignal: bool
    const wait: Qid
    ghost var waiting: map<Tid, bool>
    ghost var returned: nat
    ghost var delivered: nat
    ghost var cleared: nat

    ghost function Abs(k: ThreadSystem): State
      reads this, k
    {
      State(k.Abs(), wait, signalled, autoUnsignal, waiting, returned, delivered, cleared)
    }

    /** event_init, with the wait queue q it embeds. */
    constructor (k: ThreadSystem, q: Qid, initial: bool, autoUnsignal: bool)
      requires k.Valid() && q !in k.waitQueues
      modifies k`waitQueues
      ensures k.Valid() && k.Abs() == AddQueue(old(k.Abs()), q)
      ensures Abs(k) == Init(k.Abs(), q, initial, autoUnsignal)
    {
      signalled := initial;
      this.autoUnsignal := autoUnsignal;
      wait := q;
      waiting, returned, delivered, cleared := map[], 0, 0, 0;
      new;
      k.WaitQueueInit(q);
    }

    /** Up to the switch; blocked is false when the call returned at once. */
    method EventWaitTimeout(k: ThreadSystem, timeout: Timeout) returns (blocked: bool, ret: Status)
      requires k.Valid() && CanWait(Abs(k), timeout)
      modifies this, k
      ensures k.Valid() && Abs(k) == Wait(old(Abs(k)), timeout)
      ensures blocked <==> !old(signalled) && !timeout.Zero?
      ensures !blocked ==> ret == if old(signalled) then NoError else TimedOut
    {
      hide Inv;
      if signalled {
        if autoUnsignal {
          signalled := false;
        }
        returned := returned + 1;
        return false, NoError;
      }
      var c := k.currentThread;
      var timedOut := k.WaitQueueBlock(wait, timeout);
      if timedOut {
        return false, TimedOut;
      }
      waiting := waiting[c := timeout.Finite?];
      return true, NoError;
    }

    /** What follows wait_queue_block, once the thread runs again. */
    method EventWaitReturn(k: ThreadSystem) returns (ret: Status)
      requires k.Valid() && CanReturn(Abs(k))
      modifies this
      ensures k.Abs() == old(k.Abs()) && Abs(k) == Return(old(Abs(k)))
      ensures ret == k.threads[k.currentThread].blockRet
    {
      ret := k.threads[k.currentThread].blockRet;
      waiting := waiting - {k.currentThread};
      if ret == NoError {
        returned := returned + 1;
      }
    }

    method EventSignal(k: ThreadSystem, reschedule: bool)
      requires k.Valid() && CanSignal(Abs(k))
      modifies this, k
      ensures k.Valid() && Abs(k) == Signal(old(Abs(k)), reschedule)
    {
      hide Inv, WakeEvery, Resched, Wake;
      if !signalled {
        delivered := delivered + 1;
        if autoUnsignal {
          var woken := k.WaitQueueWakeOne(wait, reschedule, NoError);
          if woken <= 0 {
            signalled := true;
          }
        } else {
          signalled := true;
          var woken := k.WaitQueueWakeAll(wait, reschedule, NoError);
        }
      }
    }

    method EventUnsignal(k: ThreadSystem)
      modifies this
      ensures Abs(k) == Unsignal(old(Abs(k)))
    {
      cleared := cleared + if signalled then 1 else 0;
      signalled := false;
    }
  }
}
