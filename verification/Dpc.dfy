// kernel/dpc.c: the deferred-call thread and its list, on top of a manual event.
module Dpc {
  import opened Basics
  import opened Scheduler
  import opened Calls
  import opened Kernel
  import opened Waiting
  import Event

  type Call = nat // a callback and its argument

  /** Where the DPC thread is in dpc_thread_routine. */
  datatype Pc =
    | AtWait             // about to call event_wait
    | Waiting            // inside event_wait, switched out
    | AtFetch            // event_wait has returned
    | Fetched(c: Call)   // took c off the list
    | InCallback

  /** queued and ran record every callback ever queued and every one ever called, in order. */
  datatype State = State(
    e: Event.State,
    list: seq<Call>,
    thread: Tid,
    pc: Pc,
    queued: seq<Call>,
    ran: seq<Call>)

  datatype Step =
    | QueueStep(c: Call, noReschedule: bool)
    | WaitStep | ResumeStep | FetchStep | CallStep | ReturnStep
    | OtherStep(op: Op)

  /** A step of dpc_thread_routine itself. */
  predicate OwnStep(a: Step) {
    a.WaitStep? || a.ResumeStep? || a.FetchStep? || a.CallStep? || a.ReturnStep?
  }

  /** dpc_queue may be called at any time, by an interrupt handler too. */
  ghost predicate Enabled(d: State, a: Step) {
    && Inv(d.e.s) && d.e.q in d.e.s.waiters
    && (OwnStep(a) ==> d.e.s.current == d.thread && d.thread != d.e.s.boot)
    && match a
       case QueueStep(_, _) => true
       case WaitStep => d.pc.AtWait? && Event.CanWait(d.e, Infinite)
       case ResumeStep => d.pc.Waiting? && Event.CanReturn(d.e)
       case FetchStep => d.pc.AtFetch?
       case CallStep => d.pc.Fetched?
       case ReturnStep => d.pc.InCallback?
       case OtherStep(op) =>
         && Event.CanOther(d.e, op)
         && Elsewhere(d.e.s, op, d.e.q, if d.pc.InCallback? then {} else {d.thread})
         && !(op.Exit? && d.e.s.current == d.thread) && op != Reap(d.thread)
  }

  /** dpc_queue. */
  function Queue(d: State, c: Call, noReschedule: bool): State
    requires Event.CanSignal(d.e)
  {
    d.(list := d.list + [c], queued := d.queued + [c], e := Event.Signal(d.e, !noReschedule))
  }

  /** The critical section that takes one entry, or unsignals when there is none. */
  function Fetch(d: State): State {
    if d.list == [] then d.(e := Event.Unsignal(d.e), pc := AtWait)
    else d.(list := d.list[1..], pc := Fetched(d.list[0]))
  }

  ghost function After(d: State, a: Step): State
    requires Enabled(d, a)
  {
    match a
    case QueueStep(c, n) => Queue(d, c, n)
    case WaitStep => d.(e := Event.Wait(d.e, Infinite), pc := if d.e.signalled then AtFetch else Waiting)
    case ResumeStep => d.(e := Event.Return(d.e), pc := AtFetch)
    case FetchStep => Fetch(d)
    case CallStep => d.(ran := d.ran + [d.pc.c], pc := InCallback)
    case ReturnStep => d.(pc := AtWait)
    case OtherStep(op) => d.(e := Event.Other(d.e, op))
  }

  // ------------------------------------------------------------- the invariant

  function InFlight(d: State): seq<Call> {
    if d.pc.Fetched? then [d.pc.c] else []
  }

  /**
   * The DPC thread alone waits on the event, and only inside event_wait; outside callbacks it is
   * never blocked elsewhere.
   */
  ghost predicate ThreadOk(d: State) {
    && d.thread in d.e.s.threads
    && d.e.waiting == (if d.pc.Waiting? then map[d.thread := false] else map[])
    && (d.pc.AtWait? || d.pc.AtFetch? || d.pc.Fetched? ==> Runnable(d.e.s, d.thread))
  }

  ghost predicate DpcInv(d: State) {
    && Event.EventInv(d.e) && !d.e.autoUnsignal
    && ThreadOk(d)
    && (d.list != [] ==> d.e.signalled)
    && d.queued == d.ran + InFlight(d) + d.list
  }

  /** While callbacks are pending the event is signalled and the DPC thread is not blocked on it. */
  lemma PendingMeansAwake(d: State)
    requires DpcInv(d) && d.list != []
    ensures d.e.signalled && d.e.q in d.e.s.waiters && d.e.s.waiters[d.e.q] == []
    ensures !d.pc.InCallback? ==> Runnable(d.e.s, d.thread)
  {
    hide Inv;
    WaitersAreThreads(d.e.s, d.e.q, d.e.waiting);
    if d.pc.Waiting? && d.e.s.threads[d.thread].waitingOn == Some(d.e.q) {
      NobodyQueued(d.e.s, d.e.q, d.thread);
    }
  }

  lemma NobodyQueued(s: Sched, q: Qid, t: Tid)
    requires Inv(s) && q in s.waiters && t in s.threads && s.threads[t].waitingOn == Some(q)
    ensures s.waiters[q] != []
  {
  }

  lemma QueueStepThread(d: State, c: Call, n: bool)
    requires DpcInv(d) && Enabled(d, QueueStep(c, n))
    ensures ThreadOk(After(d, QueueStep(c, n))) && Event.EventInv(After(d, QueueStep(c, n)).e)
  {
    var s, q, t := d.e.s, d.e.q, d.thread;
    Event.SignalEffect(d.e, !n);
    if !d.e.signalled {
      WakeAllFrame(s, q, !n);
      WaitersAreThreads(s, q, d.e.waiting);
      if d.pc.Waiting? {
        WaitersAreThreads(Event.Signal(d.e, !n).s, q, d.e.waiting);
      } else {
        assert t !in s.waiters[q];
        NotQueued(s, q, t);
      }
    }
    hide Inv, WaitersOk, QueuesOk;
  }

  /**
   * Queueing a call while the DPC thread waits: with a reschedule that thread runs at once
   * exactly if nobody able to run outranks it, and without one the caller goes on.
   */
  lemma QueueGivesWay(d: State, c: Call, noReschedule: bool)
    requires DpcInv(d) && Enabled(d, QueueStep(c, noReschedule)) && d.e.s.waiters[d.e.q] == [d.thread] && !d.e.signalled
    ensures var r := After(d, QueueStep(c, noReschedule)).e.s;
      && (noReschedule ==> r.current == d.e.s.current)
      && (!noReschedule ==> NobodyOutranks(r))
      && (!noReschedule ==> (r.current == d.thread <==> Tops(d.e.s, d.e.s.threads[d.thread].priority)))
  {
    hide Inv, WaitersOk, QueuesOk, Tops, NobodyOutranks, Event.Signal;
    LoneWaiter(d.e.s, d.e.q, d.thread);
    Event.SignalGivesWay(d.e, !noReschedule, 0);
  }

  lemma LoneWaiter(s: Sched, q: Qid, t: Tid)
    requires Inv(s) && q in s.waiters && s.waiters[q] == [t]
    ensures BestWaiter(s, q, 0)
  {
    assert t in s.waiters[q];
  }

  lemma NotQueued(s: Sched, q: Qid, t: Tid)
    requires Inv(s) && q in s.waiters && t in s.threads && t !in s.waiters[q]
    ensures s.threads[t].waitingOn != Some(q)
  {
  }

  lemma OtherStepThread(d: State, op: Op)
    requires DpcInv(d) && Enabled(d, OtherStep(op))
    ensures ThreadOk(After(d, OtherStep(op))) && Event.EventInv(After(d, OtherStep(op)).e)
  {
    hide Inv, Next, Allowed, Elsewhere, WaitersOk;
    var s, q, t := d.e.s, d.e.q, d.thread;
    Event.OtherEffect(d.e, op);
    ThreadsPersist(s, op, t);
    if d.pc.AtWait? || d.pc.AtFetch? || d.pc.Fetched? {
      ElsewhereKept(s, op, q, {t}, t);
    }
  }

  /** What a step does to the event and to the DPC thread. */
  lemma StepThread(d: State, a: Step)
    requires DpcInv(d) && Enabled(d, a)
    ensures ThreadOk(After(d, a)) && Event.EventInv(After(d, a).e) && !After(d, a).e.autoUnsignal
  {
    hide Inv, WaitersOk, Next;
    match a
    case QueueStep(c, n) => QueueStepThread(d, c, n);
    case WaitStep => WaitStepThread(d);
    case OtherStep(op) => OtherStepThread(d, op);
    case ResumeStep => ResumeStepThread(d);
    case FetchStep => FetchStepThread(d);
    case CallStep =>
    case ReturnStep => CurrentRunnable(d.e.s);
  }

  lemma CurrentRunnable(s: Sched)
    requires Inv(s)
    ensures s.current in s.threads && Runnable(s, s.current)
  {
  }

  lemma WaitStepThread(d: State)
    requires DpcInv(d) && Enabled(d, WaitStep)
    ensures ThreadOk(After(d, WaitStep)) && Event.EventInv(After(d, WaitStep).e)
  {
    hide Inv, WaitersOk, Block;
    Event.WaitEffect(d.e, Infinite);
    if !d.e.signalled {
      WaitersAreThreads(Event.Wait(d.e, Infinite).s, d.e.q, Event.Wait(d.e, Infinite).waiting);
      assert map[][d.thread := false] == map[d.thread := false];
    }
  }

  lemma ResumeStepThread(d: State)
    requires DpcInv(d) && Enabled(d, ResumeStep)
    ensures ThreadOk(After(d, ResumeStep)) && Event.EventInv(After(d, ResumeStep).e)
  {
    hide Inv, WaitersOk;
    Event.ReturnEffect(d.e);
    CurrentRunnable(d.e.s);
    assert map[d.thread := false] - {d.thread} == map[];
  }

  lemma FetchStepThread(d: State)
    requires DpcInv(d) && Enabled(d, FetchStep)
    ensures ThreadOk(After(d, FetchStep)) && Event.EventInv(After(d, FetchStep).e)
  {
    hide Inv, WaitersOk;
    if d.list == [] {
      Event.StepQueue(d.e, Event.UnsignalStep);
    }
  }

  /** Every callback queued has been called, is in flight, or is on the list, in that order. */
  lemma StepAccounts(d: State, a: Step)
    requires DpcInv(d) && Enabled(d, a)
    ensures var r := After(d, a); r.queued == r.ran + InFlight(r) + r.list && (r.list != [] ==> r.e.signalled)
  {
    hide Inv, ThreadOk, Event.EventInv, Event.CanOther, Event.CanWait, Event.CanReturn;
    match a
    case QueueStep(c, n) => Reassociate(d.ran, InFlight(d), d.list, [c]);
    case FetchStep =>
      if d.list != [] {
        assert [d.list[0]] + d.list[1..] == d.list;
        Reassociate(d.ran, [], [d.list[0]], d.list[1..]);
        assert d.ran + [] == d.ran;
      }
    case CallStep => assert d.ran + [d.pc.c] + [] == d.ran + [d.pc.c];
    case _ =>
  }

  lemma Reassociate(a: seq<Call>, b: seq<Call>, c: seq<Call>, x: seq<Call>)
    ensures a + b + c + x == a + b + (c + x)
  {
  }

  lemma StepKeepsInv(d: State, a: Step)
    requires DpcInv(d) && Enabled(d, a)
    ensures DpcInv(After(d, a))
  {
    hide ThreadOk, Enabled, After, InFlight, Event.EventInv;
    StepThread(d, a);
    StepAccounts(d, a);
  }

  /** dpc_init: the event is unsignalled and the new thread has not reached its first wait. */
  function Init(e: Event.State, thread: Tid): (d: State)
    requires Event.EventInv(e) && !e.signalled && !e.autoUnsignal && e.waiting == map[]
    requires thread in e.s.threads && Runnable(e.s, thread)
    ensures DpcInv(d)
  {
    State(e, [], thread, AtWait, [], [])
  }

  /** The step a step here is of the event, if any. */
  function EventStep(d: State, a: Step): Option<Event.Step> {
    match a
    case QueueStep(_, n) => Some(Event.SignalStep(!n))
    case WaitStep => Some(Event.WaitStep(Infinite))
    case ResumeStep => Some(Event.ReturnStep)
    case FetchStep => if d.list == [] then Some(Event.UnsignalStep) else None
    case OtherStep(op) => Some(Event.OtherStep(op))
    case _ => None
  }

  /** Nothing else happens to the event, to threads and to queues. */
  lemma StepsAreEventSteps(d: State, a: Step)
    requires DpcInv(d) && Enabled(d, a)
    ensures var x := EventStep(d, a);
      if x.None? then After(d, a).e == d.e else Event.Enabled(d.e, x.value) && After(d, a).e == Event.After(d.e, x.value)
  {
    hide Inv, ThreadOk, Event.EventInv, Event.CanOther, Event.CanWait, Event.CanReturn, Event.Signal, Event.Wait,
         Event.Return, Event.Other, Event.Unsignal;
  }

  /** With nothing left to call the DPC thread blocks: it unsignals the event, and its next step parks it there. */
  lemma BlocksWhenDone(d: State)
    requires DpcInv(d) && Enabled(d, FetchStep) && d.list == []
    ensures var r := After(d, FetchStep);
      && Enabled(r, WaitStep) && !r.e.signalled
      && var w := After(r, WaitStep);
         && w.pc.Waiting? && d.thread in w.e.s.threads && w.e.s.threads[d.thread].waitingOn == Some(d.e.q)
         && w.e.s.threads[d.thread].state.Blocked?
  {
    hide WaitersOk, QueuesOk, Switching, NobodyOutranks, Resched;
    BlockKept(d.e.s, d.e.q, Infinite, d.thread);
  }

  // ------------------------------------------------------------- whole runs

  ghost predicate EnabledRun(d: State, steps: seq<Step>)
    decreases |steps|
  {
    steps == [] || (Enabled(d, steps[0]) && EnabledRun(After(d, steps[0]), steps[1..]))
  }

  ghost function Run(d: State, steps: seq<Step>): State
    requires EnabledRun(d, steps)
    decreases |steps|
  {
    if steps == [] then d else Run(After(d, steps[0]), steps[1..])
  }

  lemma {:induction false} RunKeepsInv(d: State, steps: seq<Step>)
    requires DpcInv(d) && EnabledRun(d, steps)
    ensures DpcInv(Run(d, steps))
    decreases |steps|
  {
    hide DpcInv, Enabled, After;
    if steps == [] {
    } else {
      StepKeepsInv(d, steps[0]);
      RunKeepsInv(After(d, steps[0]), steps[1..]);
    }
  }

  function OwnSteps(steps: seq<Step>): nat {
    if steps == [] then 0 else (if OwnStep(steps[0]) then 1 else 0) + OwnSteps(steps[1..])
  }

  /** Steps of its own that the DPC thread still needs before callback number n has been called. */
  function Rank(d: State, n: nat): int {
    4 * (n - |d.ran|) + match d.pc
      case AtWait => 3
      case Waiting => 3
      case AtFetch => 2
      case Fetched(_) => 1
      case InCallback => 4
  }

  /** Each step of the DPC thread brings a pending callback one step closer; no other step sets it back. */
  lemma StepAdvances(d: State, a: Step, n: nat)
    requires DpcInv(d) && Enabled(d, a) && |d.ran| <= n < |d.queued|
    ensures d.queued <= After(d, a).queued && d.ran <= After(d, a).ran
    ensures |After(d, a).ran| > n || Rank(After(d, a), n) == Rank(d, n) - (if OwnStep(a) then 1 else 0)
  {
    hide Inv, ThreadOk, Event.EventInv, Event.CanOther, Event.CanWait, Event.CanReturn;
    assert |d.queued| == |d.ran| + |InFlight(d)| + |d.list|;
  }

  /** Whenever the DPC thread runs, it has a step to take. */
  lemma OwnStepEnabled(d: State) returns (a: Step)
    requires DpcInv(d) && d.e.s.current == d.thread && d.thread != d.e.s.boot
    ensures OwnStep(a) && Enabled(d, a)
  {
    a := match d.pc
      case AtWait => WaitStep
      case Waiting => ResumeStep
      case AtFetch => FetchStep
      case Fetched(_) => CallStep
      case InCallback => ReturnStep;
  }

  /** A queued callback has been called once the DPC thread has taken Rank steps of its own. */
  lemma {:induction false} RunsAfterRank(d: State, steps: seq<Step>, n: nat)
    requires DpcInv(d) && EnabledRun(d, steps) && n < |d.queued| && OwnSteps(steps) >= Rank(d, n)
    ensures |Run(d, steps).ran| > n
    decreases |steps|
  {
    hide DpcInv, Enabled, After, Rank;
    if |d.ran| > n {
      RanGrows(d, steps);
    } else if steps == [] {
      RankPositive(d, n);
    } else {
      StepAdvances(d, steps[0], n);
      StepKeepsInv(d, steps[0]);
      if |After(d, steps[0]).ran| > n {
        RanGrows(After(d, steps[0]), steps[1..]);
      } else {
        RunsAfterRank(After(d, steps[0]), steps[1..], n);
      }
    }
  }

  lemma RankPositive(d: State, n: nat)
    requires |d.ran| <= n
    ensures Rank(d, n) >= 1
  {
  }

  lemma {:induction false} RanGrows(d: State, steps: seq<Step>)
    requires EnabledRun(d, steps)
    ensures d.ran <= Run(d, steps).ran && d.queued <= Run(d, steps).queued
    decreases |steps|
  {
    if steps == [] {
    } else {
      StepGrows(d, steps[0]);
      hide Enabled, After;
      RanGrows(After(d, steps[0]), steps[1..]);
    }
  }

  lemma StepGrows(d: State, a: Step)
    requires Enabled(d, a)
    ensures d.ran <= After(d, a).ran && d.queued <= After(d, a).queued
  {
  }

  /**
   * Callbacks are called in the order they were queued, each exactly once: what has been
   * called is always a prefix of what was queued, and callback n is called within
   * Rank steps of the DPC thread, however the rest of the system interleaves.
   */
  lemma EveryCallbackRunsOnceInOrder(d: State, steps: seq<Step>, n: nat)
    requires DpcInv(d) && EnabledRun(d, steps)
    ensures Run(d, steps).ran <= Run(d, steps).queued && d.queued <= Run(d, steps).queued
    ensures n < |d.queued| && OwnSteps(steps) >= Rank(d, n) ==>
              n < |Run(d, steps).ran| && Run(d, steps).ran[n] == d.queued[n]
  {
    hide DpcInv, EnabledRun, Run, Enabled, After, Rank;
    RunKeepsInv(d, steps);
    RanGrows(d, steps);
    CalledPrefix(Run(d, steps));
    if n < |d.queued| && OwnSteps(steps) >= Rank(d, n) {
      RunsAfterRank(d, steps, n);
      PrefixAgrees(Run(d, steps).ran, d.queued, Run(d, steps).queued, n);
    }
  }

  lemma CalledPrefix(d: State)
    requires DpcInv(d)
    ensures d.ran <= d.queued
  {
    hide ThreadOk, Event.EventInv;
    assert d.ran + InFlight(d) + d.list == d.ran + (InFlight(d) + d.list);
  }

  lemma PrefixAgrees(a: seq<Call>, b: seq<Call>, c: seq<Call>, n: nat)
    requires a <= c && b <= c && n < |a| && n < |b|
    ensures a[n] == b[n]
  {
    assert a[n] == c[n] == b[n];
  }

  // ------------------------------------------------------------- the code

  class DpcObject {
    var list: seq<Call>
    const event: Event.EventObject
    const thread: Tid
    ghost var pc: Pc
    ghost var queued: seq<Call>
    ghost var ran: seq<Call>

    ghost function Abs(k: ThreadSystem): State
      reads this, event, k
    {
      State(event.Abs(k), list, thread, pc, queued, ran)
    }

    constructor (k: ThreadSystem, event: Event.EventObject, thread: Tid)
      requires k.Valid() && Event.EventInv(event.Abs(k)) && !event.signalled && !event.autoUnsignal
      requires event.waiting == map[]
      requires thread in k.threads && Runnable(k.Abs(), thread)
      ensures this.event == event && Abs(k) == Init(event.Abs(k), thread)
    {
      list, pc, queued, ran := [], AtWait, [], [];
      this.event := event;
      this.thread := thread;
    }

    method DpcQueue(k: ThreadSystem, c: Call, noReschedule: bool)
      requires k.Valid() && Enabled(Abs(k), QueueStep(c, noReschedule))
      modifies this, event, k
      ensures k.Valid() && Abs(k) == Queue(old(Abs(k)), c, noReschedule)
    {
      hide Inv;
      list := list + [c];
      queued := queued + [c];
      event.EventSignal(k, !noReschedule);
    }

    /** The part of dpc_thread_routine between event_wait and the call. */
    method DpcFetch(k: ThreadSystem) returns (c: Option<Call>)
      requires pc.AtFetch?
      modifies this, event
      ensures Abs(k) == Fetch(old(Abs(k)))
      ensures c == if old(list) == [] then None else Some(old(list)[0])
    {
      if list == [] {
        event.EventUnsignal(k);
        pc := AtWait;
        return None;
      }
      c := Some(list[0]);
      list := list[1..];
      pc := Fetched(c.value);
    }
  }
}
