// The scheduler and wait queues of kernel/thread.c, as values.
//
// This is the specification side: threads, run queues and wait queues are
// plain maps and sequences, there is no bitmap and no waiter count, and the
// next thread is found by the linear scan that the source keeps disabled.
// Kernel.dfy holds the imperative code and proves it computes these functions.
//
// Interrupts are off inside every kernel call, so a call is one step up to its
// reschedule.  What a thread does after being switched back in is a later step.
module Scheduler {
  import opened Basics

  const NUM_PRIORITIES: nat := 32
  const HIGHEST_PRIORITY: nat := NUM_PRIORITIES - 1
  const LOWEST_PRIORITY: nat := 0
  const IDLE_PRIORITY: nat := LOWEST_PRIORITY

  type Tid = int // address of a thread_t
  type Qid = nat // address of a wait_queue_t

  datatype Status =
    | NoError | TimedOut | NotSuspended | NotBlocked | ObjectDestroyed

  datatype Timeout = Zero | Finite | Infinite

  datatype ThreadState = Suspended | Ready | Running | Blocked | Sleeping | Death

  datatype Thread = Thread(
    priority: int,
    state: ThreadState,
    quantum: int,
    waitingOn: Option<Qid>, // blocking_wait_queue
    blockRet: Status)       // wait_queue_block_ret

  /** boot is the thread thread_init_early sets up; it later becomes the idle thread. */
  datatype Sched = Sched(
    threads: map<Tid, Thread>,
    runQueue: seq<seq<Tid>>,
    waiters: map<Qid, seq<Tid>>,
    current: Tid,
    boot: Tid,
    idle: Option<Tid>)

  // ---------------------------------------------------------------- invariant

  /** Run queue p holds exactly the READY threads of priority p, each once. */
  ghost predicate RunQueuesOk(s: Sched) {
    && |s.runQueue| == NUM_PRIORITIES
    && (forall t :: t in s.threads ==> 0 <= s.threads[t].priority < NUM_PRIORITIES)
    && (forall p, t :: 0 <= p < NUM_PRIORITIES ==>
          (t in s.runQueue[p] <==> t in s.threads && s.threads[t].state.Ready? && s.threads[t].priority == p))
    && (forall p :: 0 <= p < NUM_PRIORITIES ==> Distinct(s.runQueue[p]))
  }

  /** Wait queue q holds exactly the BLOCKED threads that name q, each once. */
  ghost predicate WaitQueuesOk(s: Sched) {
    && (forall t :: t in s.threads ==> (s.threads[t].state.Blocked? <==> s.threads[t].waitingOn.Some?))
    && (forall t :: t in s.threads && s.threads[t].waitingOn.Some? ==> s.threads[t].waitingOn.value in s.waiters)
    && (forall q, t :: q in s.waiters ==>
          (t in s.waiters[q] <==> t in s.threads && s.threads[t].waitingOn == Some(q)))
    && (forall q :: q in s.waiters ==> Distinct(s.waiters[q]))
  }

  /** The thread that becomes idle is never blocked, asleep or dead. */
  ghost predicate BootOk(s: Sched) {
    s.boot in s.threads && (s.threads[s.boot].state.Ready? || s.threads[s.boot].state.Running?)
  }

  ghost predicate QueuesOk(s: Sched) {
    RunQueuesOk(s) && WaitQueuesOk(s) && BootOk(s)
  }

  /** Holds between kernel calls. */
  ghost predicate Inv(s: Sched) {
    && QueuesOk(s)
    && s.current in s.threads
    && forall t :: t in s.threads ==> (s.threads[t].state.Running? <==> t == s.current)
  }

  /** Holds where a kernel call is about to reschedule: nobody is RUNNING. */
  ghost predicate Switching(s: Sched) {
    && QueuesOk(s)
    && s.current in s.threads
    && forall t :: t in s.threads ==> !s.threads[t].state.Running?
  }

  /** No READY thread has a higher priority than the running one. */
  ghost predicate NobodyOutranks(s: Sched) {
    s.current in s.threads &&
    forall t :: t in s.threads && s.threads[t].state.Ready? ==> s.threads[t].priority <= s.threads[s.current].priority
  }

  // ------------------------------------------------------------- queue updates

  function SetThread(s: Sched, t: Tid, th: Thread): Sched {
    s.(threads := s.threads[t := th])
  }

  /** insert_in_run_queue_head and insert_in_run_queue_tail. */
  function Insert(s: Sched, t: Tid, atHead: bool): Sched
    requires t in s.threads && 0 <= s.threads[t].priority < |s.runQueue|
  {
    var p := s.threads[t].priority;
    s.(runQueue := s.runQueue[p := if atHead then [t] + s.runQueue[p] else s.runQueue[p] + [t]])
  }

  /** Make t READY and queue it. */
  function MakeReady(s: Sched, t: Tid, atHead: bool): Sched
    requires t in s.threads && 0 <= s.threads[t].priority < |s.runQueue|
  {
    Insert(SetThread(s, t, s.threads[t].(state := Ready)), t, atHead)
  }

  /** Take waiter number i of q out of its wait queue and make it READY at the head. */
  function Wake(s: Sched, q: Qid, i: nat, ret: Status): Sched
    requires q in s.waiters && i < |s.waiters[q]|
    requires var t := s.waiters[q][i]; t in s.threads && 0 <= s.threads[t].priority < |s.runQueue|
  {
    var t := s.waiters[q][i];
    var th := s.threads[t].(state := Ready, waitingOn := None, blockRet := ret);
    var s' := s.(waiters := s.waiters[q := RemoveAt(s.waiters[q], i)]);
    Insert(SetThread(s', t, th), t, true)
  }

  // ------------------------------------------------------------- reschedule

  /** The disabled loop of thread_resched: highest non-empty queue at or below p. */
  function Scan(rq: seq<seq<Tid>>, p: int): (r: int)
    requires -1 <= p < |rq|
    ensures -1 <= r <= p
    ensures r >= 0 ==> rq[r] != []
    ensures forall k :: r < k <= p ==> rq[k] == []
    decreases p + 1
  {
    if p == -1 then -1 else if rq[p] != [] then p else Scan(rq, p - 1)
  }

  /** thread_resched: run the head of the highest non-empty queue. */
  function Resched(s: Sched): (r: Sched)
    requires Switching(s)
    ensures Inv(r) && NobodyOutranks(r) && r.threads.Keys == s.threads.Keys
  {
    ReschedOk(s);
    SwitchTo(s, Scan(s.runQueue, HIGHEST_PRIORITY))
  }

  function SwitchTo(s: Sched, p: nat): Sched
    requires p < |s.runQueue| && s.runQueue[p] != [] && s.runQueue[p][0] in s.threads
  {
    var t := s.runQueue[p][0];
    var th := s.threads[t].(state := Running);
    var th' := if t != s.current && th.quantum <= 0 then th.(quantum := 5) else th;
    s.(runQueue := s.runQueue[p := s.runQueue[p][1..]], threads := s.threads[t := th'], current := t)
  }

  // ------------------------------------------------------------- kernel calls

  datatype Op =
    | Create(t: Tid, priority: int)
    | Resume(t: Tid)
    | Yield
    | Preempt
    | Tick
    | Sleep
    | SleepDone(t: Tid)
    | Exit
    | Reap(t: Tid)
    | SetPriority(priority: int)
    | BecomeIdle
    | InitQueue(q: Qid)
    | BlockOn(q: Qid, timeout: Timeout)
    | WakeOne(q: Qid, reschedule: bool, ret: Status)
    | WakeAll(q: Qid, reschedule: bool, ret: Status)
    | Unblock(t: Tid, ret: Status)

  function ClampPriority(p: int): int {
    if p < LOWEST_PRIORITY then LOWEST_PRIORITY
    else if p > HIGHEST_PRIORITY then HIGHEST_PRIORITY else p
  }

  /** What the source asks of the caller of each operation. */
  ghost predicate Allowed(s: Sched, op: Op)
    requires Inv(s)
  {
    match op
    case Create(t, p) => t !in s.threads && 0 <= p < NUM_PRIORITIES
    case Resume(t) => t in s.threads && s.threads[t].state in {Suspended, Ready, Running}
    case SleepDone(t) => t in s.threads && s.threads[t].state.Sleeping?
    case Sleep => s.current != s.boot
    case Exit => s.current != s.boot
    case Reap(t) => t in s.threads && s.threads[t].state.Death?
    case InitQueue(q) => q !in s.waiters
    case BlockOn(q, timeout) => q in s.waiters && (timeout.Zero? || s.current != s.boot)
    case WakeOne(q, _, _) => q in s.waiters
    case WakeAll(q, _, _) => q in s.waiters
    case Unblock(t, _) => t in s.threads
    case _ => true
  }

  /** The state in which thread_yield reschedules: the caller at the tail with no quantum. */
  function GivenUp(s: Sched): Sched
    requires s.current in s.threads && 0 <= s.threads[s.current].priority < |s.runQueue|
  {
    MakeReady(SetThread(s, s.current, s.threads[s.current].(quantum := 0)), s.current, false)
  }

  function YieldTo(s: Sched): (r: Sched)
    requires Inv(s)
    ensures Inv(r) && NobodyOutranks(r)
  {
    GivenUpOk(s);
    Resched(GivenUp(s))
  }

  function PreemptTo(s: Sched): (r: Sched)
    requires Inv(s)
    ensures Inv(r) && NobodyOutranks(r)
  {
    var s1 := MakeReady(s, s.current, s.threads[s.current].quantum > 0);
    MakeReadyOk(s, s.current, s.threads[s.current].quantum > 0);
    Resched(s1)
  }

  /** Leave the CPU in a state that is on no queue: thread_sleep and thread_exit. */
  function LeaveTo(s: Sched, st: ThreadState): (r: Sched)
    requires Inv(s) && s.current != s.boot && (st.Sleeping? || st.Death?)
    ensures Inv(r) && NobodyOutranks(r)
  {
    var s1 := SetThread(s, s.current, s.threads[s.current].(state := st));
    Resched(s1)
  }

  /** thread_cleanup_dpc, which takes a dead thread off the thread list and frees it. */
  function Reaped(s: Sched, t: Tid): (r: Sched)
    requires Inv(s) && t in s.threads && s.threads[t].state.Death?
    ensures Inv(r)
  {
    s.(threads := s.threads - {t})
  }

  /** thread_resume, which queues t at the head and then yields. */
  function ResumeThread(s: Sched, t: Tid): (r: Sched)
    requires Inv(s) && t in s.threads && s.threads[t].state in {Suspended, Ready, Running}
    ensures Inv(r)
  {
    if s.threads[t].state.Ready? || s.threads[t].state.Running? then s
    else
      MakeReadyOk(s, t, true);
      YieldTo(MakeReady(s, t, true))
  }

  /** The current thread parked at the tail of q, before the switch. */
  function Parked(s: Sched, q: Qid): Sched
    requires s.current in s.threads && q in s.waiters
  {
    var th := s.threads[s.current].(state := Blocked, waitingOn := Some(q), blockRet := NoError);
    SetThread(s.(waiters := s.waiters[q := s.waiters[q] + [s.current]]), s.current, th)
  }

  /** wait_queue_block up to the switch. */
  function Block(s: Sched, q: Qid, timeout: Timeout): (r: Sched)
    requires Inv(s) && q in s.waiters && (timeout.Zero? || s.current != s.boot)
    ensures Inv(r)
  {
    if timeout.Zero? then s
    else
      ParkedOk(s, q);
      Resched(Parked(s, q))
  }

  /** wait_queue_wake_one. */
  function WakeFirst(s: Sched, q: Qid, reschedule: bool, ret: Status): (r: Sched)
    requires Inv(s) && q in s.waiters
    ensures Inv(r)
  {
    if s.waiters[q] == [] then s
    else if reschedule then
      MakeReadyOk(s, s.current, true);
      WakeOk(MakeReady(s, s.current, true), q, 0, ret);
      Resched(Wake(MakeReady(s, s.current, true), q, 0, ret))
    else
      WakeOk(s, q, 0, ret);
      Wake(s, q, 0, ret)
  }

  /** The popping loop of wait_queue_wake_all. */
  function Drain(s: Sched, q: Qid, ret: Status): (r: Sched)
    requires QueuesOk(s) && q in s.waiters
    ensures QueuesOk(r) && r.waiters == s.waiters[q := []] && r.current == s.current
    ensures r.threads.Keys == s.threads.Keys
    ensures Inv(s) ==> Inv(r)
    ensures Switching(s) ==> Switching(r)
    decreases |s.waiters[q]|
  {
    hide QueuesOk, Wake, Switching, Inv;
    if s.waiters[q] == [] then s
    else
      WakeOk(s, q, 0, ret);
      Drain(Wake(s, q, 0, ret), q, ret)
  }

  /** wait_queue_wake_all. */
  function WakeEvery(s: Sched, q: Qid, reschedule: bool, ret: Status): (r: Sched)
    requires Inv(s) && q in s.waiters
    ensures Inv(r)
  {
    if reschedule && s.waiters[q] != [] then
      MakeReadyOk(s, s.current, true);
      var s1 := Drain(MakeReady(s, s.current, true), q, ret);
      Resched(s1)
    else Drain(s, q, ret)
  }

  function IndexOf<T(==)>(l: seq<T>, x: T): (i: nat)
    requires x in l
    ensures i < |l| && l[i] == x
    ensures forall j :: 0 <= j < i ==> l[j] != x
  {
    if l[0] == x then 0 else 1 + IndexOf(l[1..], x)
  }

  /** thread_unblock_from_wait_queue with reschedule == false. */
  function UnblockThread(s: Sched, t: Tid, ret: Status): (r: Sched)
    requires Inv(s) && t in s.threads
    ensures Inv(r)
  {
    if !s.threads[t].state.Blocked? then s
    else
      var q := s.threads[t].waitingOn.value;
      WakeOk(s, q, IndexOf(s.waiters[q], t), ret);
      Wake(s, q, IndexOf(s.waiters[q], t), ret)
  }

  /** thread_create, which leaves the thread SUSPENDED. */
  function CreateThread(s: Sched, t: Tid, p: int): (r: Sched)
    requires Inv(s) && t !in s.threads && 0 <= p < NUM_PRIORITIES
    ensures Inv(r)
  {
    SetThread(s, t, Thread(p, Suspended, 0, None, NoError))
  }

  /** thread_timer_tick. */
  function TickCurrent(s: Sched): (r: Sched)
    requires Inv(s)
    ensures Inv(r)
  {
    if s.idle == Some(s.current) then s
    else SetThread(s, s.current, s.threads[s.current].(quantum := s.threads[s.current].quantum - 1))
  }

  /** thread_sleep_handler. */
  function WakeSleeper(s: Sched, t: Tid): (r: Sched)
    requires Inv(s) && t in s.threads && s.threads[t].state.Sleeping?
    ensures Inv(r)
  {
    MakeReadyOk(s, t, true);
    MakeReady(s, t, true)
  }

  /** thread_set_priority on a priority already in range; the running thread is on no queue. */
  function Reprioritize(s: Sched, p: int): (r: Sched)
    requires Inv(s) && 0 <= p < NUM_PRIORITIES
    ensures Inv(r)
  {
    SetThread(s, s.current, s.threads[s.current].(priority := p))
  }

  /** thread_become_idle. */
  function TurnIdle(s: Sched): (r: Sched)
    requires Inv(s)
    ensures Inv(r)
  {
    Reprioritize(s, IDLE_PRIORITY).(idle := Some(s.current))
  }

  /** wait_queue_init. */
  function AddQueue(s: Sched, q: Qid): (r: Sched)
    requires Inv(s) && q !in s.waiters
    ensures Inv(r)
  {
    s.(waiters := s.waiters[q := []])
  }

  function Next(s: Sched, op: Op): (r: Sched)
    requires Inv(s) && Allowed(s, op)
    ensures Inv(r)
  {
    match op
    case Create(t, p) => CreateThread(s, t, p)
    case Resume(t) => ResumeThread(s, t)
    case Yield => YieldTo(s)
    case Preempt => PreemptTo(s)
    case Tick => TickCurrent(s)
    case Sleep => LeaveTo(s, Sleeping)
    case SleepDone(t) => WakeSleeper(s, t)
    case Exit => LeaveTo(s, Death)
    case Reap(t) => Reaped(s, t)
    case SetPriority(p) => Reprioritize(s, ClampPriority(p))
    case BecomeIdle => TurnIdle(s)
    case InitQueue(q) => AddQueue(s, q)
    case BlockOn(q, timeout) => Block(s, q, timeout)
    case WakeOne(q, reschedule, ret) => WakeFirst(s, q, reschedule, ret)
    case WakeAll(q, reschedule, ret) => WakeEvery(s, q, reschedule, ret)
    case Unblock(t, ret) => UnblockThread(s, t, ret)
  }

  // ------------------------------------------------------------- preservation

  lemma MakeReadyOk(s: Sched, t: Tid, atHead: bool)
    requires QueuesOk(s)
    requires t in s.threads && !s.threads[t].state.Ready? && !s.threads[t].state.Blocked?
    ensures QueuesOk(MakeReady(s, t, atHead))
    ensures Inv(s) && t == s.current ==> Switching(MakeReady(s, t, atHead))
    ensures Inv(s) && t != s.current ==> Inv(MakeReady(s, t, atHead))
  {
    var r := SetThread(s, t, s.threads[t].(state := Ready));
    InsertOk(s, r, t, atHead);
    assert MakeReady(s, t, atHead) == Insert(r, t, atHead);
    assert WaitQueuesOk(r);
    assert 0 <= r.threads[t].priority < |r.runQueue|;
    hide RunQueuesOk, WaitQueuesOk;
    WaitQueuesFrame(r, Insert(r, t, atHead));
  }

  lemma WaitQueuesFrame(s: Sched, r: Sched)
    requires WaitQueuesOk(s) && r.threads == s.threads && r.waiters == s.waiters
    ensures WaitQueuesOk(r)
  {
  }

  /** Queueing t completes the run queues when t is the only READY thread not yet queued. */
  lemma InsertOk(s: Sched, r: Sched, t: Tid, atHead: bool)
    requires RunQueuesOk(s) && r.runQueue == s.runQueue
    requires t in s.threads && !s.threads[t].state.Ready?
    requires t in r.threads && r.threads == s.threads[t := r.threads[t]]
    requires r.threads[t].state.Ready? && r.threads[t].priority == s.threads[t].priority
    ensures RunQueuesOk(Insert(r, t, atHead))
  {
    var p := r.threads[t].priority;
    var l := Insert(r, t, atHead).runQueue[p];
    assert t !in s.runQueue[p];
    assert Distinct(l);
    assert forall u :: u in l <==> u == t || u in s.runQueue[p];
  }

  lemma GivenUpOk(s: Sched)
    requires Inv(s)
    ensures Switching(GivenUp(s))
  {
    var s1 := SetThread(s, s.current, s.threads[s.current].(quantum := 0));
    assert Inv(s1);
    MakeReadyOk(s1, s.current, false);
  }

  lemma InvFacts(s: Sched)
    requires Inv(s)
    ensures QueuesOk(s) && |s.runQueue| == NUM_PRIORITIES && s.boot in s.threads
    ensures s.current in s.threads && s.threads[s.current].state.Running?
    ensures forall t :: t in s.threads ==> 0 <= s.threads[t].priority < NUM_PRIORITIES
  {
  }

  lemma LeavingOk(s: Sched, st: ThreadState)
    requires Inv(s) && s.current != s.boot && (st.Sleeping? || st.Death?)
    ensures Switching(SetThread(s, s.current, s.threads[s.current].(state := st)))
  {
  }

  lemma ParkedOk(s: Sched, q: Qid)
    requires Inv(s) && q in s.waiters && s.current != s.boot
    ensures Switching(Parked(s, q))
  {
  }

  lemma RemoveAtMembers<T>(l: seq<T>, i: nat)
    requires i < |l| && Distinct(l)
    ensures Distinct(RemoveAt(l, i))
    ensures forall x :: x in RemoveAt(l, i) <==> x in l && x != l[i]
  {
    forall x | x in l && x != l[i]
      ensures x in RemoveAt(l, i)
    {
      var j :| 0 <= j < |l| && l[j] == x;
      assert RemoveAt(l, i)[if j < i then j else j - 1] == x;
    }
  }

  lemma WakeOk(s: Sched, q: Qid, i: nat, ret: Status)
    requires QueuesOk(s) && q in s.waiters && i < |s.waiters[q]|
    ensures var t := s.waiters[q][i]; t in s.threads && 0 <= s.threads[t].priority < NUM_PRIORITIES
    ensures QueuesOk(Wake(s, q, i, ret))
    ensures Inv(s) ==> Inv(Wake(s, q, i, ret))
    ensures Switching(s) ==> Switching(Wake(s, q, i, ret))
  {
    var t := s.waiters[q][i];
    assert t in s.waiters[q];
    var th := s.threads[t].(state := Ready, waitingOn := None, blockRet := ret);
    var r := SetThread(s.(waiters := s.waiters[q := RemoveAt(s.waiters[q], i)]), t, th);
    InsertOk(s, r, t, true);
    LeaveQueueOk(s, q, i, th);
    assert Wake(s, q, i, ret) == Insert(r, t, true);
    assert 0 <= r.threads[t].priority < |r.runQueue|;
    hide RunQueuesOk, WaitQueuesOk;
    WaitQueuesFrame(r, Insert(r, t, true));
  }

  lemma LeaveQueueOk(s: Sched, q: Qid, i: nat, th: Thread)
    requires WaitQueuesOk(s) && q in s.waiters && i < |s.waiters[q]|
    requires !th.state.Blocked? && th.waitingOn.None?
    ensures WaitQueuesOk(SetThread(s.(waiters := s.waiters[q := RemoveAt(s.waiters[q], i)]), s.waiters[q][i], th))
  {
    var l := s.waiters[q];
    assert l[i] in l;
    assert Distinct(l);
    RemoveAtMembers(l, i);
    var r := SetThread(s.(waiters := s.waiters[q := RemoveAt(l, i)]), l[i], th);
    assert forall u :: u in r.waiters[q] <==> u in l && u != l[i];
    assert forall q', u :: q' in r.waiters ==>
        (u in r.waiters[q'] <==> u in r.threads && r.threads[u].waitingOn == Some(q'));
  }

  /** The run queue is never empty at a reschedule, because the boot thread is in it. */
  lemma ReschedHasThread(s: Sched)
    requires Switching(s)
    ensures Scan(s.runQueue, HIGHEST_PRIORITY) >= s.threads[s.boot].priority
    ensures var p := Scan(s.runQueue, HIGHEST_PRIORITY);
      p >= 0 && s.runQueue[p] != [] && s.runQueue[p][0] in s.threads
  {
    assert s.boot in s.runQueue[s.threads[s.boot].priority];
    var p := Scan(s.runQueue, HIGHEST_PRIORITY);
    var t := s.runQueue[p][0];
    assert t in s.runQueue[p];
    assert t in s.threads;
  }

  lemma ReschedOk(s: Sched)
    requires Switching(s)
    ensures var p := Scan(s.runQueue, HIGHEST_PRIORITY);
      && p >= 0 && s.runQueue[p] != [] && s.runQueue[p][0] in s.threads
      && Inv(SwitchTo(s, p)) && NobodyOutranks(SwitchTo(s, p))
  {
    ReschedHasThread(s);
    SwitchKeepsInv(s, Scan(s.runQueue, HIGHEST_PRIORITY));
    SwitchPicksHighest(s, Scan(s.runQueue, HIGHEST_PRIORITY));
  }

  lemma SwitchKeepsInv(s: Sched, p: nat)
    requires Switching(s) && p < NUM_PRIORITIES && s.runQueue[p] != [] && s.runQueue[p][0] in s.threads
    ensures Inv(SwitchTo(s, p))
  {
    var l := s.runQueue[p];
    assert l[0] in l;
    SwitchRunQueues(s, p);
    hide RunQueuesOk;
    assert WaitQueuesOk(SwitchTo(s, p));
  }

  lemma SwitchRunQueues(s: Sched, p: nat)
    requires RunQueuesOk(s) && p < NUM_PRIORITIES && s.runQueue[p] != [] && s.runQueue[p][0] in s.threads
    ensures s.threads[s.runQueue[p][0]].state.Ready?
    ensures RunQueuesOk(SwitchTo(s, p))
  {
    var l := s.runQueue[p];
    var t := l[0];
    assert t in l;
    assert RemoveAt(l, 0) == l[1..];
    RemoveAtMembers(l, 0);
    assert forall u :: u in l[1..] <==> u in l && u != t;
  }

  /** The thread switched to outranks or equals every READY thread. */
  lemma SwitchPicksHighest(s: Sched, p: nat)
    requires Switching(s) && p == Scan(s.runQueue, HIGHEST_PRIORITY) && s.runQueue[p][0] in s.threads
    ensures NobodyOutranks(SwitchTo(s, p))
  {
    assert s.runQueue[p][0] in s.runQueue[p];
    forall u | u in s.threads && s.threads[u].state.Ready?
      ensures s.threads[u].priority <= p
    {
      assert u in s.runQueue[s.threads[u].priority];
    }
  }

  // ------------------------------------------------------------- whole runs

  /** thread_init_early: one running thread of the highest priority, all queues empty. */
  function Boot(b: Tid): (s: Sched)
    ensures Inv(s)
  {
    Sched(map[b := Thread(HIGHEST_PRIORITY, Running, 0, None, NoError)],
          seq(NUM_PRIORITIES, _ => []), map[], b, b, None)
  }

  ghost predicate AllowedRun(s: Sched, ops: seq<Op>)
    requires Inv(s)
    decreases |ops|
  {
    ops == [] || (Allowed(s, ops[0]) && AllowedRun(Next(s, ops[0]), ops[1..]))
  }

  ghost function Run(s: Sched, ops: seq<Op>): (r: Sched)
    requires Inv(s) && AllowedRun(s, ops)
    ensures Inv(r)
    decreases |ops|
  {
    if ops == [] then s else Run(Next(s, ops[0]), ops[1..])
  }

  /** Number of times t stands in the first n run queues. */
  ghost function QueuedBelow(rq: seq<seq<Tid>>, t: Tid, n: nat): nat
    requires n <= |rq|
  {
    if n == 0 then 0 else QueuedBelow(rq, t, n - 1) + multiset(rq[n-1])[t]
  }

  lemma {:induction false} DistinctCount<T>(l: seq<T>, x: T)
    requires Distinct(l)
    ensures multiset(l)[x] == if x in l then 1 else 0
  {
    if l == [] {
    } else {
      var n := |l| - 1;
      assert l == l[..n] + [l[n]];
      DistinctCount(l[..n], x);
    }
  }

  lemma {:induction false} QueuedOnce(s: Sched, t: Tid, n: nat)
    requires Inv(s) && t in s.threads && n <= NUM_PRIORITIES
    ensures QueuedBelow(s.runQueue, t, n) ==
            if s.threads[t].state.Ready? && s.threads[t].priority < n then 1 else 0
  {
    if n == 0 {
    } else {
      QueuedOnce(s, t, n - 1);
      DistinctCount(s.runQueue[n-1], t);
    }
  }

  /** In every reachable state each thread is queued as its state says, and only there. */
  lemma {:induction false} ReachableStates(b: Tid, ops: seq<Op>, t: Tid)
    requires AllowedRun(Boot(b), ops)
    ensures var s := Run(Boot(b), ops);
      && (t in s.threads ==>
            && QueuedBelow(s.runQueue, t, |s.runQueue|) == (if s.threads[t].state.Ready? then 1 else 0)
            && (s.threads[t].state.Ready? ==> t in s.runQueue[s.threads[t].priority])
            && (s.threads[t].state.Running? <==> t == s.current)
            && (forall q :: q in s.waiters ==>
                  multiset(s.waiters[q])[t] == if s.threads[t].waitingOn == Some(q) then 1 else 0)
            && (s.threads[t].state.Blocked? <==> s.threads[t].waitingOn.Some?))
  {
    var s := Run(Boot(b), ops);
    if t in s.threads {
      QueuedOnce(s, t, NUM_PRIORITIES);
      forall q | q in s.waiters
        ensures multiset(s.waiters[q])[t] == if s.threads[t].waitingOn == Some(q) then 1 else 0
      {
        DistinctCount(s.waiters[q], t);
      }
    }
  }

  // ------------------------------------------------------------- round robin

  /** The running thread followed by its run queue. */
  ghost function Cycle(s: Sched): seq<Tid>
    requires Inv(s)
  {
    [s.current] + s.runQueue[s.threads[s.current].priority]
  }

  ghost function Yields(s: Sched, k: nat): (r: Sched)
    requires Inv(s)
    ensures Inv(r)
  {
    if k == 0 then s else YieldTo(Yields(s, k - 1))
  }

  lemma NonEmptyNotAbove(s: Sched, k: nat)
    requires Inv(s) && NobodyOutranks(s) && k < NUM_PRIORITIES && s.runQueue[k] != []
    ensures k <= s.threads[s.current].priority
  {
    var t := s.runQueue[k][0];
    assert t in s.runQueue[k];
    assert t in s.threads && s.threads[t].state.Ready? && s.threads[t].priority == k;
  }

  lemma ScanAfterYield(s: Sched, rq: seq<seq<Tid>>)
    requires Inv(s) && NobodyOutranks(s)
    requires var p := s.threads[s.current].priority;
      rq == s.runQueue[p := s.runQueue[p] + [s.current]]
    ensures Scan(rq, HIGHEST_PRIORITY) == s.threads[s.current].priority
  {
    var p := s.threads[s.current].priority;
    var r := Scan(rq, HIGHEST_PRIORITY);
    assert rq[p] != [];
    if r > p {
      NonEmptyNotAbove(s, r);
    }
  }

  /** What a reschedule does once the queue it takes from is known. */
  lemma ReschedFrom(s: Sched, p: nat)
    requires Switching(s) && p == Scan(s.runQueue, HIGHEST_PRIORITY)
    ensures Resched(s).current == s.runQueue[p][0]
    ensures Resched(s).runQueue == s.runQueue[p := s.runQueue[p][1..]]
    ensures Resched(s).current in Resched(s).threads && Resched(s).threads[Resched(s).current].priority == p
  {
    var t := s.runQueue[p][0];
    assert t in s.runQueue[p];
  }

  lemma YieldRotates(s: Sched)
    requires Inv(s) && NobodyOutranks(s)
    ensures Cycle(YieldTo(s)) == Cycle(s)[1..] + [Cycle(s)[0]]
  {
    var c := s.current;
    var p := s.threads[c].priority;
    var s1 := GivenUp(s);
    assert s1.runQueue == s.runQueue[p := s.runQueue[p] + [c]];
    ScanAfterYield(s, s1.runQueue);
    GivenUpOk(s);
    ReschedFrom(s1, p);
    RotateQueue(s.runQueue[p], c);
  }

  lemma RotateQueue<T>(l: seq<T>, c: T)
    ensures [(l + [c])[0]] + (l + [c])[1..] == ([c] + l)[1..] + [([c] + l)[0]]
  {
  }

  lemma RotateOnce<T>(c: seq<T>, k: nat)
    requires 0 < k <= |c|
    ensures var r := c[k-1..] + c[..k-1]; r[1..] + [r[0]] == c[k..] + c[..k]
  {
  }

  /** After k yields the cycle has turned by k places. */
  lemma {:induction false} YieldsRotate(s: Sched, k: nat)
    requires Inv(s) && NobodyOutranks(s) && k <= |Cycle(s)|
    ensures NobodyOutranks(Yields(s, k))
    ensures Cycle(Yields(s, k)) == Cycle(s)[k..] + Cycle(s)[..k]
  {
    if k == 0 {
    } else {
      YieldsRotate(s, k - 1);
      YieldRotates(Yields(s, k - 1));
      RotateOnce(Cycle(s), k);
    }
  }

  lemma YieldsPosition(s: Sched, k: nat)
    requires Inv(s) && NobodyOutranks(s) && k < |Cycle(s)|
    ensures Yields(s, k).current == Cycle(s)[k]
  {
    YieldsRotate(s, k);
    assert Cycle(Yields(s, k))[0] == Yields(s, k).current;
  }

  lemma CycleMembers(s: Sched)
    requires Inv(s)
    ensures Distinct(Cycle(s))
    ensures forall t :: t in Cycle(s) <==>
              t in s.threads && (s.threads[t].state.Ready? || s.threads[t].state.Running?) &&
              s.threads[t].priority == s.threads[s.current].priority
  {
  }

  /**
   * Repeated yields among the n runnable threads of the top priority run each of
   * them exactly once per n yields and then start over.
   */
  lemma YieldsVisitEachOnce(s: Sched, t: Tid)
    requires Inv(s) && NobodyOutranks(s)
    requires t in s.threads && (s.threads[t].state.Ready? || s.threads[t].state.Running?)
    requires s.threads[t].priority == s.threads[s.current].priority
    ensures exists k :: 0 <= k < |Cycle(s)| && Yields(s, k).current == t
    ensures forall j, k :: 0 <= j < k < |Cycle(s)| ==> Yields(s, j).current != Yields(s, k).current
    ensures Cycle(Yields(s, |Cycle(s)|)) == Cycle(s)
  {
    var n := |Cycle(s)|;
    CycleMembers(s);
    var k :| 0 <= k < n && Cycle(s)[k] == t;
    YieldsPosition(s, k);
    forall i, j | 0 <= i < j < n
      ensures Yields(s, i).current != Yields(s, j).current
    {
      YieldsPosition(s, i);
      YieldsPosition(s, j);
    }
    YieldsRotate(s, n);
  }

  // ------------------------------------------------------------- who runs next

  /** With time left and nobody above, preemption changes nothing; without, it turns the cycle like a yield. */
  lemma PreemptResult(s: Sched)
    requires Inv(s) && NobodyOutranks(s)
    ensures s.threads[s.current].quantum > 0 ==> PreemptTo(s) == s
    ensures s.threads[s.current].quantum <= 0 ==> Cycle(PreemptTo(s)) == Cycle(s)[1..] + [Cycle(s)[0]]
  {
    var c := s.current;
    var p := s.threads[c].priority;
    var front := s.threads[c].quantum > 0;
    var s1 := MakeReady(s, c, front);
    MakeReadyOk(s, c, front);
    if front {
      ScanWithCurrent(s, s1.runQueue);
      ReschedFrom(s1, p);
      assert s1.runQueue[p][1..] == s.runQueue[p];
      assert PreemptTo(s).runQueue == s.runQueue;
      assert PreemptTo(s).threads == s.threads;
    } else {
      ScanAfterYield(s, s1.runQueue);
      ReschedFrom(s1, p);
      RotateQueue(s.runQueue[p], c);
    }
  }

  lemma ScanWithCurrent(s: Sched, rq: seq<seq<Tid>>)
    requires Inv(s) && NobodyOutranks(s)
    requires var p := s.threads[s.current].priority;
      rq == s.runQueue[p := [s.current] + s.runQueue[p]]
    ensures Scan(rq, HIGHEST_PRIORITY) == s.threads[s.current].priority
  {
    var p := s.threads[s.current].priority;
    var r := Scan(rq, HIGHEST_PRIORITY);
    assert rq[p] != [];
    if r > p {
      NonEmptyNotAbove(s, r);
    }
  }

  /** What waking the first waiter changes, queue by queue. */
  lemma WakeEffect(s: Sched, q: Qid, ret: Status)
    requires QueuesOk(s) && q in s.waiters && s.waiters[q] != []
    ensures s.waiters[q][0] in s.threads
    ensures var w := s.waiters[q][0]; var p := s.threads[w].priority; var r := Wake(s, q, 0, ret);
      && 0 <= p < NUM_PRIORITIES
      && r.runQueue == s.runQueue[p := [w] + s.runQueue[p]]
      && r.waiters == s.waiters[q := s.waiters[q][1..]]
      && r.current == s.current
      && r.threads == s.threads[w := s.threads[w].(state := Ready, waitingOn := None, blockRet := ret)]
  {
    var w := s.waiters[q][0];
    assert w in s.waiters[q];
    assert RemoveAt(s.waiters[q], 0) == s.waiters[q][1..];
  }

  lemma PopAfterPush<T>(rq: seq<seq<T>>, p: nat, x: T)
    requires p < |rq|
    ensures var r := rq[p := [x] + rq[p]]; r[p := r[p][1..]] == rq
  {
    assert ([x] + rq[p])[1..] == rq[p];
  }

  /** No READY or RUNNING thread has a priority above p. */
  ghost predicate Tops(s: Sched, p: int) {
    forall t :: t in s.threads && (s.threads[t].state.Ready? || s.threads[t].state.Running?) ==>
        s.threads[t].priority <= p
  }

  /**
   * A rescheduling wake-up runs the first waiter at once exactly when nobody able to run
   * outranks it, and the caller exactly when the caller outranks the waiter and nobody
   * outranks the caller.  Whoever gives way is first in line at its own priority, the waiter
   * before the caller if that is the same.
   */
  lemma WokenRunsIff(s: Sched, q: Qid, ret: Status)
    requires Inv(s) && q in s.waiters && s.waiters[q] != []
    ensures s.waiters[q][0] in s.threads && 0 <= s.threads[s.waiters[q][0]].priority < NUM_PRIORITIES
    ensures var w := s.waiters[q][0]; var c := s.current; var r := WakeFirst(s, q, true, ret);
      var pw, pc := s.threads[w].priority, s.threads[c].priority;
      && r.waiters == s.waiters[q := s.waiters[q][1..]] && NobodyOutranks(r)
      && (r.current == w <==> Tops(s, pw))
      && (r.current == c <==> pw < pc && Tops(s, pc))
      && (r.current == w ==> r.runQueue[pc] == [c] + s.runQueue[pc])
      && (r.current == c ==> r.runQueue[pw] == [w] + s.runQueue[pw])
      && (r.current != w && r.current != c ==>
            if pw == pc then r.runQueue[pw] == [w] + ([c] + s.runQueue[pw])
            else r.runQueue[pw] == [w] + s.runQueue[pw] && r.runQueue[pc] == [c] + s.runQueue[pc])
  {
    hide QueuesOk, Wake, Scan, Tops;
    InvFacts(s);
    var w, c := s.waiters[q][0], s.current;
    WakeEffect(s, q, ret);
    var pw, pc := s.threads[w].priority, s.threads[c].priority;
    var s1 := MakeReady(s, c, true);
    MakeReadyOk(s, c, true);
    WakeEffect(s1, q, ret);
    WakeOk(s1, q, 0, ret);
    var s2 := Wake(s1, q, 0, ret);
    WokenIsNew(s, q);
    ScanAfterWake(s, s2.runQueue, pw, w);
    var p := Scan(s2.runQueue, HIGHEST_PRIORITY);
    ReschedFrom(s2, p);
    if p == pw {
      PopAfterPush(s1.runQueue, pw, w);
    } else if p == pc {
      assert ([c] + s.runQueue[pc])[1..] == s.runQueue[pc];
    }
  }

  lemma WokenIsNew(s: Sched, q: Qid)
    requires Inv(s) && q in s.waiters && s.waiters[q] != []
    ensures var w := s.waiters[q][0]; w != s.current && forall k :: 0 <= k < |s.runQueue| ==> w !in s.runQueue[k]
    ensures forall k :: 0 <= k < |s.runQueue| ==> s.current !in s.runQueue[k]
  {
    var w := s.waiters[q][0];
    assert w in s.waiters[q];
    assert s.threads[w].state.Blocked? && s.threads[s.current].state.Running?;
    forall k | 0 <= k < |s.runQueue|
      ensures w !in s.runQueue[k] && s.current !in s.runQueue[k]
    {
      assert forall t :: t in s.runQueue[k] ==> t in s.threads && s.threads[t].state.Ready?;
    }
  }

  /** Where the scan ends once the caller and then the waiter have been pushed. */
  lemma ScanAfterWake(s: Sched, rq: seq<seq<Tid>>, pw: nat, w: Tid)
    requires Inv(s) && pw < NUM_PRIORITIES
    requires var pc := s.threads[s.current].priority;
      var rq1 := s.runQueue[pc := [s.current] + s.runQueue[pc]];
      rq == rq1[pw := [w] + rq1[pw]]
    ensures var pc := s.threads[s.current].priority; var p := Scan(rq, HIGHEST_PRIORITY);
      && 0 <= p && p >= pw && p >= pc
      && (p == pw <==> Tops(s, pw)) && (p == pc <==> pw <= pc && Tops(s, pc))
      && (p != pw && p != pc ==> s.runQueue[p] != [] && rq[p] == s.runQueue[p])
  {
    var pc := s.threads[s.current].priority;
    var p := Scan(rq, HIGHEST_PRIORITY);
    assert rq[pw] != [] && rq[pc] != [];
    assert forall k :: 0 <= k < NUM_PRIORITIES && k != pw && k != pc ==> rq[k] == s.runQueue[k];
    if p == pw {
      NobodyAbove(s, rq, pw);
    } else if p == pc {
      NobodyAbove(s, rq, pc);
    } else {
      var t := s.runQueue[p][0];
      assert t in s.runQueue[p];
      assert t in s.threads && s.threads[t].priority == p && s.threads[t].state.Ready?;
    }
  }

  lemma NobodyAbove(s: Sched, rq: seq<seq<Tid>>, p: nat)
    requires Inv(s) && |rq| == NUM_PRIORITIES && s.threads[s.current].priority <= p
    requires forall k :: p < k < NUM_PRIORITIES ==> rq[k] == [] && rq[k] == s.runQueue[k]
    ensures Tops(s, p)
  {
    forall t | t in s.threads && s.threads[t].state.Ready?
      ensures s.threads[t].priority <= p
    {
      assert t in s.runQueue[s.threads[t].priority];
    }
  }

  ghost function OfPriority(s: Sched, l: seq<Tid>, p: int): seq<Tid>
    requires forall t :: t in l ==> t in s.threads
  {
    if l == [] then []
    else
      var t := l[0];
      assert t in l;
      (if s.threads[t].priority == p then [t] else []) + OfPriority(s, l[1..], p)
  }

  ghost function Reversed<T>(l: seq<T>): seq<T> {
    if l == [] then [] else Reversed(l[1..]) + [l[0]]
  }

  lemma {:induction false} OfPrioritySame(s: Sched, r: Sched, l: seq<Tid>, p: int)
    requires forall t :: t in l ==> t in s.threads && t in r.threads && s.threads[t].priority == r.threads[t].priority
    ensures OfPriority(s, l, p) == OfPriority(r, l, p)
  {
    if l == [] {
    } else {
      var t := l[0];
      assert t in l;
      OfPrioritySame(s, r, l[1..], p);
    }
  }

  lemma WaitersExist(s: Sched, q: Qid)
    requires QueuesOk(s) && q in s.waiters
    ensures forall t :: t in s.waiters[q] ==> t in s.threads
  {
  }

  lemma QueueCount(s: Sched)
    requires QueuesOk(s)
    ensures |s.runQueue| == NUM_PRIORITIES
  {
  }

  lemma ReversedStep(t: Tid, rest: seq<Tid>, tail: seq<Tid>)
    ensures Reversed(rest) + ([t] + tail) == Reversed([t] + rest) + tail
  {
    assert ([t] + rest)[1..] == rest;
  }

  /**
   * Waking everybody pushes the waiters of each priority in front of that run queue,
   * in the reverse of the order they had waited in, and leaves the rest in place.
   */
  lemma {:induction false} DrainReversesWaiters(s: Sched, q: Qid, ret: Status, p: nat)
    requires QueuesOk(s) && q in s.waiters && p < NUM_PRIORITIES
    ensures forall t :: t in s.waiters[q] ==> t in s.threads
    ensures Drain(s, q, ret).runQueue[p] == Reversed(OfPriority(s, s.waiters[q], p)) + s.runQueue[p]
    decreases |s.waiters[q]|
  {
    hide QueuesOk, Wake;
    WaitersExist(s, q);
    QueueCount(s);
    var l := s.waiters[q];
    if l == [] {
      assert OfPriority(s, l, p) == [];
      assert [] + s.runQueue[p] == s.runQueue[p];
    } else {
      WakeOk(s, q, 0, ret);
      var s1 := Wake(s, q, 0, ret);
      QueueCount(s1);
      assert s1.runQueue[p] == (if s.threads[l[0]].priority == p then [l[0]] else []) + s.runQueue[p]
        && s1.waiters[q] == l[1..]
        && OfPriority(s, l[1..], p) == OfPriority(s1, l[1..], p)
      by {
        WakeEffect(s, q, ret);
        OfPrioritySame(s, s1, l[1..], p);
      }
      DrainReversesWaiters(s1, q, ret, p);
      var rest := OfPriority(s, l[1..], p);
      ReversedStep(l[0], rest, s.runQueue[p]);
      assert [] + rest == rest && [] + s.runQueue[p] == s.runQueue[p];
      assert Drain(s, q, ret) == Drain(s1, q, ret);
    }
  }

  /**
   * What becomes of t by itself once it has been made READY: the timer of a sleeper
   * still fires, and the cleanup of a dead thread still frees it.
   */
  ghost function Overtaken(s: Sched, r: Sched, t: Tid): Sched
    requires t in s.threads && t in r.threads && 0 <= r.threads[t].priority < |r.runQueue|
  {
    match s.threads[t].state
    case Sleeping => MakeReady(r, t, true)
    case Death => r.(threads := r.threads - {t})
    case _ => r
  }

  /**
   * thread_resume checks only for READY and RUNNING.  Resuming any other thread keeps the
   * queues consistent, then and when what is already under way for it happens, exactly
   * when the thread is SUSPENDED.
   */
  lemma ResumeSafeIffSuspended(s: Sched, t: Tid)
    requires Inv(s) && t in s.threads && !s.threads[t].state.Ready? && !s.threads[t].state.Running?
    ensures 0 <= s.threads[t].priority < |s.runQueue|
    ensures var r := MakeReady(s, t, true);
      QueuesOk(r) && QueuesOk(Overtaken(s, r, t)) <==> s.threads[t].state.Suspended?
  {
    match s.threads[t].state
    case Blocked => ResumedBlockedThread(s, t);
    case Sleeping => ResumedSleeper(s, t);
    case Death => ResumedDeadThread(s, t);
    case Suspended => MakeReadyOk(s, t, true);
  }

  /** A blocked thread stays on its wait queue. */
  lemma ResumedBlockedThread(s: Sched, t: Tid)
    requires Inv(s) && t in s.threads && s.threads[t].state.Blocked?
    ensures !QueuesOk(MakeReady(s, t, true))
  {
    assert !MakeReady(s, t, true).threads[t].state.Blocked?;
  }

  /** A sleeper is all right until its timer queues it a second time. */
  lemma ResumedSleeper(s: Sched, t: Tid)
    requires Inv(s) && t in s.threads && s.threads[t].state.Sleeping?
    ensures var r := MakeReady(s, t, true); QueuesOk(r) && !QueuesOk(MakeReady(r, t, true))
  {
    MakeReadyOk(s, t, true);
    var r := MakeReady(s, t, true);
    var p := r.threads[t].priority;
    var l := MakeReady(r, t, true).runQueue[p];
    assert r.runQueue[p][0] == t;
    assert l[0] == t && l[1] == t;
  }

  /** A dead thread is freed while it is queued. */
  lemma ResumedDeadThread(s: Sched, t: Tid)
    requires Inv(s) && t in s.threads && s.threads[t].state.Death?
    ensures var r := MakeReady(s, t, true); QueuesOk(r) && !QueuesOk(r.(threads := r.threads - {t}))
  {
    MakeReadyOk(s, t, true);
    var r := MakeReady(s, t, true);
    assert t in r.runQueue[r.threads[t].priority];
  }

  // ------------------------------------------------------------- what a step leaves alone

  predicate Runnable(s: Sched, t: Tid)
    requires t in s.threads
  {
    s.threads[t].state.Ready? || s.threads[t].state.Running?
  }

  /** t is as blocked, or as runnable, as before and will see the same wait result. */
  predicate Kept(s: Sched, r: Sched, t: Tid) {
    && t in s.threads && t in r.threads
    && r.threads[t].blockRet == s.threads[t].blockRet
    && r.threads[t].waitingOn == s.threads[t].waitingOn
    && (r.threads[t].state == s.threads[t].state || (Runnable(s, t) && Runnable(r, t)))
  }

  lemma ReschedKept(s: Sched, t: Tid)
    requires Switching(s) && t in s.threads
    ensures Kept(s, Resched(s), t) && Resched(s).waiters == s.waiters 
  {
    hide Inv, NobodyOutranks, WaitQueuesOk, BootOk;
    ReschedHasThread(s);
    var p := Scan(s.runQueue, HIGHEST_PRIORITY);
    SwitchRunQueues(s, p);
    hide RunQueuesOk;
  }

  lemma BlockKept(s: Sched, q: Qid, timeout: Timeout, t: Tid)
    requires Inv(s) && q in s.waiters && s.current != s.boot && !timeout.Zero? && t in s.threads
    ensures var r := Block(s, q, timeout); var c := s.current;
      && r.waiters == s.waiters[q := s.waiters[q] + [c]]
      && c in r.threads && r.threads[c].state.Blocked? && r.threads[c].waitingOn == Some(q)
      && r.threads[c].blockRet.NoError?
      && (t != c ==> Kept(s, r, t))
  {
    ParkedOk(s, q);
    InvFacts(s);
    hide Inv, Switching, QueuesOk;
    ReschedKept(Parked(s, q), s.current);
    ReschedKept(Parked(s, q), t);
  }

  lemma WakeFirstKept(s: Sched, q: Qid, reschedule: bool, ret: Status, t: Tid)
    requires Inv(s) && q in s.waiters && s.waiters[q] != [] && t in s.threads
    ensures s.waiters[q][0] in s.threads
    ensures var r := WakeFirst(s, q, reschedule, ret); var w := s.waiters[q][0];
      && r.waiters == s.waiters[q := s.waiters[q][1..]]
      && w in r.threads && Runnable(r, w) && r.threads[w].blockRet == ret && r.threads[w].waitingOn == None
      && (t != w ==> Kept(s, r, t))
  {
    hide Switching, QueuesOk, Wake;
    InvFacts(s);
    WakeEffect(s, q, ret);
    var w := s.waiters[q][0];
    if reschedule {
      var s1 := MakeReady(s, s.current, true);
      MakeReadyOk(s, s.current, true);
      WakeEffect(s1, q, ret);
      WakeOk(s1, q, 0, ret);
      ReschedKept(Wake(s1, q, 0, ret), w);
      ReschedKept(Wake(s1, q, 0, ret), t);
    }
  }

  lemma DrainKept(s: Sched, q: Qid, ret: Status, t: Tid)
    requires QueuesOk(s) && q in s.waiters && t in s.threads && s.threads[t].waitingOn != Some(q)
    ensures Kept(s, Drain(s, q, ret), t)
    decreases |s.waiters[q]|
  {
    if s.waiters[q] == [] {
    } else {
      WakeEffect(s, q, ret);
      WakeOk(s, q, 0, ret);
      DrainKept(Wake(s, q, 0, ret), q, ret, t);
    }
  }

  lemma WakeEveryKept(s: Sched, q: Qid, reschedule: bool, ret: Status, t: Tid)
    requires Inv(s) && q in s.waiters && t in s.threads && s.threads[t].waitingOn != Some(q)
    ensures var r := WakeEvery(s, q, reschedule, ret);
      Kept(s, r, t) && r.waiters == s.waiters[q := []]
  {
    if reschedule && s.waiters[q] != [] {
      InvFacts(s);
      MakeReadyOk(s, s.current, true);
      var s1 := MakeReady(s, s.current, true);
      DrainKept(s1, q, ret, t);
      ReschedKept(Drain(s1, q, ret), t);
    } else {
      DrainKept(s, q, ret, t);
    }
  }

  lemma UnblockKept(s: Sched, t: Tid, ret: Status, u: Tid)
    requires Inv(s) && t in s.threads && s.threads[t].state.Blocked? && u in s.threads
    ensures s.threads[t].waitingOn.Some? && s.threads[t].waitingOn.value in s.waiters
    ensures t in s.waiters[s.threads[t].waitingOn.value]
    ensures var q := s.threads[t].waitingOn.value; var r := UnblockThread(s, t, ret);
      && r.waiters == s.waiters[q := RemoveAt(s.waiters[q], IndexOf(s.waiters[q], t))]
      && r.current == s.current
      && t in r.threads && Runnable(r, t) && r.threads[t].blockRet == ret && r.threads[t].waitingOn == None
      && (u != t ==> Kept(s, r, u))
  {
  }

  lemma YieldKept(s: Sched, t: Tid)
    requires Inv(s) && t in s.threads
    ensures Kept(s, YieldTo(s), t) && YieldTo(s).waiters == s.waiters
  {
    InvFacts(s);
    GivenUpOk(s);
    ReschedKept(GivenUp(s), t);
  }

  /** op neither uses wait queue q nor acts on or as one of the threads in ts, except to reschedule. */
  predicate Elsewhere(s: Sched, op: Op, q: Qid, ts: set<Tid>) {
    match op
    case InitQueue(q') => q' != q
    case BlockOn(q', timeout) => q' != q && s.current !in ts
    case WakeOne(q', _, _) => q' != q
    case WakeAll(q', _, _) => q' != q
    case Unblock(t, _) => t in s.threads && s.threads[t].waitingOn != Some(q) && t !in ts
    case Sleep => s.current !in ts
    case Exit => s.current !in ts
    case _ => true
  }

  lemma ElsewhereKept(s: Sched, op: Op, q: Qid, ts: set<Tid>, t: Tid)
    requires Inv(s) && Allowed(s, op) && q in s.waiters && Elsewhere(s, op, q, ts)
    requires t in ts && t in s.threads && (s.threads[t].waitingOn == Some(q) || Runnable(s, t))
    ensures Kept(s, Next(s, op), t)
  {
    StepKept(s, op, t);
  }

  /** op neither acts on t or as t nor wakes the wait queue t is on. */
  predicate LeavesAlone(s: Sched, op: Op, t: Tid)
    requires t in s.threads
  {
    match op
    case Resume(u) => u != t || Runnable(s, t)
    case SleepDone(u) => u != t
    case Sleep => t != s.current
    case Exit => t != s.current
    case Reap(u) => u != t
    case BlockOn(_, _) => t != s.current
    case WakeOne(q, _, _) => s.threads[t].waitingOn != Some(q)
    case WakeAll(q, _, _) => s.threads[t].waitingOn != Some(q)
    case Unblock(u, _) => u != t
    case _ => true
  }

  /**
   * thread_unblock_from_wait_queue with a reschedule does not queue its caller first: the
   * caller is left RUNNING, off the CPU and on no run queue.
   */
  lemma RescheduledUnblockLosesCaller(s: Sched, t: Tid, ret: Status)
    requires Inv(s) && t in s.threads && s.threads[t].state.Blocked?
    ensures var u := UnblockThread(s, t, ret); var p := Scan(u.runQueue, HIGHEST_PRIORITY);
      && 0 <= p < |u.runQueue| && u.runQueue[p] != [] && u.runQueue[p][0] in u.threads
      && var r := SwitchTo(u, p); var c := s.current;
         && r.current != c && c in r.threads && r.threads[c].state.Running? && !Inv(r)
         && forall k :: 0 <= k < |r.runQueue| ==> c !in r.runQueue[k]
  {
    UnblockKept(s, t, ret, s.current);
    var u := UnblockThread(s, t, ret);
    InvFacts(u);
    var k := u.threads[t].priority;
    assert t in u.runQueue[k];
    var p := Scan(u.runQueue, HIGHEST_PRIORITY);
    assert 0 <= k <= p < NUM_PRIORITIES && RunQueuesOk(u);
    var h := u.runQueue[p][0];
    assert h in u.runQueue[p];
    assert h in u.threads && u.threads[h].state.Ready?;
    forall k | 0 <= k < |u.runQueue|
      ensures s.current !in u.runQueue[k]
    {
      assert u.threads[s.current].state.Running?;
    }
  }

  lemma Untouched(s: Sched, t: Tid)
    requires t in s.threads
    ensures Kept(s, s, t)
  {
  }

  /** The operations that neither park nor switch. */
  lemma OthersKept(s: Sched, op: Op, t: Tid)
    requires Inv(s) && Allowed(s, op) && t in s.threads && LeavesAlone(s, op, t)
    requires op.Create? || op.Tick? || op.SleepDone? || op.Reap? || op.SetPriority? || op.BecomeIdle? || op.InitQueue?
    ensures Kept(s, Next(s, op), t)
  {
    hide Inv, QueuesOk;
    InvFacts(s);
  }

  /**
   * A step leaves t as blocked or as runnable as it was, with the same wait result, unless
   * it acts on t, as t, or on t's wait queue.
   */
  lemma StepKept(s: Sched, op: Op, t: Tid)
    requires Inv(s) && Allowed(s, op) && t in s.threads
    requires LeavesAlone(s, op, t)
    ensures Kept(s, Next(s, op), t)
  {
    hide Inv, QueuesOk, Kept;
    InvFacts(s);
    match op
    case Resume(u) => ResumeKept(s, u, t);
    case Yield => YieldKept(s, t);
    case Preempt => PreemptKept(s, t);
    case Sleep => LeaveKept(s, Sleeping, t);
    case Exit => LeaveKept(s, Death, t);
    case BlockOn(q, timeout) =>
      if timeout.Zero? {
        Untouched(s, t);
      } else {
        BlockKept(s, q, timeout, t);
      }
    case WakeOne(q, r, ret) =>
      if s.waiters[q] == [] {
        Untouched(s, t);
      } else {
        WakeOther(s, q, t);
        WakeFirstKept(s, q, r, ret, t);
      }
    case WakeAll(q, r, ret) => WakeEveryKept(s, q, r, ret, t);
    case Unblock(u, ret) =>
      if s.threads[u].state.Blocked? {
        UnblockKept(s, u, ret, t);
      } else {
        Untouched(s, t);
      }
    case _ => OthersKept(s, op, t);
  }

  lemma ReschedPriority(s: Sched, t: Tid)
    requires Switching(s) && t in s.threads
    ensures t in Resched(s).threads && Resched(s).threads[t].priority == s.threads[t].priority
  {
    hide Inv, NobodyOutranks, QueuesOk;
    ReschedHasThread(s);
  }

  lemma {:induction false} DrainPriority(s: Sched, q: Qid, ret: Status, t: Tid)
    requires QueuesOk(s) && q in s.waiters && t in s.threads
    ensures t in Drain(s, q, ret).threads && Drain(s, q, ret).threads[t].priority == s.threads[t].priority
    decreases |s.waiters[q]|
  {
    hide QueuesOk, Wake;
    if s.waiters[q] == [] {
    } else {
      QueueCount(s);
      WakeEffect(s, q, ret);
      WakeOk(s, q, 0, ret);
      DrainPriority(Wake(s, q, 0, ret), q, ret, t);
    }
  }

  lemma WakePriority(s: Sched, q: Qid, reschedule: bool, ret: Status, t: Tid)
    requires Inv(s) && q in s.waiters && t in s.threads
    ensures t in WakeEvery(s, q, reschedule, ret).threads && t in WakeFirst(s, q, reschedule, ret).threads
    ensures WakeEvery(s, q, reschedule, ret).threads[t].priority == s.threads[t].priority
    ensures WakeFirst(s, q, reschedule, ret).threads[t].priority == s.threads[t].priority
  {
    hide QueuesOk, Wake, Switching, Drain, Resched;
    InvFacts(s);
    var s1 := if reschedule then MakeReady(s, s.current, true) else s;
    if reschedule {
      MakeReadyOk(s, s.current, true);
    }
    DrainPriority(s1, q, ret, t);
    DrainPriority(s, q, ret, t);
    if s.waiters[q] != [] {
      WakeEffect(s1, q, ret);
      WakeOk(s1, q, 0, ret);
      if reschedule {
        ReschedPriority(Drain(s1, q, ret), t);
        ReschedPriority(Wake(s1, q, 0, ret), t);
      }
    }
  }

  /** No call changes a thread's priority but the two that set the caller's own. */
  lemma StepKeepsPriority(s: Sched, op: Op, t: Tid)
    requires Inv(s) && Allowed(s, op) && t in s.threads && op != Reap(t)
    ensures t in Next(s, op).threads
    ensures Next(s, op).threads[t].priority == s.threads[t].priority
      || (t == s.current && (op.SetPriority? || op.BecomeIdle?))
  {
    hide Inv, QueuesOk, Switching, NobodyOutranks, Resched, WakeFirst, WakeEvery, Wake;
    InvFacts(s);
    var c := s.current;
    match op
    case Resume(u) =>
      if s.threads[u].state.Suspended? {
        MakeReadyOk(s, u, true);
        YieldPriority(MakeReady(s, u, true), t);
      }
    case Yield => YieldPriority(s, t);
    case Preempt =>
      MakeReadyOk(s, c, s.threads[c].quantum > 0);
      ReschedPriority(MakeReady(s, c, s.threads[c].quantum > 0), t);
    case Sleep =>
      LeavingOk(s, Sleeping);
      ReschedPriority(SetThread(s, c, s.threads[c].(state := Sleeping)), t);
    case Exit =>
      LeavingOk(s, Death);
      ReschedPriority(SetThread(s, c, s.threads[c].(state := Death)), t);
    case BlockOn(q, timeout) =>
      if !timeout.Zero? {
        ParkedOk(s, q);
        ReschedPriority(Parked(s, q), t);
      }
    case WakeOne(q, r, ret) => WakePriority(s, q, r, ret, t);
    case WakeAll(q, r, ret) => WakePriority(s, q, r, ret, t);
    case Unblock(u, ret) =>
      if s.threads[u].state.Blocked? {
        UnblockPriority(s, u, ret, t);
      }
    case _ =>
  }

  lemma YieldPriority(s: Sched, t: Tid)
    requires Inv(s) && t in s.threads
    ensures t in YieldTo(s).threads && YieldTo(s).threads[t].priority == s.threads[t].priority
  {
    hide Resched, QueuesOk, Switching, NobodyOutranks;
    InvFacts(s);
    GivenUpOk(s);
    ReschedPriority(GivenUp(s), t);
  }

  lemma UnblockPriority(s: Sched, u: Tid, ret: Status, t: Tid)
    requires Inv(s) && u in s.threads && t in s.threads
    ensures t in UnblockThread(s, u, ret).threads
    ensures UnblockThread(s, u, ret).threads[t].priority == s.threads[t].priority
  {
  }

  /** Only the cleanup of a dead thread makes a thread disappear. */
  lemma ThreadsPersist(s: Sched, op: Op, t: Tid)
    requires Inv(s) && Allowed(s, op) && t in s.threads
    ensures t in Next(s, op).threads <==> op != Reap(t)
  {
    InvFacts(s);
    hide Inv, QueuesOk, Switching, NobodyOutranks;
  }

  lemma WakeOther(s: Sched, q: Qid, t: Tid)
    requires Inv(s) && q in s.waiters && s.waiters[q] != [] && t in s.threads && s.threads[t].waitingOn != Some(q)
    ensures s.waiters[q][0] != t
  {
    assert s.waiters[q][0] in s.waiters[q];
  }

  lemma ResumeKept(s: Sched, u: Tid, t: Tid)
    requires Inv(s) && u in s.threads && s.threads[u].state in {Suspended, Ready, Running}
    requires t in s.threads && (u != t || Runnable(s, t))
    ensures Kept(s, ResumeThread(s, u), t) && ResumeThread(s, u).waiters == s.waiters
  {
    if !Runnable(s, u) {
      MakeReadyOk(s, u, true);
      YieldKept(MakeReady(s, u, true), t);
    }
  }

  lemma PreemptKept(s: Sched, t: Tid)
    requires Inv(s) && t in s.threads
    ensures Kept(s, PreemptTo(s), t) && PreemptTo(s).waiters == s.waiters
  {
    InvFacts(s);
    MakeReadyOk(s, s.current, s.threads[s.current].quantum > 0);
    ReschedKept(MakeReady(s, s.current, s.threads[s.current].quantum > 0), t);
  }

  lemma LeaveKept(s: Sched, st: ThreadState, t: Tid)
    requires Inv(s) && s.current != s.boot && (st.Sleeping? || st.Death?) && t in s.threads
    ensures t != s.current ==> Kept(s, LeaveTo(s, st), t)
    ensures LeaveTo(s, st).waiters == s.waiters
  {
    var s1 := SetThread(s, s.current, s.threads[s.current].(state := st));
    assert Switching(s1);
    ReschedKept(s1, t);
  }

  /** A step that does not name wait queue q leaves its list alone. */
  lemma ElsewhereQueue(s: Sched, op: Op, q: Qid, ts: set<Tid>)
    requires Inv(s) && Allowed(s, op) && q in s.waiters && Elsewhere(s, op, q, ts)
    ensures q in Next(s, op).waiters && Next(s, op).waiters[q] == s.waiters[q]
  {
    InvFacts(s);
    var c := s.current;
    RunningNotWaiting(s);
    match op
    case Resume(u) => ResumeKept(s, u, c);
    case Yield => YieldKept(s, c);
    case Preempt => PreemptKept(s, c);
    case Sleep => LeaveKept(s, Sleeping, c);
    case Exit => LeaveKept(s, Death, c);
    case BlockOn(q', timeout) => if !timeout.Zero? { BlockKept(s, q', timeout, c); }
    case WakeOne(q', r, ret) => if s.waiters[q'] != [] { WakeFirstKept(s, q', r, ret, c); }
    case WakeAll(q', r, ret) => WakeEveryKept(s, q', r, ret, c);
    case Unblock(u, ret) => if s.threads[u].state.Blocked? { UnblockKept(s, u, ret, c); }
    case _ =>
  }

  lemma RunningNotWaiting(s: Sched)
    requires Inv(s)
    ensures s.threads[s.current].waitingOn == None
  {
  }
}
