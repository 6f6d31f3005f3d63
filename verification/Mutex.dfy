// kernel/mutex.c on top of the scheduler.
//
// An acquire that has to wait is two steps: the entry, up to the switch inside
// wait_queue_block, and the resumption, once the thread runs again.  Everything
// else in the system may happen in between.
module Mutex {
  import opened Basics
  import opened Scheduler
  import opened Kernel
  import opened Waiting

  /**
   * count, holder and q are mutex_t's fields.  waiting records the threads inside an
   * acquire that blocked and have not run since, with true for a finite timeout;
   * inside records the threads whose acquire succeeded and that have not released.
   */
  datatype State = State(
    s: Sched,
    q: Qid,
    count: int,
    holder: Option<Tid>,
    waiting: map<Tid, bool>,
    inside: set<Tid>)

  // ------------------------------------------------------------- the steps

  /** mutex_acquire and mutex_acquire_timeout by the running thread, up to the switch. */
  function Enter(m: State, timeout: Timeout): State
    requires CanEnter(m, timeout)
  {
    var c := m.s.current;
    if m.count + 1 > 1 then
      if timeout.Zero? then m // count goes up and straight down again
      else m.(s := Block(m.s, m.q, timeout), count := m.count + 1, waiting := m.waiting[c := timeout.Finite?])
    else m.(count := m.count + 1, holder := Some(c), inside := m.inside + {c})
  }

  /** Acquiring a mutex one holds panics; the thread that idles must not block. */
  ghost predicate CanEnter(m: State, timeout: Timeout) {
    && Inv(m.s) && m.q in m.s.waiters
    && m.holder != Some(m.s.current) && m.s.current !in m.waiting
    && (m.count >= 1 && !timeout.Zero? ==> m.s.current != m.s.boot)
  }

  /** The rest of an acquire that blocked, run by the same thread later on. */
  function Resumed(m: State): State
    requires CanResume(m)
  {
    var c := m.s.current;
    var m' := m.(waiting := m.waiting - {c});
    var ret := m.s.threads[c].blockRet;
    if ret.NoError? || (m.waiting[c] && !ret.TimedOut?) then m'.(holder := Some(c), inside := m.inside + {c})
    else if m.waiting[c] then m'.(count := m.count - 1)
    else m'
  }

  ghost predicate CanResume(m: State) {
    Inv(m.s) && m.s.current in m.waiting
  }

  /** mutex_release, which panics unless the caller is the holder. */
  function Released(m: State): State
    requires CanRelease(m)
  {
    var m' := m.(holder := None, count := m.count - 1, inside := m.inside - {m.s.current});
    if m'.count >= 1 then m'.(s := WakeFirst(m.s, m.q, true, NoError)) else m'
  }

  ghost predicate CanRelease(m: State) {
    Inv(m.s) && m.q in m.s.waiters && m.holder == Some(m.s.current) && m.s.current !in m.waiting
  }

  /** wait_queue_timeout_handler for a thread whose timer is still armed. */
  function Expire(m: State, t: Tid): State
    requires CanExpire(m, t)
  {
    m.(s := UnblockThread(m.s, t, TimedOut))
  }

  ghost predicate CanExpire(m: State, t: Tid) {
    Inv(m.s) && t in m.s.threads && t in m.waiting && m.waiting[t]
  }

  /** Any other kernel call, by threads that are not in the middle of this acquire. */
  function Other(m: State, op: Op): State
    requires CanOther(m, op)
  {
    m.(s := Next(m.s, op))
  }

  ghost predicate CanOther(m: State, op: Op) {
    && Inv(m.s) && Allowed(m.s, op) && m.q in m.s.waiters
    && Elsewhere(m.s, op, m.q, m.waiting.Keys)
  }

  datatype Step = EnterStep(timeout: Timeout) | ResumeStep | ReleaseStep | ExpireStep(t: Tid) | OtherStep(op: Op)

  ghost predicate Enabled(m: State, a: Step) {
    match a
    case EnterStep(timeout) => CanEnter(m, timeout)
    case ResumeStep => CanResume(m)
    case ReleaseStep => CanRelease(m)
    case ExpireStep(t) => CanExpire(m, t)
    case OtherStep(op) => CanOther(m, op)
  }

  ghost function After(m: State, a: Step): State
    requires Enabled(m, a)
  {
    match a
    case EnterStep(timeout) => Enter(m, timeout)
    case ResumeStep => Resumed(m)
    case ReleaseStep => Released(m)
    case ExpireStep(t) => Expire(m, t)
    case OtherStep(op) => Other(m, op)
  }

  // ------------------------------------------------------------- the invariant

  /** Threads between a successful acquire, or being handed the mutex, and the release. */
  predicate Owns(m: State, t: Tid) {
    t in m.inside || Woken(m.s, m.waiting, t)
  }

  /** The threads woken as next owner that have not run yet. */
  ghost function Handed(m: State): (r: set<Tid>)
    ensures forall t :: t in r <==> Woken(m.s, m.waiting, t)
  {
    WokenSet(m.s, m.waiting)
  }

  /** The threads that hold the mutex or have been handed it. */
  ghost function Owners(m: State): (r: set<Tid>)
    ensures forall t :: t in r <==> Owns(m, t)
  {
    m.inside + Handed(m)
  }

  /** count is the number of threads inside an acquire or holding the mutex. */
  ghost predicate CountOk(m: State) {
    && m.inside == (if m.holder.Some? then {m.holder.value} else {})
    && m.inside !! m.waiting.Keys
    && m.count == |m.waiting| + |m.inside|
  }

  ghost predicate OneOwner(m: State) {
    forall t, u :: Owns(m, t) && Owns(m, u) ==> t == u
  }

  ghost predicate MutexInv(m: State) {
    WaitersOk(m.s, m.q, m.waiting) && CountOk(m) && OneOwner(m)
  }

  // ------------------------------------------------------------- what each step does

  /** A free mutex is taken at once. */
  lemma EnterTakes(m: State, timeout: Timeout)
    requires MutexInv(m) && CanEnter(m, timeout) && m.count <= 0
    ensures MutexInv(Enter(m, timeout)) && m.s.waiters[m.q] == []
    ensures forall t :: Owns(Enter(m, timeout), t) <==> t == m.s.current
  {
    hide Inv;
    WaitersSplit(m.s, m.q, m.waiting);
    assert m.count == 0 && m.waiting == map[] && m.inside == {};
  }

  /** A step that changes nothing about who owns the mutex leaves it with one owner at most. */
  lemma SameOwners(m: State, r: State)
    requires OneOwner(m) && forall t :: Owns(r, t) <==> Owns(m, t)
    ensures OneOwner(r)
  {
    hide Owns;
  }

  lemma CountAfterEnter(m: State, r: State, c: Tid, timed: bool)
    requires CountOk(m) && c !in m.waiting && c !in m.inside
    requires r.waiting == m.waiting[c := timed] && r.inside == m.inside && r.holder == m.holder
    requires r.count == m.count + 1
    ensures CountOk(r)
  {
    assert r.waiting.Keys == m.waiting.Keys + {c};
    assert |r.waiting| == |m.waiting| + 1;
  }

  /** A counted mutex makes the caller queue up behind the others. */
  lemma EnterBlocks(m: State, timeout: Timeout)
    requires MutexInv(m) && CanEnter(m, timeout) && m.count >= 1 && !timeout.Zero?
    ensures MutexInv(Enter(m, timeout))
    ensures Enter(m, timeout).s.waiters[m.q] == m.s.waiters[m.q] + [m.s.current]
    ensures forall t :: Owns(Enter(m, timeout), t) <==> Owns(m, t)
  {
    hide Inv, WaitersOk, Woken, Block;
    WaiterJoins(m.s, m.q, m.waiting, timeout);
    SameOwners(m, Enter(m, timeout));
    CountAfterEnter(m, Enter(m, timeout), m.s.current, timeout.Finite?);
  }

  /** While a waiter has been handed the mutex nobody is inside. */
  lemma NobodyInside(m: State, c: Tid)
    requires OneOwner(m) && CountOk(m) && Woken(m.s, m.waiting, c)
    ensures m.inside == {} && m.holder == None
  {
    assert Owns(m, c) && c in m.waiting.Keys;
    if m.holder.Some? {
      assert Owns(m, m.holder.value);
    }
  }

  lemma CountAfterReturn(m: State, r: State, c: Tid)
    requires CountOk(m) && c in m.waiting && r.waiting == m.waiting - {c}
    requires if m.inside == {} && m.holder == None then
        (r.inside == {c} && r.holder == Some(c) && r.count == m.count)
        || (r.inside == {} && r.holder == None && r.count == m.count - 1)
      else r.inside == m.inside && r.holder == m.holder && r.count == m.count - 1
    ensures CountOk(r)
  {
    assert r.waiting.Keys == m.waiting.Keys - {c};
    assert |r.waiting| == |m.waiting| - 1;
  }

  /** The thread that was handed the mutex, or the one whose wait ended without it, runs on. */
  lemma ResumedKeepsInv(m: State)
    requires MutexInv(m) && CanResume(m)
    ensures MutexInv(Resumed(m)) && Resumed(m).s == m.s
    ensures forall t :: Owns(Resumed(m), t) <==> Owns(m, t)
  {
    hide Inv, WaitersOk, Woken, CountOk;
    var c, r := m.s.current, Resumed(m);
    WaiterReturns(m.s, m.q, m.waiting);
    if m.s.threads[c].blockRet.NoError? {
      NobodyInside(m, c);
      assert {} + {c} == {c};
    }
    CountAfterReturn(m, r, c);
    SameOwners(m, r);
  }

  /**
   * What the end of a wait comes to: with NO_ERROR the thread holds the mutex; a timeout
   * takes it out of the count; any other error leaves an untimed acquirer as it was, and
   * lets a timed one go on as if it had been handed the mutex.
   */
  lemma ResumedIs(m: State)
    requires CanResume(m)
    ensures var c := m.s.current; var ret := m.s.threads[c].blockRet; var r := After(m, ResumeStep);
      var held := ret.NoError? || (m.waiting[c] && !ret.TimedOut?);
      && r.s == m.s && r.waiting == m.waiting - {c}
      && r.holder == (if held then Some(c) else m.holder)
      && r.inside == (if held then m.inside + {c} else m.inside)
      && r.count == (if m.waiting[c] && ret.TimedOut? then m.count - 1 else m.count)
  {
  }

  /** While c is inside, no waiter has been handed the mutex. */
  lemma OnlyOwner(m: State, c: Tid)
    requires OneOwner(m) && c in m.inside && m.inside !! m.waiting.Keys
    ensures forall t :: !Woken(m.s, m.waiting, t)
  {
    assert Owns(m, c);
    forall t
      ensures !Woken(m.s, m.waiting, t)
    {
      assert Woken(m.s, m.waiting, t) ==> Owns(m, t);
    }
  }

  /** A release with a queued waiter hands the mutex to the first one and to nobody else. */
  lemma ReleaseHandsOff(m: State)
    requires MutexInv(m) && CanRelease(m) && m.s.waiters[m.q] != []
    ensures MutexInv(Released(m))
    ensures forall t :: Owns(Released(m), t) <==> t == m.s.waiters[m.q][0]
    ensures Released(m).s.waiters[m.q] == m.s.waiters[m.q][1..]
    ensures m.count >= 2
  {
    hide Inv, WaitersOk, WakeFirst;
    FirstWoken(m.s, m.q, m.waiting, true);
    OnlyOwner(m, m.s.current);
    hide Woken;
    assert |m.waiting| >= 1;
    assert Released(m).inside == {};
  }

  /**
   * A release with waiters gives way at once: the first waiter runs exactly if nobody able
   * to run outranks it, the caller exactly if it outranks that waiter and nobody outranks it.
   */
  lemma ReleaseGivesWay(m: State)
    requires MutexInv(m) && CanRelease(m) && m.s.waiters[m.q] != []
    ensures m.s.waiters[m.q][0] in m.s.threads
    ensures var w := m.s.waiters[m.q][0]; var c := m.s.current; var r := After(m, ReleaseStep).s;
      var pw, pc := m.s.threads[w].priority, m.s.threads[c].priority;
      && NobodyOutranks(r)
      && (r.current == w <==> Tops(m.s, pw))
      && (r.current == c <==> pw < pc && Tops(m.s, pc))
  {
    ReleaseHandsOff(m);
    hide Inv, WaitersOk, WakeFirst, Tops, NobodyOutranks;
    WokenRunsIff(m.s, m.q, NoError);
  }

  lemma ReleaseWakesNobody(m: State)
    requires MutexInv(m) && CanRelease(m) && m.s.waiters[m.q] == []
    ensures MutexInv(Released(m)) && Released(m).s == m.s
    ensures forall t :: !Owns(Released(m), t)
  {
    hide Inv, WaitersOk;
    OnlyOwner(m, m.s.current);
    hide Woken;
    assert Released(m).inside == {};
  }

  /** A timeout takes the thread out of the queue if it is still there, and never changes who owns the mutex. */
  lemma ExpireKeepsInv(m: State, t: Tid)
    requires MutexInv(m) && CanExpire(m, t)
    ensures MutexInv(Expire(m, t)) && Distinct(m.s.waiters[m.q])
    ensures var l := m.s.waiters[m.q];
      Expire(m, t).s.waiters[m.q] == if t in l then RemoveAt(l, IndexOf(l, t)) else l
    ensures Expire(m, t).s.current == m.s.current
    ensures forall u :: Owns(Expire(m, t), u) <==> Owns(m, u)
  {
    hide Inv, WaitersOk, Woken, UnblockThread;
    WaiterExpires(m.s, m.q, m.waiting, t);
    SameOwners(m, Expire(m, t));
  }

  lemma OtherKeepsInv(m: State, op: Op)
    requires MutexInv(m) && CanOther(m, op)
    ensures MutexInv(Other(m, op)) && Other(m, op).s.waiters[m.q] == m.s.waiters[m.q]
    ensures forall t :: Owns(Other(m, op), t) <==> Owns(m, t)
  {
    hide Inv, WaitersOk, Woken, Next, Allowed, Elsewhere;
    OthersAct(m.s, m.q, m.waiting, op);
    SameOwners(m, Other(m, op));
  }

  lemma EnterKeepsInv(m: State, timeout: Timeout)
    requires MutexInv(m) && CanEnter(m, timeout)
    ensures MutexInv(Enter(m, timeout))
  {
    if m.count <= 0 {
      EnterTakes(m, timeout);
    } else if !timeout.Zero? {
      EnterBlocks(m, timeout);
    }
  }

  lemma StepKeepsInv(m: State, a: Step)
    requires MutexInv(m) && Enabled(m, a)
    ensures MutexInv(After(m, a))
  {
    hide MutexInv, Inv;
    match a
    case EnterStep(timeout) => EnterKeepsInv(m, timeout);
    case ResumeStep => ResumedKeepsInv(m);
    case ReleaseStep =>
      if m.s.waiters[m.q] == [] { ReleaseWakesNobody(m); } else { ReleaseHandsOff(m); }
    case ExpireStep(t) => ExpireKeepsInv(m, t);
    case OtherStep(op) => OtherKeepsInv(m, op);
  }

  /** The kernel call a step makes, if any. */
  function KernelCall(m: State, a: Step): Option<Op> {
    match a
    case EnterStep(timeout) => if m.count >= 1 then Some(BlockOn(m.q, timeout)) else None
    case ResumeStep => None
    case ReleaseStep => if m.count >= 2 then Some(WakeOne(m.q, true, NoError)) else None
    case ExpireStep(t) => Some(Unblock(t, TimedOut))
    case OtherStep(op) => Some(op)
  }

  /** Nothing else happens to threads and queues. */
  lemma StepsAreKernelCalls(m: State, a: Step)
    requires MutexInv(m) && Enabled(m, a)
    ensures Inv(m.s)
    ensures var k := KernelCall(m, a);
      if k.None? then After(m, a).s == m.s else Allowed(m.s, k.value) && After(m, a).s == Next(m.s, k.value)
  {
    hide MutexInv, Inv, QueuesOk, WakeFirst, UnblockThread, Woken;
    QueueThere(m);
  }

  lemma QueueThere(m: State)
    requires MutexInv(m)
    ensures Inv(m.s) && m.q in m.s.waiters
  {
  }

  // ------------------------------------------------------------- mutual exclusion over whole runs

  /** mutex_init on a wait queue nobody waits on. */
  function Init(s: Sched, q: Qid): (m: State)
    requires Inv(s) && q in s.waiters && s.waiters[q] == []
    ensures MutexInv(m)
  {
    State(s, q, 0, None, map[], {})
  }

  ghost predicate EnabledRun(m: State, steps: seq<Step>)
    decreases |steps|
  {
    steps == [] || (Enabled(m, steps[0]) && EnabledRun(After(m, steps[0]), steps[1..]))
  }

  ghost function Run(m: State, steps: seq<Step>): State
    requires EnabledRun(m, steps)
    decreases |steps|
  {
    if steps == [] then m else Run(After(m, steps[0]), steps[1..])
  }

  lemma {:induction false} RunKeepsInv(m: State, steps: seq<Step>)
    requires MutexInv(m) && EnabledRun(m, steps)
    ensures MutexInv(Run(m, steps))
    decreases |steps|
  {
    hide MutexInv, Enabled, After;
    if steps == [] {
    } else {
      StepKeepsInv(m, steps[0]);
      RunKeepsInv(After(m, steps[0]), steps[1..]);
    }
  }

  /** Whatever the timeouts and the scheduling, at most one thread is ever inside. */
  lemma AtMostOneInside(s: Sched, q: Qid, steps: seq<Step>, t: Tid, u: Tid)
    requires Inv(s) && q in s.waiters && s.waiters[q] == [] && EnabledRun(Init(s, q), steps)
    ensures var m := Run(Init(s, q), steps);
      && (t in Owners(m) && u in Owners(m) ==> t == u)
      && (t in m.inside <==> m.holder == Some(t))
      && m.count == |m.waiting| + |m.inside|
  {
    hide EnabledRun, Run, WaitersOk, Woken;
    RunKeepsInv(Init(s, q), steps);
  }

  /** Every thread counted is inside, handed the mutex, queued, or timed out and not yet run. */
  lemma CountSplits(m: State)
    requires MutexInv(m)
    ensures m.count == |m.inside| + |Handed(m)| + |m.s.waiters[m.q]| + |LapsedSet(m.s, m.waiting)|
    ensures |m.inside| + |Handed(m)| == |Owners(m)| <= 1
  {
    hide WaitersOk;
    WaitersSplit(m.s, m.q, m.waiting);
    assert m.inside !! Handed(m);
    hide Woken;
    AtMostOne(m);
  }

  lemma AtMostOne(m: State)
    requires OneOwner(m)
    ensures |Owners(m)| <= 1
  {
    hide Woken, Owns;
    forall t, u | t in Owners(m) && u in Owners(m)
      ensures t == u
    {
      assert Owns(m, t) && Owns(m, u);
    }
    OneElement(Owners(m));
  }

  lemma OneElement<T>(s: set<T>)
    requires forall t, u :: t in s && u in s ==> t == u
    ensures |s| <= 1
  {
    if |s| > 0 {
      var t :| t in s;
      assert s == {t};
    }
  }

  // ------------------------------------------------------------- when a waiter is left without an owner

  ghost predicate WaitersHaveOwner(m: State) {
    m.q in m.s.waiters && (m.s.waiters[m.q] != [] ==> Owners(m) != {})
  }

  /** An acquirer that will block comes to a mutex that is counted and that nobody owns. */
  ghost predicate Strands(m: State, a: Step) {
    a.EnterStep? && !a.timeout.Zero? && m.count >= 1 && Owners(m) == {}
  }

  /** Such a mutex is counted only for threads whose timeout fired and that have not run since. */
  lemma CountedWithoutOwner(m: State)
    requires MutexInv(m) && WaitersHaveOwner(m) && Owners(m) == {}
    ensures m.count == |LapsedSet(m.s, m.waiting)|
  {
    hide MutexInv, LapsedSet, Woken;
    CountSplits(m);
  }

  /** With or without timeouts, that is the one step that leaves a waiter without an owner. */
  lemma StepKeepsOwner(m: State, a: Step)
    requires MutexInv(m) && WaitersHaveOwner(m) && Enabled(m, a)
    ensures MutexInv(After(m, a))
    ensures WaitersHaveOwner(After(m, a)) <==> !Strands(m, a)
  {
    hide Inv, MutexInv, Woken, Owns;
    StepKeepsInv(m, a);
    match a
    case EnterStep(timeout) => EnterOwners(m, timeout);
    case ResumeStep => ResumedKeepsInv(m); assert Owners(Resumed(m)) == Owners(m);
    case ReleaseStep => ReleaseOwners(m);
    case ExpireStep(t) => ExpireKeepsInv(m, t); assert Owners(Expire(m, t)) == Owners(m);
    case OtherStep(op) => OtherKeepsInv(m, op); assert Owners(Other(m, op)) == Owners(m);
  }

  lemma EnterOwners(m: State, timeout: Timeout)
    requires MutexInv(m) && WaitersHaveOwner(m) && CanEnter(m, timeout)
    ensures WaitersHaveOwner(Enter(m, timeout)) <==> !Strands(m, EnterStep(timeout))
  {
    hide Inv, MutexInv, Woken, Owns, CanEnter;
    if m.count <= 0 {
      EnterTakes(m, timeout);
      assert m.s.current in Owners(Enter(m, timeout));
    } else if !timeout.Zero? {
      EnterBlocks(m, timeout);
      assert Owners(Enter(m, timeout)) == Owners(m);
    }
  }

  lemma ReleaseOwners(m: State)
    requires MutexInv(m) && CanRelease(m)
    ensures WaitersHaveOwner(Released(m))
  {
    hide Inv, MutexInv, Woken, Owns;
    if m.s.waiters[m.q] == [] {
      ReleaseWakesNobody(m);
    } else {
      ReleaseHandsOff(m);
      assert m.s.waiters[m.q][0] in Owners(Released(m));
    }
  }

  /** Nobody is queued without an owner at any point of the run. */
  ghost predicate OwnedThroughout(m: State, steps: seq<Step>)
    requires EnabledRun(m, steps)
    decreases |steps|
  {
    WaitersHaveOwner(m) && (steps == [] || OwnedThroughout(After(m, steps[0]), steps[1..]))
  }

  ghost predicate NeverStrands(m: State, steps: seq<Step>)
    requires EnabledRun(m, steps)
    decreases |steps|
  {
    steps == [] || (!Strands(m, steps[0]) && NeverStrands(After(m, steps[0]), steps[1..]))
  }

  /** Over whole runs, with any timeouts: waiters always have an owner if and only if no step is of that kind. */
  lemma {:induction false} OwnedIffNeverStrands(m: State, steps: seq<Step>)
    requires MutexInv(m) && WaitersHaveOwner(m) && EnabledRun(m, steps)
    ensures OwnedThroughout(m, steps) <==> NeverStrands(m, steps)
    decreases |steps|
  {
    hide MutexInv, Enabled, After, Strands, WaitersHaveOwner;
    if steps == [] {
    } else {
      StepKeepsOwner(m, steps[0]);
      if !Strands(m, steps[0]) {
        OwnedIffNeverStrands(After(m, steps[0]), steps[1..]);
      }
    }
  }

  // ------------------------------------------------------------- without finite timeouts

  predicate Untimed(m: State) {
    forall t :: t in m.waiting ==> !m.waiting[t]
  }

  predicate NoTimeout(a: Step) {
    a.EnterStep? ==> !a.timeout.Finite?
  }

  lemma UntimedHasNoLapsed(m: State)
    requires MutexInv(m) && Untimed(m)
    ensures LapsedSet(m.s, m.waiting) == {}
  {
    hide Inv;
    assert forall t :: t in m.waiting ==> WaiterOk(m.s, m.q, m.waiting, t);
  }

  lemma UntimedKept(m: State, a: Step)
    requires Enabled(m, a) && Untimed(m) && NoTimeout(a)
    ensures Untimed(After(m, a))
  {
    hide Inv, MutexInv, Next;
  }

  /** Without finite timeouts no step is of that kind. */
  lemma UntimedNeverStrands(m: State, a: Step)
    requires MutexInv(m) && Untimed(m) && WaitersHaveOwner(m) && Enabled(m, a) && NoTimeout(a)
    ensures !Strands(m, a) && Untimed(After(m, a))
  {
    hide Inv, MutexInv, Owns, Woken, After, Enabled, Untimed;
    UntimedKept(m, a);
    if Owners(m) == {} {
      UntimedHasNoLapsed(m);
      CountedWithoutOwner(m);
    }
  }

  lemma {:induction false} RunKeepsOwner(m: State, steps: seq<Step>)
    requires MutexInv(m) && Untimed(m) && WaitersHaveOwner(m)
    requires EnabledRun(m, steps) && forall i :: 0 <= i < |steps| ==> NoTimeout(steps[i])
    ensures MutexInv(Run(m, steps)) && Untimed(Run(m, steps)) && WaitersHaveOwner(Run(m, steps))
    decreases |steps|
  {
    hide MutexInv, Enabled, After, Untimed, WaitersHaveOwner, Strands;
    if steps == [] {
    } else {
      UntimedNeverStrands(m, steps[0]);
      StepKeepsOwner(m, steps[0]);
      RunKeepsOwner(After(m, steps[0]), steps[1..]);
    }
  }

  /** Without finite timeouts: the count formula, and no waiter without an owner, in every reachable state. */
  lemma UntimedRuns(s: Sched, q: Qid, steps: seq<Step>)
    requires Inv(s) && q in s.waiters && s.waiters[q] == [] && EnabledRun(Init(s, q), steps)
    requires forall i :: 0 <= i < |steps| ==> NoTimeout(steps[i])
    ensures var m := Run(Init(s, q), steps);
      && m.q in m.s.waiters
      && m.count == |m.inside| + |Handed(m)| + |m.s.waiters[m.q]|
      && |m.inside| + |Handed(m)| <= 1
      && (m.s.waiters[m.q] != [] ==> |m.inside| + |Handed(m)| == 1)
  {
    hide EnabledRun, Run, MutexInv, Inv;
    var m0 := Init(s, q);
    RunKeepsOwner(m0, steps);
    var m := Run(m0, steps);
    UntimedHasNoLapsed(m);
    CountSplits(m);
  }

  // ------------------------------------------------------------- hand-off order

  /** The thread that this step makes queue up, if any. */
  ghost function Arrived(m: State, a: Step): seq<Tid> {
    if a.EnterStep? && m.count >= 1 && !a.timeout.Zero? then [m.s.current] else []
  }

  /** The thread that this step hands the mutex to, if any. */
  ghost function Granted(m: State, a: Step): seq<Tid> {
    if a.ReleaseStep? && m.count >= 2 && m.q in m.s.waiters && m.s.waiters[m.q] != [] then [m.s.waiters[m.q][0]] else []
  }

  /** The threads that queue up, in order, during a run. */
  ghost function Arrivals(m: State, steps: seq<Step>): seq<Tid>
    requires EnabledRun(m, steps)
    decreases |steps|
  {
    if steps == [] then [] else Arrived(m, steps[0]) + Arrivals(After(m, steps[0]), steps[1..])
  }

  /** The threads that a release hands the mutex to, in order, during a run. */
  ghost function Grants(m: State, steps: seq<Step>): seq<Tid>
    requires EnabledRun(m, steps)
    decreases |steps|
  {
    if steps == [] then [] else Granted(m, steps[0]) + Grants(After(m, steps[0]), steps[1..])
  }

  /** a is b with some elements left out. */
  ghost predicate Subsequence(a: seq<Tid>, b: seq<Tid>)
    decreases |b|
  {
    a == [] || (b != [] && (Subsequence(a, b[1..]) || (a[0] == b[0] && Subsequence(a[1..], b[1..]))))
  }

  lemma {:induction false} SubsequenceSelf(a: seq<Tid>)
    ensures Subsequence(a, a)
  {
    if a == [] {
    } else {
      SubsequenceSelf(a[1..]);
    }
  }

  lemma {:induction false} SubsequenceTransitive(a: seq<Tid>, b: seq<Tid>, c: seq<Tid>)
    requires Subsequence(a, b) && Subsequence(b, c)
    ensures Subsequence(a, c)
    decreases |c|
  {
    if a == [] || b == [] {
    } else if Subsequence(b, c[1..]) {
      SubsequenceTransitive(a, b, c[1..]);
    } else if Subsequence(a, b[1..]) {
      SubsequenceTransitive(a, b[1..], c[1..]);
    } else {
      SubsequenceTransitive(a[1..], b[1..], c[1..]);
    }
  }

  lemma {:induction false} SubsequenceFront(x: seq<Tid>, a: seq<Tid>, b: seq<Tid>)
    requires Subsequence(a, b)
    ensures Subsequence(x + a, x + b)
    decreases |x|
  {
    if x == [] {
      assert x + a == a && x + b == b;
    } else {
      SubsequenceFront(x[1..], a, b);
      assert (x + a)[1..] == x[1..] + a && (x + b)[1..] == x[1..] + b;
    }
  }

  lemma {:induction false} SubsequenceBehind(a: seq<Tid>, b: seq<Tid>, x: seq<Tid>)
    requires Subsequence(a, b)
    ensures Subsequence(a + x, b + x)
    decreases |b|
  {
    if b == [] {
      assert a + x == x && b + x == x;
      SubsequenceSelf(x);
    } else {
      assert (b + x)[1..] == b[1..] + x;
      if a == [] || Subsequence(a, b[1..]) {
        SubsequenceBehind(a, b[1..], x);
      } else {
        assert (a + x)[1..] == a[1..] + x;
        SubsequenceBehind(a[1..], b[1..], x);
      }
    }
  }

  lemma {:induction false} RemovedIsSubsequence(l: seq<Tid>, i: nat)
    requires i < |l|
    ensures Subsequence(RemoveAt(l, i), l)
  {
    var r := RemoveAt(l, i);
    if i == 0 {
      assert r == l[1..];
      SubsequenceSelf(r);
    } else {
      RemovedIsSubsequence(l[1..], i - 1);
      assert r[0] == l[0] && r[1..] == RemoveAt(l[1..], i - 1);
    }
  }

  lemma Units<T>(l: seq<T>)
    ensures l + [] == l && [] + l == l
  {
  }

  lemma HeadAndTail<T>(l: seq<T>)
    requires l != []
    ensures [l[0]] + l[1..] == l
  {
  }

  lemma EnterQueue(m: State, timeout: Timeout)
    requires MutexInv(m) && CanEnter(m, timeout)
    ensures var r := Enter(m, timeout);
      && r.q == m.q && m.q in m.s.waiters && m.q in r.s.waiters
      && m.s.waiters[m.q] + Arrived(m, EnterStep(timeout)) == r.s.waiters[m.q]
  {
    hide Inv, MutexInv, Owns;
    MutexQueue(m);
    var l := m.s.waiters[m.q];
    Units(l);
    if m.count <= 0 {
      EnterTakes(m, timeout);
    } else if !timeout.Zero? {
      EnterBlocks(m, timeout);
    }
  }

  lemma ReleaseQueue(m: State)
    requires MutexInv(m) && CanRelease(m)
    ensures var r := Released(m);
      && r.q == m.q && m.q in m.s.waiters && m.q in r.s.waiters
      && m.s.waiters[m.q] == Granted(m, ReleaseStep) + r.s.waiters[m.q]
  {
    hide Inv, MutexInv, Owns;
    MutexQueue(m);
    var l := m.s.waiters[m.q];
    if l == [] {
      ReleaseWakesNobody(m);
    } else {
      ReleaseHandsOff(m);
      HeadAndTail(l);
    }
  }

  /** A step that is not a timeout lets a thread join at the back, or leave at the front by being handed the mutex. */
  lemma StepQueue(m: State, a: Step)
    requires MutexInv(m) && Enabled(m, a)
    ensures m.q in m.s.waiters && m.q in After(m, a).s.waiters && After(m, a).q == m.q
    ensures !a.ExpireStep? ==> m.s.waiters[m.q] + Arrived(m, a) == Granted(m, a) + After(m, a).s.waiters[m.q]
  {
    hide Inv, MutexInv, Owns, Enter, Released, CanEnter, CanResume, CanRelease, CanExpire, CanOther;
    StepKeepsInv(m, a);
    MutexQueue(m);
    MutexQueue(After(m, a));
    Units(m.s.waiters[m.q]);
    match a
    case EnterStep(timeout) =>
      EnterQueue(m, timeout);
      Units(Enter(m, timeout).s.waiters[m.q]);
    case ReleaseStep => ReleaseQueue(m);
    case OtherStep(op) => OtherKeepsInv(m, op);
    case ResumeStep => ResumedKeepsInv(m);
    case ExpireStep(t) => ExpireKeepsInv(m, t);
  }

  /** With a timeout a thread may drop out as well. */
  lemma StepOrder(m: State, a: Step)
    requires MutexInv(m) && Enabled(m, a)
    ensures m.q in m.s.waiters && m.q in After(m, a).s.waiters && After(m, a).q == m.q
    ensures Subsequence(Granted(m, a) + After(m, a).s.waiters[m.q], m.s.waiters[m.q] + Arrived(m, a))
  {
    hide Inv, MutexInv, Enabled, After, Subsequence;
    StepQueue(m, a);
    MutexQueue(m);
    var l := m.s.waiters[m.q];
    if a.ExpireStep? {
      ExpireOrder(m, a);
    } else {
      SubsequenceSelf(l + Arrived(m, a));
    }
  }

  lemma ExpireOrder(m: State, a: Step)
    requires MutexInv(m) && Enabled(m, a) && a.ExpireStep? && m.q in m.s.waiters && m.q in After(m, a).s.waiters
    ensures Subsequence(Granted(m, a) + After(m, a).s.waiters[m.q], m.s.waiters[m.q] + Arrived(m, a))
  {
    hide Inv, MutexInv, CanExpire, Subsequence;
    ExpireKeepsInv(m, a.t);
    var l, r := m.s.waiters[m.q], Expire(m, a.t).s.waiters[m.q];
    assert [] + r == r && l + [] == l;
    if a.t in l {
      RemovedIsSubsequence(l, IndexOf(l, a.t));
    } else {
      SubsequenceSelf(l);
    }
  }

  lemma MutexQueue(m: State)
    requires MutexInv(m)
    ensures m.q in m.s.waiters
  {
  }

  /**
   * Over any run, whatever times out: the threads handed the mutex, and then those still
   * queued, are threads that were queued or queued up, in that order; nobody overtakes.
   */
  lemma {:induction false} HandOffKeepsOrder(m: State, steps: seq<Step>)
    requires MutexInv(m) && EnabledRun(m, steps)
    ensures m.q in m.s.waiters && m.q in Run(m, steps).s.waiters
    ensures Subsequence(Grants(m, steps) + Run(m, steps).s.waiters[m.q], m.s.waiters[m.q] + Arrivals(m, steps))
    decreases |steps|
  {
    hide MutexInv, Inv, Enabled, After, Subsequence, Arrived, Granted;
    MutexQueue(m);
    if steps == [] {
      assert m.s.waiters[m.q] + [] == [] + m.s.waiters[m.q] == m.s.waiters[m.q];
      SubsequenceSelf(m.s.waiters[m.q]);
    } else {
      var a := steps[0];
      var r := After(m, a);
      StepOrder(m, a);
      StepKeepsInv(m, a);
      HandOffKeepsOrder(r, steps[1..]);
      OrderStep(m.s.waiters[m.q], r.s.waiters[m.q], Run(r, steps[1..]).s.waiters[m.q],
                Arrived(m, a), Granted(m, a), Arrivals(r, steps[1..]), Grants(r, steps[1..]));
    }
  }

  lemma Associate(a: seq<Tid>, b: seq<Tid>, c: seq<Tid>)
    ensures a + b + c == a + (b + c)
  {
  }

  lemma OrderStep(l: seq<Tid>, l': seq<Tid>, e: seq<Tid>, inn: seq<Tid>, out: seq<Tid>, a: seq<Tid>, g: seq<Tid>)
    requires Subsequence(out + l', l + inn)
    requires Subsequence(g + e, l' + a)
    ensures Subsequence((out + g) + e, l + (inn + a))
  {
    hide Subsequence;
    SubsequenceFront(out, g + e, l' + a);
    SubsequenceBehind(out + l', l + inn, a);
    Associate(out, g, e);
    Associate(out, l', a);
    Associate(l, inn, a);
    SubsequenceTransitive(out + g + e, out + l' + a, l + inn + a);
  }

  /** The thread that this step takes out of the queue because its timeout fires, if any. */
  ghost function Dropped(m: State, a: Step): seq<Tid> {
    if a.ExpireStep? && m.q in m.s.waiters && a.t in m.s.waiters[m.q] then [a.t] else []
  }

  /** The threads that time out in the queue, in order, during a run. */
  ghost function Drops(m: State, steps: seq<Step>): seq<Tid>
    requires EnabledRun(m, steps)
    decreases |steps|
  {
    if steps == [] then [] else Dropped(m, steps[0]) + Drops(After(m, steps[0]), steps[1..])
  }

  lemma RemovedMultiset(l: seq<Tid>, t: Tid)
    requires t in l
    ensures IndexOf(l, t) < |l| && multiset(l) == multiset(RemoveAt(l, IndexOf(l, t))) + multiset([t])
  {
    hide IndexOf;
    ThreeParts(l, IndexOf(l, t));
  }

  lemma ThreeParts(l: seq<Tid>, i: nat)
    requires i < |l|
    ensures multiset(l) == multiset(RemoveAt(l, i)) + multiset([l[i]])
  {
    var a, x, b := l[..i], [l[i]], l[i+1..];
    assert l == a + x + b;
    MultisetOfSum(a + x, b);
    MultisetOfSum(a, x);
    MultisetOfSum(a, b);
  }

  lemma MultisetOfSum(a: seq<Tid>, b: seq<Tid>)
    ensures multiset(a + b) == multiset(a) + multiset(b)
  {
  }

  lemma StepAccounts(m: State, a: Step)
    requires MutexInv(m) && Enabled(m, a)
    ensures m.q in m.s.waiters && m.q in After(m, a).s.waiters && After(m, a).q == m.q
    ensures multiset(m.s.waiters[m.q]) + multiset(Arrived(m, a)) ==
      multiset(Granted(m, a)) + multiset(After(m, a).s.waiters[m.q]) + multiset(Dropped(m, a))
    ensures Dropped(m, a) == [] || (a.ExpireStep? && Dropped(m, a) == [a.t] && a.t in m.waiting && m.waiting[a.t])
  {
    hide Inv, MutexInv, CanEnter, CanRelease, CanResume, CanOther, Enter, Released, Resumed, Other;
    StepQueue(m, a);
    MutexQueue(m);
    var l := m.s.waiters[m.q];
    if a.ExpireStep? {
      ExpireKeepsInv(m, a.t);
      if a.t in l {
        RemovedMultiset(l, a.t);
      }
    } else {
      MultisetsAdd(l, Arrived(m, a), Granted(m, a), After(m, a).s.waiters[m.q]);
    }
  }

  lemma MultisetsAdd(a: seq<Tid>, b: seq<Tid>, c: seq<Tid>, d: seq<Tid>)
    requires a + b == c + d
    ensures multiset(a) + multiset(b) == multiset(c) + multiset(d)
  {
    MultisetOfSum(a, b);
    MultisetOfSum(c, d);
  }

  /**
   * Nobody gets lost: over any run, those that were queued or queued up are those handed the
   * mutex, those still queued, and those whose timeout took them out of the queue.
   */
  lemma {:induction false} EveryWaiterAccountedFor(m: State, steps: seq<Step>)
    requires MutexInv(m) && EnabledRun(m, steps)
    ensures m.q in m.s.waiters && m.q in Run(m, steps).s.waiters
    ensures multiset(m.s.waiters[m.q]) + multiset(Arrivals(m, steps)) ==
      multiset(Grants(m, steps)) + multiset(Run(m, steps).s.waiters[m.q]) + multiset(Drops(m, steps))
    decreases |steps|
  {
    hide MutexInv, Inv, Enabled, After, Arrived, Granted, Dropped;
    MutexQueue(m);
    if steps == [] {
    } else {
      var a := steps[0];
      var r := After(m, a);
      StepAccounts(m, a);
      StepKeepsInv(m, a);
      EveryWaiterAccountedFor(r, steps[1..]);
      SumOfSteps(m.s.waiters[m.q], r.s.waiters[m.q], Run(r, steps[1..]).s.waiters[m.q],
                 Arrived(m, a), Granted(m, a), Dropped(m, a),
                 Arrivals(r, steps[1..]), Grants(r, steps[1..]), Drops(r, steps[1..]));
    }
  }

  lemma SumOfSteps(l: seq<Tid>, l': seq<Tid>, e: seq<Tid>,
                   inn: seq<Tid>, out: seq<Tid>, off: seq<Tid>, a: seq<Tid>, g: seq<Tid>, d: seq<Tid>)
    requires multiset(l) + multiset(inn) == multiset(out) + multiset(l') + multiset(off)
    requires multiset(l') + multiset(a) == multiset(g) + multiset(e) + multiset(d)
    ensures multiset(l) + multiset(inn + a) == multiset(out + g) + multiset(e) + multiset(off + d)
  {
    MultisetOfSum(inn, a);
    MultisetOfSum(out, g);
    MultisetOfSum(off, d);
    AddSums(multiset(l), multiset(inn), multiset(out), multiset(l'), multiset(off),
            multiset(a), multiset(g), multiset(e), multiset(d));
  }

  lemma AddSums(l: multiset<Tid>, inn: multiset<Tid>, out: multiset<Tid>, l': multiset<Tid>, off: multiset<Tid>,
                a: multiset<Tid>, g: multiset<Tid>, e: multiset<Tid>, d: multiset<Tid>)
    requires l + inn == out + l' + off && l' + a == g + e + d
    ensures l + (inn + a) == (out + g) + e + (off + d)
  {
    var x, y := l + (inn + a), (out + g) + e + (off + d);
    forall t: Tid
      ensures x[t] == y[t]
    {
      assert (l + inn)[t] == (out + l' + off)[t] && (l' + a)[t] == (g + e + d)[t];
    }
    assert x == y;
  }

  /**
   * Without timeouts hand-off is first come, first served: grants and then the queue are the old
   * queue and then the arrivals.
   */
  lemma {:induction false} HandOffIsFifo(m: State, steps: seq<Step>)
    requires MutexInv(m) && EnabledRun(m, steps) && forall i :: 0 <= i < |steps| ==> !steps[i].ExpireStep?
    ensures m.q in m.s.waiters && m.q in Run(m, steps).s.waiters
    ensures m.s.waiters[m.q] + Arrivals(m, steps) == Grants(m, steps) + Run(m, steps).s.waiters[m.q]
    decreases |steps|
  {
    hide MutexInv, Inv, Enabled, After, Subsequence, Arrived, Granted;
    MutexQueue(m);
    if steps == [] {
      assert m.s.waiters[m.q] + [] == [] + m.s.waiters[m.q];
    } else {
      var a := steps[0];
      var r := After(m, a);
      StepQueue(m, a);
      StepKeepsInv(m, a);
      HandOffIsFifo(r, steps[1..]);
      FifoStep(m.s.waiters[m.q], r.s.waiters[m.q], Run(r, steps[1..]).s.waiters[m.q],
               Arrived(m, a), Granted(m, a), Arrivals(r, steps[1..]), Grants(r, steps[1..]));
    }
  }

  /** One step: a thread joins at the back, or one leaves at the front, or neither. */
  lemma FifoStep(l: seq<Tid>, l': seq<Tid>, e: seq<Tid>, inn: seq<Tid>, out: seq<Tid>, a: seq<Tid>, g: seq<Tid>)
    requires l + inn == out + l'
    requires l' + a == g + e
    ensures l + (inn + a) == (out + g) + e
  {
    Associate(l, inn, a);
    Associate(out, l', a);
    Associate(out, g, e);
  }

  // ------------------------------------------------------------- the acquirer without an owner

  /** t waits without a timeout on a mutex that nobody owns. */
  ghost predicate Stranded(m: State, t: Tid) {
    && MutexInv(m) && Owners(m) == {}
    && t in m.waiting && !m.waiting[t] && t in m.s.waiters[m.q]
  }

  /** An acquire without a timeout is stranded exactly when it comes to a mutex that is counted and that nobody owns. */
  lemma StrandedIff(m: State)
    requires MutexInv(m) && CanEnter(m, Infinite)
    ensures Stranded(Enter(m, Infinite), m.s.current) <==> Strands(m, EnterStep(Infinite))
  {
    hide Inv, MutexInv, Woken, Owns;
    var c, r := m.s.current, Enter(m, Infinite);
    if m.count <= 0 {
      EnterTakes(m, Infinite);
      assert c in Owners(r);
    } else {
      EnterBlocks(m, Infinite);
      assert Owners(r) == Owners(m);
      assert c in m.s.waiters[m.q] + [c];
    }
  }

  /**
   * A waiter whose timeout fires stays in count until it runs.  If the holder releases
   * and acquires again before that, it blocks with nobody left to wake it.
   */
  lemma ReacquireAfterTimeoutStrands(m: State, t: Tid)
    requires MutexInv(m) && CanRelease(m) && m.s.current != m.s.boot
    requires m.s.waiters[m.q] == [t] && m.waiting == map[t := true]
    ensures CanExpire(m, t) && CanRelease(Expire(m, t)) && CanEnter(Released(Expire(m, t)), Infinite)
    ensures Owners(Released(Expire(m, t))) == {} && Released(Expire(m, t)).count == 1
    ensures Stranded(Enter(Released(Expire(m, t)), Infinite), m.s.current)
  {
    hide Inv, WaiterOk, Woken, Owns, UnblockThread, Stranded, OneOwner;
    WaitersAreThreads(m.s, m.q, m.waiting);
    hide WaitersOk;
    var m1 := Expire(m, t);
    ExpireKeepsInv(m, t);
    ExpireFacts(m, t);
    assert m1.s.waiters[m.q] == [];
    ReleaseWakesNobody(m1);
    var m2 := Released(m1);
    assert m1.waiting == m.waiting && |map[t := true]| == 1;
    assert Owners(m2) == {};
    StrandedIff(m2);
  }

  lemma ExpireFacts(m: State, t: Tid)
    requires MutexInv(m) && CanExpire(m, t)
    ensures var r := Expire(m, t).s; Inv(r) && m.q in r.waiters && r.boot == m.s.boot
  {
    hide Inv;
  }

  lemma StrandedFacts(m: State, t: Tid)
    requires Stranded(m, t)
    ensures m.count >= 1 && m.holder == None && t != m.s.current
  {
    InvFacts(m.s);
    QueuedNotWoken(m.s, m.q, m.waiting, t);
    hide Inv, WaitersOk, Woken;
    assert forall u :: u in m.inside ==> u in Owners(m);
  }

  lemma StrandedEnter(m: State, t: Tid, timeout: Timeout)
    requires Stranded(m, t) && CanEnter(m, timeout)
    ensures Stranded(Enter(m, timeout), t)
  {
    hide Inv, MutexInv, Woken, Owns;
    StrandedFacts(m, t);
    if !timeout.Zero? {
      EnterBlocks(m, timeout);
      assert Owners(Enter(m, timeout)) == Owners(m);
    }
  }

  lemma StrandedExpire(m: State, t: Tid, u: Tid)
    requires Stranded(m, t) && CanExpire(m, u)
    ensures Stranded(Expire(m, u), t)
  {
    hide Inv, MutexInv, Woken, Owns;
    MutexQueue(m);
    ExpireKeepsInv(m, u);
    assert Owners(Expire(m, u)) == Owners(m);
    var l := m.s.waiters[m.q];
    if u in l {
      RemoveAtMembers(l, IndexOf(l, u));
    }
  }

  /** And no later step of any thread ever frees it. */
  lemma StrandedForEver(m: State, t: Tid, a: Step)
    requires Stranded(m, t) && Enabled(m, a)
    ensures Stranded(After(m, a), t)
  {
    hide Inv, MutexInv, Woken, Owns, CanEnter, CanExpire, CanOther;
    StrandedFacts(m, t);
    match a
    case EnterStep(timeout) => StrandedEnter(m, t, timeout);
    case ResumeStep => ResumedKeepsInv(m); assert Owners(Resumed(m)) == Owners(m);
    case ReleaseStep =>
    case ExpireStep(u) => StrandedExpire(m, t, u);
    case OtherStep(op) => OtherKeepsInv(m, op); assert Owners(Other(m, op)) == Owners(m);
  }

  /** So it stays queued through every run. */
  lemma {:induction false} StrandedInEveryRun(m: State, t: Tid, steps: seq<Step>)
    requires Stranded(m, t) && EnabledRun(m, steps)
    ensures Stranded(Run(m, steps), t)
    decreases |steps|
  {
    hide Stranded, Enabled, After;
    if steps == [] {
    } else {
      StrandedForEver(m, t, steps[0]);
      StrandedInEveryRun(After(m, steps[0]), t, steps[1..]);
    }
  }

  // ------------------------------------------------------------- the code

  datatype Entered = Acquired | Waits | GaveUp

  class MutexObject {
    var count: int
    var holder: Option<Tid>
    const wait: Qid
    ghost var waiting: map<Tid, bool>
    ghost var inside: set<Tid>

    ghost function Abs(k: ThreadSystem): State
      reads this, k
    {
      State(k.Abs(), wait, count, holder, waiting, inside)
    }

    /** mutex_init, with the wait queue q it embeds. */
    constructor (k: ThreadSystem, q: Qid)
      requires k.Valid() && q !in k.waitQueues
      modifies k`waitQueues
      ensures k.Valid() && k.Abs() == AddQueue(old(k.Abs()), q)
      ensures Abs(k) == Init(k.Abs(), q) && MutexInv(Abs(k))
    {
      count := 0;
      holder := None;
      wait := q;
      waiting := map[];
      inside := {};
      new;
      k.WaitQueueInit(q);
    }

    /** mutex_acquire (infinite timeout) and mutex_acquire_timeout, up to the switch. */
    method Acquire(k: ThreadSystem, timeout: Timeout) returns (r: Entered)
      requires k.Valid() && CanEnter(Abs(k), timeout)
      modifies this, k
      ensures k.Valid() && Abs(k) == Enter(old(Abs(k)), timeout)
      ensures r == if old(count) <= 0 then Acquired else if timeout.Zero? then GaveUp else Waits
    {
      hide Inv;
      var c := k.currentThread;
      count := count + 1;
      if count > 1 {
        var timedOut := k.WaitQueueBlock(wait, timeout);
        if timedOut {
          count := count - 1;
          return GaveUp;
        }
        waiting := waiting[c := timeout.Finite?];
        return Waits;
      }
      holder := Some(c);
      inside := inside + {c};
      return Acquired;
    }

    /** What follows wait_queue_block in both acquires, once the thread runs again. */
    method AcquireResume(k: ThreadSystem, timed: bool) returns (ret: Status)
      requires k.Valid() && CanResume(Abs(k)) && timed == waiting[k.currentThread]
      modifies this
      ensures k.Abs() == old(k.Abs()) && Abs(k) == Resumed(old(Abs(k)))
      ensures ret == k.threads[k.currentThread].blockRet
    {
      ret := k.threads[k.currentThread].blockRet;
      waiting := waiting - {k.currentThread};
      if !timed {
        if ret != NoError {
          return;
        }
      } else if ret != NoError {
        if ret == TimedOut {
          count := count - 1;
          return;
        }
      }
      holder := Some(k.currentThread);
      inside := inside + {k.currentThread};
    }

    /** mutex_release. */
    method Release(k: ThreadSystem)
      requires k.Valid() && CanRelease(Abs(k))
      modifies this, k
      ensures k.Valid() && Abs(k) == Released(old(Abs(k)))
    {
      hide Inv;
      inside := inside - {k.currentThread};
      holder := None;
      count := count - 1;
      if count >= 1 {
        var woken := k.WaitQueueWakeOne(wait, true, NoError);
      }
    }

    /** wait_queue_timeout_handler for a thread waiting here with its timer armed. */
    method Expired(k: ThreadSystem, t: Tid)
      requires k.Valid() && CanExpire(Abs(k), t)
      modifies k
      ensures k.Valid() && Abs(k) == Expire(old(Abs(k)), t)
    {
      hide Inv;
      var r := k.ThreadUnblockFromWaitQueue(t, TimedOut);
    }
  }
}
