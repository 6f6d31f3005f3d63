// A run of the whole system, from boot, after which a thread waits for a mutex that nobody ever owns again.
module StrandedWaiter {
  import opened Basics
  import opened Scheduler
  import M = Mutex

  // ------------------------------------------------------------- the mutex part, from any suitable state

  /** A timed wait that expires under a holder which releases and acquires again. */
  function Steps(t: Tid): seq<M.Step> {
    [M.EnterStep(Infinite), M.OtherStep(Yield), M.EnterStep(Finite), M.ExpireStep(t), M.ReleaseStep, M.EnterStep(Infinite)]
  }

  /** The running thread shares its priority with just one other, t. */
  ghost predicate Pair(s: Sched, q: Qid, t: Tid) {
    && Inv(s) && NobodyOutranks(s) && q in s.waiters && s.waiters[q] == []
    && Cycle(s) == [s.current, t] && s.current != s.boot && t != s.boot
  }

  lemma HolderYields(s: Sched, q: Qid, t: Tid)
    requires Pair(s, q, t)
    ensures var r := YieldTo(s);
      && NobodyOutranks(r) && r.current == t && Cycle(r) == [t, s.current]
      && r.waiters == s.waiters && r.boot == s.boot
  {
    YieldRotates(s);
    assert Cycle(YieldTo(s))[0] == YieldTo(s).current;
    YieldKept(s, s.current);
    GivenUpOk(s);
  }

  lemma WaiterBlocks(s: Sched, q: Qid, c: Tid)
    requires Inv(s) && NobodyOutranks(s) && q in s.waiters && s.waiters[q] == [] && s.current != s.boot
    requires Cycle(s) == [s.current, c]
    ensures var r := Block(s, q, Finite); r.current == c && r.waiters == s.waiters[q := [s.current]] && r.boot == s.boot
  {
    var p := s.threads[s.current].priority;
    assert s.runQueue[p] == [c] by { assert Cycle(s)[1..] == s.runQueue[p]; }
    ParkedOk(s, q);
    var s1 := Parked(s, q);
    var r := Scan(s1.runQueue, HIGHEST_PRIORITY);
    assert s1.runQueue == s.runQueue;
    if r > p {
      NonEmptyNotAbove(s, r);
    }
    ReschedFrom(s1, p);
    assert [] + [s.current] == [s.current];
  }

  /** m becomes r by step a. */
  ghost predicate Goes(m: M.State, a: M.Step, r: M.State) {
    M.Enabled(m, a) && M.After(m, a) == r
  }

  lemma GoesEnter(m: M.State, timeout: Timeout)
    requires M.CanEnter(m, timeout)
    ensures Goes(m, M.EnterStep(timeout), M.Enter(m, timeout))
  {
    hide M.CanEnter, M.Enter;
  }

  lemma GoesOther(m: M.State, op: Op)
    requires M.CanOther(m, op)
    ensures Goes(m, M.OtherStep(op), M.Other(m, op))
  {
    hide M.CanOther, M.Other;
  }

  lemma GoesExpire(m: M.State, t: Tid)
    requires M.CanExpire(m, t)
    ensures Goes(m, M.ExpireStep(t), M.Expire(m, t))
  {
    hide M.CanExpire, M.Expire;
  }

  lemma GoesRelease(m: M.State)
    requires M.CanRelease(m)
    ensures Goes(m, M.ReleaseStep, M.Released(m))
  {
    hide M.CanRelease, M.Released;
  }

  /** A free mutex is taken at once. */
  lemma TakesFree(s: Sched, q: Qid)
    requires Inv(s) && q in s.waiters && s.waiters[q] == [] && s.current != s.boot
    ensures M.CanEnter(M.Init(s, q), Infinite)
    ensures var m1 := M.Enter(M.Init(s, q), Infinite);
      m1 == M.State(s, q, 1, Some(s.current), map[], {s.current}) && M.MutexInv(m1)
  {
    M.EnterKeepsInv(M.Init(s, q), Infinite);
    hide Inv, M.MutexInv;
    assert {} + {s.current} == {s.current};
  }

  lemma YieldGoes(m: M.State)
    requires M.MutexInv(m) && Inv(m.s) && m.q in m.s.waiters
    ensures M.CanOther(m, Yield) && M.Other(m, Yield) == m.(s := YieldTo(m.s)) && M.MutexInv(M.Other(m, Yield))
  {
    hide Inv, YieldTo, M.MutexInv;
    M.OtherKeepsInv(m, Yield);
  }

  lemma SecondWaits(m: M.State)
    requires M.MutexInv(m) && Inv(m.s) && m.q in m.s.waiters && m.s.current != m.s.boot
    requires m.count == 1 && m.holder.Some? && m.holder.value != m.s.current && m.waiting == map[]
    ensures M.CanEnter(m, Finite) && M.MutexInv(M.Enter(m, Finite))
    ensures var r := M.Enter(m, Finite);
      && r.s == Block(m.s, m.q, Finite) && r.q == m.q && r.holder == m.holder && r.waiting == map[m.s.current := true]
  {
    hide Inv, Block, M.MutexInv;
    assert M.CanEnter(m, Finite);
    M.EnterKeepsInv(m, Finite);
  }

  /** The first half: the waiter is queued with a timeout and the holder runs. */
  lemma WaiterQueued(s: Sched, q: Qid, t: Tid) returns (m1: M.State, m2: M.State, m3: M.State)
    requires Pair(s, q, t)
    ensures Goes(M.Init(s, q), M.EnterStep(Infinite), m1) && Goes(m1, M.OtherStep(Yield), m2)
    ensures Goes(m2, M.EnterStep(Finite), m3)
    ensures M.MutexInv(m3) && M.CanRelease(m3) && m3.s.current == s.current && s.current != m3.s.boot && m3.q == q
    ensures m3.s.waiters[q] == [t] && m3.waiting == map[t := true]
  {
    hide Goes, Inv, NobodyOutranks, M.CanEnter, M.CanOther, M.Enter, M.Other, M.MutexInv, YieldTo, Block, Cycle,
         Distinct;
    var c := s.current;
    HolderYields(s, q, t);
    WaiterBlocks(YieldTo(s), q, c);
    PairDiffers(s, q, t);
    TakesFree(s, q);
    GoesEnter(M.Init(s, q), Infinite);
    m1 := M.Enter(M.Init(s, q), Infinite);
    YieldGoes(m1);
    GoesOther(m1, Yield);
    m2 := M.Other(m1, Yield);
    SecondWaits(m2);
    GoesEnter(m2, Finite);
    m3 := M.Enter(m2, Finite);
    assert [] + [t] == [t];
  }

  lemma PairDiffers(s: Sched, q: Qid, t: Tid)
    requires Pair(s, q, t)
    ensures s.current != t
  {
    CycleMembers(s);
    assert Cycle(s)[0] != Cycle(s)[1];
  }

  /** The second half: the timeout fires, and the holder releases and acquires again. */
  lemma HolderStranded(m3: M.State, t: Tid) returns (m4: M.State, m5: M.State, m6: M.State)
    requires M.MutexInv(m3) && M.CanRelease(m3) && m3.s.current != m3.s.boot
    requires m3.s.waiters[m3.q] == [t] && m3.waiting == map[t := true]
    ensures Goes(m3, M.ExpireStep(t), m4) && Goes(m4, M.ReleaseStep, m5) && Goes(m5, M.EnterStep(Infinite), m6)
    ensures M.Stranded(m6, m3.s.current)
  {
    hide Goes, M.Stranded, M.Owners, M.CanExpire, M.CanEnter, M.Expire, M.Released, M.Enter;
    M.ReacquireAfterTimeoutStrands(m3, t);
    m4 := M.Expire(m3, t);
    GoesExpire(m3, t);
    m5 := M.Released(m4);
    GoesRelease(m4);
    m6 := M.Enter(m5, Infinite);
    GoesEnter(m5, Infinite);
  }

  /** Six steps after any state with such a pair and a free mutex, the first holder waits for a mutex nobody owns. */
  lemma StrandsThePair(s: Sched, q: Qid, t: Tid)
    requires Pair(s, q, t)
    ensures M.EnabledRun(M.Init(s, q), Steps(t))
    ensures M.Stranded(M.Run(M.Init(s, q), Steps(t)), s.current)
  {
    hide Goes, M.EnabledRun, M.Run, M.Stranded, M.MutexInv, M.CanRelease;
    var m1, m2, m3 := WaiterQueued(s, q, t);
    var m4, m5, m6 := HolderStranded(m3, t);
    var ms := [M.Init(s, q), m1, m2, m3, m4, m5, m6];
    var steps := Steps(t);
    forall i | 0 <= i < 6
      ensures Goes(ms[i], steps[i], ms[i + 1])
    {
      assert i == 0 || i == 1 || i == 2 || i == 3 || i == 4 || i == 5;
    }
    RunThrough(steps, ms);
  }

  lemma Cons(m: M.State, a: M.Step, rest: seq<M.Step>)
    requires M.Enabled(m, a) && M.EnabledRun(M.After(m, a), rest)
    ensures M.EnabledRun(m, [a] + rest) && M.Run(m, [a] + rest) == M.Run(M.After(m, a), rest)
  {
    hide M.Enabled, M.After;
    assert ([a] + rest)[1..] == rest;
  }

  lemma {:induction false} RunThrough(steps: seq<M.Step>, ms: seq<M.State>)
    requires |ms| == |steps| + 1
    requires forall i :: 0 <= i < |steps| ==> Goes(ms[i], steps[i], ms[i + 1])
    ensures M.EnabledRun(ms[0], steps) && M.Run(ms[0], steps) == ms[|steps|]
    decreases |steps|
  {
    hide M.Enabled, M.After;
    if steps == [] {
    } else {
      assert Goes(ms[0], steps[0], ms[1]);
      RunThrough(steps[1..], ms[1..]);
      Cons(ms[0], steps[0], steps[1..]);
      assert [steps[0]] + steps[1..] == steps;
    }
  }

  // ------------------------------------------------------------- the scheduler part, from boot

  /** Boot with a wait queue and two threads of one priority, then let the boot thread become idle and yield. */
  const BOOT_OPS: seq<Op> :=
    [InitQueue(0), Create(1, 20), Create(2, 20), Op.Resume(1), Op.Resume(2), BecomeIdle, Yield]

  function Queues(l: seq<Tid>): seq<seq<Tid>> {
    seq(NUM_PRIORITIES, p => if p == 20 then l else [])
  }

  function Fresh(p: int, st: ThreadState): Thread {
    Thread(p, st, 0, None, NoError)
  }

  /** The boot thread 0 runs at priority p0; threads 1 and 2 exist. */
  function Booted(p0: int, one: ThreadState, two: ThreadState, l: seq<Tid>, idle: Option<Tid>): Sched {
    Sched(map[0 := Fresh(p0, Running), 1 := Fresh(20, one), 2 := Fresh(20, two)], Queues(l), map[0 := []], 0, 0, idle)
  }

  lemma Created()
    ensures var s := Boot(0); var s1 := AddQueue(s, 0);
      1 !in s1.threads && var s2 := CreateThread(s1, 1, 20);
      2 !in s2.threads && CreateThread(s2, 2, 20) == Booted(HIGHEST_PRIORITY, Suspended, Suspended, [], None)
  {
    assert Queues([]) == Boot(0).runQueue;
  }

  /** A boot thread of the highest priority that yields runs on. */
  lemma HighestYields(one: ThreadState, two: ThreadState, l: seq<Tid>)
    requires Inv(Booted(HIGHEST_PRIORITY, one, two, l, None))
    ensures var s := Booted(HIGHEST_PRIORITY, one, two, l, None); YieldTo(s) == s
  {
    hide Inv, Switching;
    var s := Booted(HIGHEST_PRIORITY, one, two, l, None);
    GivenUpOk(s);
    var s1 := GivenUp(s);
    assert s1.runQueue == s.runQueue[HIGHEST_PRIORITY := [] + [0]];
    assert Scan(s1.runQueue, HIGHEST_PRIORITY) == HIGHEST_PRIORITY;
    var s2 := SwitchTo(s1, HIGHEST_PRIORITY);
    assert ([] + [0])[1..] == [] == s.runQueue[HIGHEST_PRIORITY];
    assert s2.runQueue == s.runQueue;
    assert s2.threads == s.threads;
  }

  /** Resuming a thread of a lower priority leaves the boot thread running. */
  lemma ResumedLower(one: ThreadState, two: ThreadState, l: seq<Tid>, t: Tid)
    requires t == 1 || t == 2
    requires var s := Booted(HIGHEST_PRIORITY, one, two, l, None); Inv(s) && s.threads[t].state.Suspended?
    ensures var s := Booted(HIGHEST_PRIORITY, one, two, l, None);
      ResumeThread(s, t) == Booted(HIGHEST_PRIORITY, if t == 1 then Ready else one, if t == 2 then Ready else two, [t] + l, None)
  {
    hide YieldTo, RunQueuesOk, WaitQueuesOk, BootOk;
    var s := Booted(HIGHEST_PRIORITY, one, two, l, None);
    MakeReadyOk(s, t, true);
    var r := Booted(HIGHEST_PRIORITY, if t == 1 then Ready else one, if t == 2 then Ready else two, [t] + l, None);
    assert MakeReady(s, t, true).runQueue == r.runQueue;
    assert MakeReady(s, t, true) == r;
    HighestYields(if t == 1 then Ready else one, if t == 2 then Ready else two, [t] + l);
  }

  lemma IdleYields()
    requires Inv(Booted(IDLE_PRIORITY, Ready, Ready, [2, 1], Some(0)))
    ensures var r := YieldTo(Booted(IDLE_PRIORITY, Ready, Ready, [2, 1], Some(0)));
      r.current == 2 && r.boot == 0 && r.waiters == map[0 := []] && Cycle(r) == [2, 1]
  {
    hide QueuesOk, Scan, NobodyOutranks;
    var s := Booted(IDLE_PRIORITY, Ready, Ready, [2, 1], Some(0));
    GivenUpOk(s);
    var s1 := GivenUp(s);
    assert s1.runQueue == s.runQueue[0 := [] + [0]];
    assert s1.runQueue[20] == [2, 1];
    var p := Scan(s1.runQueue, HIGHEST_PRIORITY);
    assert forall k :: 20 < k < NUM_PRIORITIES ==> s1.runQueue[k] == [];
    assert p == 20;
    ReschedFrom(s1, 20);
    assert [2, 1][1..] == [1];
  }

  ghost predicate Calls(s: Sched, op: Op, r: Sched) {
    Inv(s) && Allowed(s, op) && Next(s, op) == r
  }

  lemma {:induction false} CallThrough(ops: seq<Op>, ss: seq<Sched>)
    requires |ss| == |ops| + 1 && Inv(ss[0])
    requires forall i :: 0 <= i < |ops| ==> Calls(ss[i], ops[i], ss[i + 1])
    ensures AllowedRun(ss[0], ops) && Run(ss[0], ops) == ss[|ops|]
    decreases |ops|
  {
    hide Allowed, Next, Inv;
    if ops == [] {
    } else {
      assert Calls(ss[0], ops[0], ss[1]);
      CallThrough(ops[1..], ss[1..]);
    }
  }

  lemma CreateCalls() returns (s1: Sched, s2: Sched)
    ensures Calls(Boot(0), InitQueue(0), s1) && Calls(s1, Create(1, 20), s2)
    ensures Calls(s2, Create(2, 20), Booted(HIGHEST_PRIORITY, Suspended, Suspended, [], None))
    ensures Inv(Booted(HIGHEST_PRIORITY, Suspended, Suspended, [], None))
  {
    hide Inv, Booted;
    Created();
    s1 := AddQueue(Boot(0), 0);
    s2 := CreateThread(s1, 1, 20);
  }

  lemma ResumeCalls()
    requires Inv(Booted(HIGHEST_PRIORITY, Suspended, Suspended, [], None))
    ensures Calls(Booted(HIGHEST_PRIORITY, Suspended, Suspended, [], None), Op.Resume(1),
                  Booted(HIGHEST_PRIORITY, Ready, Suspended, [1], None))
    ensures Calls(Booted(HIGHEST_PRIORITY, Ready, Suspended, [1], None), Op.Resume(2),
                  Booted(HIGHEST_PRIORITY, Ready, Ready, [2, 1], None))
    ensures Inv(Booted(HIGHEST_PRIORITY, Ready, Ready, [2, 1], None))
  {
    hide Inv, ResumeThread;
    assert [1] + [] == [1] && [2] + [1] == [2, 1];
    ResumedLower(Suspended, Suspended, [], 1);
    assert ResumeThread(Booted(HIGHEST_PRIORITY, Suspended, Suspended, [], None), 1) ==
           Booted(HIGHEST_PRIORITY, Ready, Suspended, [1], None);
    ResumedLower(Ready, Suspended, [1], 2);
  }

  lemma IdleCalls() returns (r: Sched)
    requires Inv(Booted(HIGHEST_PRIORITY, Ready, Ready, [2, 1], None))
    ensures Calls(Booted(HIGHEST_PRIORITY, Ready, Ready, [2, 1], None), BecomeIdle,
                  Booted(IDLE_PRIORITY, Ready, Ready, [2, 1], Some(0)))
    ensures Calls(Booted(IDLE_PRIORITY, Ready, Ready, [2, 1], Some(0)), Yield, r)
    ensures r.current == 2 && Pair(r, 0, 1)
  {
    hide Inv, YieldTo, Cycle;
    var s := Booted(HIGHEST_PRIORITY, Ready, Ready, [2, 1], None);
    assert TurnIdle(s) == Booted(IDLE_PRIORITY, Ready, Ready, [2, 1], Some(0));
    r := YieldTo(TurnIdle(s));
    IdleYields();
  }

  /** Seven kernel calls after boot there is such a pair, so a stranded waiter is reachable. */
  lemma StrandedWaiterIsReachable()
    ensures AllowedRun(Boot(0), BOOT_OPS)
    ensures var s := Run(Boot(0), BOOT_OPS);
      && s.current == 2 && Pair(s, 0, 1)
      && M.EnabledRun(M.Init(s, 0), Steps(1))
      && M.Stranded(M.Run(M.Init(s, 0), Steps(1)), 2)
  {
    hide Inv, Boot, Booted, Calls, Run, AllowedRun, M.EnabledRun, M.Run, M.Stranded, Steps;
    var s1, s2 := CreateCalls();
    ResumeCalls();
    var r := IdleCalls();
    var ss := [Boot(0), s1, s2,
               Booted(HIGHEST_PRIORITY, Suspended, Suspended, [], None),
               Booted(HIGHEST_PRIORITY, Ready, Suspended, [1], None),
               Booted(HIGHEST_PRIORITY, Ready, Ready, [2, 1], None),
               Booted(IDLE_PRIORITY, Ready, Ready, [2, 1], Some(0)), r];
    forall i | 0 <= i < 7
      ensures Calls(ss[i], BOOT_OPS[i], ss[i + 1])
    {
      assert i == 0 || i == 1 || i == 2 || i == 3 || i == 4 || i == 5 || i == 6;
    }
    CallThrough(BOOT_OPS, ss);
    StrandsThePair(r, 0, 1);
  }
}
