// kernel/timer.c: the deadline-sorted timer queue on a 32-bit wrapping clock.
module Timer {
  import opened Basics

  const HALF: int := 0x8000_0000 // half the range of the 32-bit clock

  type Time = t: int | 0 <= t < U32
  type Id = int // address of a timer_t

  // ------------------------------------------------------------- wrapping comparisons

  /** TIME_GT: the signed reading of a - b is positive. */
  predicate TimeGt(a: Time, b: Time) {
    0 < (a - b) % U32 < HALF
  }

  /** TIME_LT: the signed reading of a - b is negative. */
  predicate TimeLt(a: Time, b: Time) {
    (a - b) % U32 >= HALF
  }

  /** They compare the difference, read as a signed 32-bit number, with zero. */
  lemma ComparesSigned(a: Time, b: Time, d: int)
    requires -HALF <= d < HALF && (a - b) % U32 == d % U32
    ensures TimeGt(a, b) <==> d > 0
    ensures TimeLt(a, b) <==> d < 0
  {
    Wrap(d);
  }

  /** Time since epoch on the unwrapped clock. */
  function Since(t: Time, epoch: Time): (r: int)
    ensures 0 <= r < U32
  {
    (t - epoch) % U32
  }

  lemma Wrap(d: int)
    requires 0 < d + U32 && d < U32
    ensures d % U32 == if d < 0 then d + U32 else d
  {
  }

  lemma SinceIs(t: Time, epoch: Time)
    ensures Since(t, epoch) == if t < epoch then t - epoch + U32 else t - epoch
  {
    Wrap(t - epoch);
  }

  /** Inside a half-range window the wrapping comparisons are the real order. */
  lemma WindowOrder(a: Time, b: Time, epoch: Time)
    requires Since(a, epoch) < HALF && Since(b, epoch) < HALF
    ensures TimeGt(a, b) <==> Since(a, epoch) > Since(b, epoch)
    ensures TimeLt(a, b) <==> Since(a, epoch) < Since(b, epoch)
  {
    hide Since;
    SinceIs(a, epoch);
    SinceIs(b, epoch);
    Wrap(a - b);
  }

  function Add(a: Time, d: int): Time {
    (a + d) % U32
  }

  lemma SinceAdd(a: Time, d: nat, epoch: Time)
    requires Since(a, epoch) + d < U32
    ensures Since(Add(a, d), epoch) == Since(a, epoch) + d
  {
    hide Since;
    SinceIs(a, epoch);
    SinceIs(Add(a, d), epoch);
    Reduce(a + d);
  }

  lemma Reduce(n: nat)
    requires n < 2 * U32
    ensures n % U32 == if n < U32 then n else n - U32
  {
  }

  // ------------------------------------------------------------- the queue as a value

  datatype Timer = Timer(scheduled: Time, period: Time)

  datatype State = State(timers: map<Id, Timer>, queue: seq<Id>)

  predicate Known(s: State) {
    forall t :: t in s.queue ==> t in s.timers
  }

  /** insert_timer_in_queue: in front of the first entry with a later deadline. */
  function Insert(timers: map<Id, Timer>, q: seq<Id>, t: Id): seq<Id>
    requires t in timers && forall u :: u in q ==> u in timers
  {
    if q == [] then [t]
    else
      var u := q[0];
      assert u in q;
      if TimeGt(timers[u].scheduled, timers[t].scheduled) then [t] + q
      else [u] + Insert(timers, q[1..], t)
  }

  /** What a callback may do with timers; at is the clock when it does it. */
  datatype Action =
    | SetOneshot(t: Id, at: Time, delay: Time)
    | SetPeriodic(t: Id, at: Time, period: Time)
    | Cancel(t: Id)

  function Delay(a: Action): Time
    requires !a.Cancel?
  {
    match a
    case SetOneshot(_, _, d) => if d == 0 then 1 else d
    case SetPeriodic(_, _, p) => if p == 0 then 1 else p
  }

  function Arm(s: State, a: Action): State
    requires Known(s) && !a.Cancel?
  {
    var x := Timer(Add(a.at, Delay(a)), if a.SetPeriodic? then Delay(a) else 0);
    var timers := s.timers[a.t := x];
    State(timers, Insert(timers, s.queue, a.t))
  }

  function Remove(q: seq<Id>, t: Id): seq<Id> {
    if q == [] then [] else if q[0] == t then q[1..] else [q[0]] + Remove(q[1..], t)
  }

  /** timer_cancel; a timer that was never set has nothing to clear. */
  function Disarm(s: State, t: Id): State {
    if t in s.timers then State(s.timers[t := s.timers[t].(period := 0)], Remove(s.queue, t)) else s
  }

  /** The due timers at the front of the queue. */
  function Due(timers: map<Id, Timer>, q: seq<Id>, now: Time): (r: seq<Id>)
    requires forall u :: u in q ==> u in timers
    ensures r <= q
  {
    if q == [] then []
    else
      var u := q[0];
      assert u in q;
      if TimeLt(now, timers[u].scheduled) then [] else [u] + Due(timers, q[1..], now)
  }

  datatype Outcome = Ran(s: State) | Panic

  /** A callback's actions in order; setting a timer that is already queued panics. */
  function Perform(s: State, acts: seq<Action>): (r: Outcome)
    requires Known(s)
    ensures r.Ran? ==> Known(r.s) && forall t :: t in s.timers ==> t in r.s.timers
    decreases |acts|
  {
    if acts == [] then Ran(s)
    else if acts[0].Cancel? then
      RemoveMembers(s.queue, acts[0].t);
      Perform(Disarm(s, acts[0].t), acts[1..])
    else if acts[0].t in s.queue then Panic
    else
      ArmKnown(s, acts[0]);
      Perform(Arm(s, acts[0]), acts[1..])
  }

  lemma {:induction false} RemoveMembers(q: seq<Id>, t: Id)
    ensures forall u :: u in Remove(q, t) ==> u in q
    ensures forall u :: u in q && u != t ==> u in Remove(q, t)
    ensures Distinct(q) ==> Distinct(Remove(q, t)) && t !in Remove(q, t)
    ensures t !in q ==> Remove(q, t) == q
  {
    if q == [] {
    } else {
      assert q == [q[0]] + q[1..];
      RemoveMembers(q[1..], t);
      if Distinct(q) {
        assert Distinct(q[1..]) && q[0] !in q[1..];
      }
    }
  }

  lemma {:induction false} InsertMembers(timers: map<Id, Timer>, q: seq<Id>, t: Id)
    requires t in timers && forall u :: u in q ==> u in timers
    ensures forall u :: u in Insert(timers, q, t) <==> u == t || u in q
    ensures Distinct(q) && t !in q ==> Distinct(Insert(timers, q, t))
  {
    if q == [] {
    } else {
      var u := q[0];
      assert u in q && q == [u] + q[1..];
      InsertMembers(timers, q[1..], t);
      if Distinct(q) {
        assert Distinct(q[1..]) && u !in q[1..];
      }
    }
  }

  lemma ArmKnown(s: State, a: Action)
    requires Known(s) && !a.Cancel?
    ensures Known(Arm(s, a))
  {
    InsertMembers(Arm(s, a).timers, s.queue, a.t);
  }

  // ------------------------------------------------------------- the invariant

  function Deadline(s: State, t: Id, epoch: Time): int
    requires t in s.timers
  {
    Since(s.timers[t].scheduled, epoch)
  }

  ghost predicate Sorted(s: State, epoch: Time)
    requires Known(s)
  {
    forall i, j :: 0 <= i < j < |s.queue| ==>
      (assert s.queue[i] in s.queue && s.queue[j] in s.queue;
       Deadline(s, s.queue[i], epoch) <= Deadline(s, s.queue[j], epoch))
  }

  /** Pending deadlines lie in the half-range window after epoch, in order. */
  ghost predicate TimerInv(s: State, epoch: Time) {
    && Known(s) && Distinct(s.queue)
    && (forall t :: t in s.queue ==> Deadline(s, t, epoch) < HALF)
    && Sorted(s, epoch)
  }

  /** The walk stops at the first entry with a later deadline. */
  lemma {:induction false} InsertPlace(timers: map<Id, Timer>, q: seq<Id>, t: Id) returns (k: nat)
    requires t in timers && forall u :: u in q ==> u in timers
    ensures k <= |q| && Insert(timers, q, t) == q[..k] + [t] + q[k..]
    ensures forall u :: u in q[..k] ==> !TimeGt(timers[u].scheduled, timers[t].scheduled)
    ensures k < |q| ==> q[k] in timers && TimeGt(timers[q[k]].scheduled, timers[t].scheduled)
  {
    hide TimeGt;
    if q == [] {
      k := 0;
    } else {
      var u := q[0];
      assert u in q;
      if TimeGt(timers[u].scheduled, timers[t].scheduled) {
        k := 0;
        assert q[0..] == q && q[..0] == [] && [] + [t] == [t];
      } else {
        var j := InsertPlace(timers, q[1..], t);
        k := j + 1;
        var front, back := q[1..][..j], q[1..][j..];
        assert q[..k] == [u] + front && q[k..] == back;
        assert [u] + (front + [t] + back) == ([u] + front) + [t] + back;
      }
    }
  }

  /** insert_timer_in_queue keeps the order and puts t behind every timer with the same deadline. */
  lemma InsertIsStable(timers: map<Id, Timer>, q: seq<Id>, t: Id, epoch: Time) returns (k: nat)
    requires t in timers && TimerInv(State(timers, q), epoch)
    requires Since(timers[t].scheduled, epoch) < HALF
    ensures k <= |q| && Insert(timers, q, t) == q[..k] + [t] + q[k..]
    ensures forall u :: u in q[..k] ==>
      u in timers && Since(timers[u].scheduled, epoch) <= Since(timers[t].scheduled, epoch)
    ensures forall u :: u in q[k..] ==>
      u in timers && Since(timers[u].scheduled, epoch) > Since(timers[t].scheduled, epoch)
  {
    k := InsertPlace(timers, q, t);
    hide Insert;
    var s := State(timers, q);
    forall u | u in q
      ensures u in timers
      ensures TimeGt(timers[u].scheduled, timers[t].scheduled) <==>
              Since(timers[u].scheduled, epoch) > Since(timers[t].scheduled, epoch)
    {
      WindowOrder(timers[u].scheduled, timers[t].scheduled, epoch);
    }
    hide TimeGt, Since;
    forall u | u in q[k..]
      ensures u in timers && Since(timers[u].scheduled, epoch) > Since(timers[t].scheduled, epoch)
    {
      var j :| 0 <= j < |q[k..]| && q[k..][j] == u;
      assert q[k] in q && q[k+j] == u && u in q;
      if j > 0 {
        assert Deadline(s, q[k], epoch) <= Deadline(s, q[k+j], epoch);
      }
    }
  }

  lemma TailInv(timers: map<Id, Timer>, q: seq<Id>, epoch: Time)
    requires TimerInv(State(timers, q), epoch) && q != []
    ensures TimerInv(State(timers, q[1..]), epoch)
    ensures forall u :: u in q[1..] ==>
      u in timers && Since(timers[q[0]].scheduled, epoch) <= Since(timers[u].scheduled, epoch)
  {
    hide Since;
    var s, r := State(timers, q), State(timers, q[1..]);
    forall i, j | 0 <= i < j < |r.queue|
      ensures r.queue[i] in timers && r.queue[j] in timers
      ensures Deadline(r, r.queue[i], epoch) <= Deadline(r, r.queue[j], epoch)
    {
      assert r.queue[i] == q[i+1] && r.queue[j] == q[j+1];
      assert q[i+1] in q && q[j+1] in q;
    }
    forall u | u in q[1..]
      ensures u in timers && Since(timers[q[0]].scheduled, epoch) <= Since(timers[u].scheduled, epoch)
    {
      var j :| 0 <= j < |q[1..]| && q[1..][j] == u;
      assert q[j+1] == u;
      assert Deadline(s, q[0], epoch) <= Deadline(s, q[j+1], epoch);
    }
  }

  // ------------------------------------------------------------- steps keep the order

  lemma SortedPlace(s: State, q: seq<Id>, k: nat, t: Id, epoch: Time)
    requires TimerInv(s, epoch) && k <= |s.queue| && t in s.timers
    requires q == s.queue[..k] + [t] + s.queue[k..] && Known(State(s.timers, q))
    requires forall u :: u in s.queue[..k] ==> u in s.timers && Deadline(s, u, epoch) <= Deadline(s, t, epoch)
    requires forall u :: u in s.queue[k..] ==> u in s.timers && Deadline(s, t, epoch) <= Deadline(s, u, epoch)
    ensures Sorted(State(s.timers, q), epoch)
  {
    hide Since, Distinct;
    forall i, j | 0 <= i < j < |q|
      ensures q[i] in s.timers && q[j] in s.timers
      ensures Since(s.timers[q[i]].scheduled, epoch) <= Since(s.timers[q[j]].scheduled, epoch)
    {
      PlacedAt(s.queue, k, t, i);
      PlacedAt(s.queue, k, t, j);
      if i != k && j != k {
        InOrder(s, epoch, if i < k then i else i - 1, if j < k then j else j - 1);
      }
    }
  }

  /** What stands at i once t has been put in front of position k. */
  lemma PlacedAt(l: seq<Id>, k: nat, t: Id, i: nat)
    requires k <= |l| && i <= |l|
    ensures var q := l[..k] + [t] + l[k..];
      if i < k then q[i] == l[i] && l[i] in l[..k] else if i == k then q[i] == t else q[i] == l[i-1] && l[i-1] in l[k..]
  {
    if i < k {
      assert l[..k][i] == l[i];
    } else if i > k {
      assert l[k..][i - 1 - k] == l[i-1];
    }
  }

  lemma InOrder(s: State, epoch: Time, a: nat, b: nat)
    requires Known(s) && Sorted(s, epoch) && a < b < |s.queue|
    ensures s.queue[a] in s.timers && s.queue[b] in s.timers
    ensures Deadline(s, s.queue[a], epoch) <= Deadline(s, s.queue[b], epoch)
  {
    assert s.queue[a] in s.queue && s.queue[b] in s.queue;
  }

  lemma SameQueue(s: State, timers: map<Id, Timer>, epoch: Time)
    requires TimerInv(s, epoch)
    requires forall t :: t in s.queue ==> t in timers && timers[t].scheduled == s.timers[t].scheduled
    ensures TimerInv(State(timers, s.queue), epoch)
  {
    var r := State(timers, s.queue);
    forall i, j | 0 <= i < j < |s.queue|
      ensures s.queue[i] in timers && s.queue[j] in timers
      ensures Deadline(r, s.queue[i], epoch) <= Deadline(r, s.queue[j], epoch)
    {
      assert s.queue[i] in s.queue && s.queue[j] in s.queue;
      assert Deadline(s, s.queue[i], epoch) <= Deadline(s, s.queue[j], epoch);
    }
  }

  lemma InsertKeepsInv(s: State, x: Timer, t: Id, epoch: Time)
    requires TimerInv(s, epoch) && t !in s.queue && Since(x.scheduled, epoch) < HALF
    ensures var timers := s.timers[t := x]; TimerInv(State(timers, Insert(timers, s.queue, t)), epoch)
  {
    var timers := s.timers[t := x];
    SameQueue(s, timers, epoch);
    var k := InsertIsStable(timers, s.queue, t, epoch);
    InsertMembers(timers, s.queue, t);
    SortedPlace(State(timers, s.queue), Insert(timers, s.queue, t), k, t, epoch);
  }

  lemma {:induction false} RemovePlace(q: seq<Id>, t: Id) returns (k: nat)
    requires t in q
    ensures k < |q| && q[k] == t && Remove(q, t) == q[..k] + q[k+1..]
  {
    if q[0] == t {
      k := 0;
    } else {
      var j := RemovePlace(q[1..], t);
      k := j + 1;
    }
  }

  lemma RemoveKeepsInv(s: State, t: Id, epoch: Time)
    requires TimerInv(s, epoch)
    ensures TimerInv(State(s.timers, Remove(s.queue, t)), epoch)
  {
    RemoveMembers(s.queue, t);
    if t in s.queue {
      var k := RemovePlace(s.queue, t);
      SortedHole(s, Remove(s.queue, t), k, epoch);
      hide Sorted;
    }
  }

  /** What stands at i once position k has been taken out. */
  lemma LeftAt(l: seq<Id>, k: nat, i: nat)
    requires k < |l| && i < |l| - 1
    ensures (l[..k] + l[k+1..])[i] == l[if i < k then i else i + 1]
  {
  }

  lemma SortedHole(s: State, q: seq<Id>, k: nat, epoch: Time)
    requires Known(s) && Sorted(s, epoch) && k < |s.queue| && q == s.queue[..k] + s.queue[k+1..]
    requires Known(State(s.timers, q))
    ensures Sorted(State(s.timers, q), epoch)
  {
    hide Since;
    forall i, j | 0 <= i < j < |q|
      ensures q[i] in s.timers && q[j] in s.timers
      ensures Since(s.timers[q[i]].scheduled, epoch) <= Since(s.timers[q[j]].scheduled, epoch)
    {
      LeftAt(s.queue, k, i);
      LeftAt(s.queue, k, j);
      InOrder(s, epoch, if i < k then i else i + 1, if j < k then j else j + 1);
    }
  }

  lemma DisarmKeepsInv(s: State, t: Id, epoch: Time)
    requires TimerInv(s, epoch)
    ensures TimerInv(Disarm(s, t), epoch)
  {
    RemoveKeepsInv(s, t, epoch);
    if t in s.timers {
      SameQueue(State(s.timers, Remove(s.queue, t)), Disarm(s, t).timers, epoch);
    }
  }

  // ------------------------------------------------------------- due timers

  /** Every deadline set during the tick, and every re-armed period, stays in the window and after now. */
  ghost predicate ActionOk(a: Action, now: Time, epoch: Time) {
    !a.Cancel? ==> Since(now, epoch) <= Since(a.at, epoch) && Since(a.at, epoch) + Delay(a) < HALF
  }

  ghost predicate TickInv(s: State, now: Time, epoch: Time) {
    && TimerInv(s, epoch) && Since(now, epoch) < HALF
    && forall t :: t in s.timers ==> Since(now, epoch) + s.timers[t].period < HALF
  }

  lemma {:induction false} DueIsAllDue(timers: map<Id, Timer>, q: seq<Id>, now: Time, epoch: Time)
    requires TimerInv(State(timers, q), epoch) && Since(now, epoch) < HALF
    ensures forall u :: u in Due(timers, q, now) <==>
              u in q && u in timers && Since(timers[u].scheduled, epoch) <= Since(now, epoch)
  {
    if q == [] {
    } else {
      var u := q[0];
      assert u in q && q == [u] + q[1..];
      WindowOrder(now, timers[u].scheduled, epoch);
      TailInv(timers, q, epoch);
      if !TimeLt(now, timers[u].scheduled) {
        DueIsAllDue(timers, q[1..], now, epoch);
      }
    }
  }

  /** Queueing a timer that is not due leaves the due ones as they were. */
  lemma {:induction false} DueAfterInsert(timers: map<Id, Timer>, q: seq<Id>, t: Id, now: Time, epoch: Time)
    requires TimerInv(State(timers, q), epoch) && t in timers && Since(now, epoch) < HALF
    requires Since(now, epoch) < Since(timers[t].scheduled, epoch) < HALF
    ensures forall u :: u in Insert(timers, q, t) ==> u in timers
    ensures Due(timers, Insert(timers, q, t), now) == Due(timers, q, now)
  {
    hide Sorted, Since, TimeGt, TimeLt, Distinct;
    InsertMembers(timers, q, t);
    WindowOrder(now, timers[t].scheduled, epoch);
    if q == [] {
      assert [t][0] == t;
    } else {
      var u := q[0];
      assert u in q;
      WindowOrder(now, timers[u].scheduled, epoch);
      WindowOrder(timers[u].scheduled, timers[t].scheduled, epoch);
      if !TimeGt(timers[u].scheduled, timers[t].scheduled) {
        TailInv(timers, q, epoch);
        DueAfterInsert(timers, q[1..], t, now, epoch);
        assert ([u] + Insert(timers, q[1..], t))[1..] == Insert(timers, q[1..], t);
      } else {
        assert ([t] + q)[0] == t;
      }
    }
  }

  lemma {:induction false} DueAfterRemove(timers: map<Id, Timer>, q: seq<Id>, t: Id, now: Time, epoch: Time)
    requires TimerInv(State(timers, q), epoch) && Since(now, epoch) < HALF
    ensures forall u :: u in Remove(q, t) ==> u in timers
    ensures Due(timers, Remove(q, t), now) == Remove(Due(timers, q, now), t)
  {
    hide Since, TimeLt;
    RemoveMembers(q, t);
    if q == [] {
    } else {
      var u := q[0];
      assert u in q;
      WindowOrder(now, timers[u].scheduled, epoch);
      TailInv(timers, q, epoch);
      if u == t {
        if TimeLt(now, timers[u].scheduled) && q[1..] != [] {
          var v := q[1..][0];
          assert v in q[1..];
          WindowOrder(now, timers[v].scheduled, epoch);
        }
      } else {
        DueAfterRemove(timers, q[1..], t, now, epoch);
        assert ([u] + Remove(q[1..], t))[1..] == Remove(q[1..], t);
      }
    }
  }

  lemma {:induction false} DueSameTimers(timers: map<Id, Timer>, timers': map<Id, Timer>, q: seq<Id>, now: Time)
    requires forall u :: u in q ==> u in timers && u in timers' && timers[u].scheduled == timers'[u].scheduled
    ensures Due(timers, q, now) == Due(timers', q, now)
  {
    if q == [] {
    } else {
      var u := q[0];
      assert u in q;
      DueSameTimers(timers, timers', q[1..], now);
    }
  }

  /** What is left of a list of due timers once a callback has cancelled some. */
  function Remaining(due: seq<Id>, acts: seq<Action>): (r: seq<Id>)
    ensures |r| <= |due|
    decreases |acts|
  {
    if acts == [] then due
    else Remaining(if acts[0].Cancel? then Shorter(due, acts[0].t) else due, acts[1..])
  }

  function Shorter(due: seq<Id>, t: Id): (r: seq<Id>)
    ensures |r| <= |due|
  {
    RemoveLength(due, t);
    Remove(due, t)
  }

  lemma {:induction false} RemoveLength(q: seq<Id>, t: Id)
    ensures |Remove(q, t)| <= |q|
  {
    if q == [] {
    } else {
      RemoveLength(q[1..], t);
    }
  }

  /** A callback changes the due timers only by cancelling. */
  lemma {:induction false} PerformKeeps(s: State, acts: seq<Action>, now: Time, epoch: Time)
    requires TickInv(s, now, epoch) && forall i :: 0 <= i < |acts| ==> ActionOk(acts[i], now, epoch)
    ensures var r := Perform(s, acts); r.Ran? ==>
      && TickInv(r.s, now, epoch)
      && Due(r.s.timers, r.s.queue, now) == Remaining(Due(s.timers, s.queue, now), acts)
    decreases |acts|
  {
    if acts == [] {
    } else {
      var a := acts[0];
      assert ActionOk(a, now, epoch);
      assert forall i :: 0 <= i < |acts[1..]| ==> acts[1..][i] == acts[i+1];
      if a.Cancel? {
        var s1 := Disarm(s, a.t);
        DisarmKeepsInv(s, a.t, epoch);
        DueAfterRemove(s.timers, s.queue, a.t, now, epoch);
        RemoveMembers(s.queue, a.t);
        if a.t in s.timers {
          DueSameTimers(s.timers, s1.timers, s1.queue, now);
        } else {
          RemoveMembers(Due(s.timers, s.queue, now), a.t);
        }
        PerformKeeps(s1, acts[1..], now, epoch);
      } else if a.t !in s.queue {
        ArmKeeps(s, a, now, epoch);
        PerformKeeps(Arm(s, a), acts[1..], now, epoch);
      }
    }
  }

  lemma ArmKeeps(s: State, a: Action, now: Time, epoch: Time)
    requires TickInv(s, now, epoch) && ActionOk(a, now, epoch) && !a.Cancel? && a.t !in s.queue
    ensures Known(Arm(s, a)) && TickInv(Arm(s, a), now, epoch)
    ensures Due(Arm(s, a).timers, Arm(s, a).queue, now) == Due(s.timers, s.queue, now)
  {
    SinceAdd(a.at, Delay(a), epoch);
    Requeue(s, Timer(Add(a.at, Delay(a)), if a.SetPeriodic? then Delay(a) else 0), a.t, now, epoch);
  }

  /** Queueing t with a deadline after now. */
  lemma Requeue(s: State, x: Timer, t: Id, now: Time, epoch: Time)
    requires TickInv(s, now, epoch) && t !in s.queue
    requires Since(now, epoch) < Since(x.scheduled, epoch) < HALF && Since(now, epoch) + x.period < HALF
    ensures var timers := s.timers[t := x]; var r := State(timers, Insert(timers, s.queue, t));
      TickInv(r, now, epoch) && Due(timers, r.queue, now) == Due(s.timers, s.queue, now)
  {
    var timers := s.timers[t := x];
    SameQueue(s, timers, epoch);
    InsertKeepsInv(s, x, t, epoch);
    DueAfterInsert(timers, s.queue, t, now, epoch);
    DueSameTimers(s.timers, timers, s.queue, now);
  }

  // ------------------------------------------------------------- the tick

  /** Fire the head of the queue: take it off, run its callback, re-arm it if it is periodic. */
  function Fire(s: State, now: Time, acts: seq<Action>): (r: Outcome)
    requires Known(s) && s.queue != []
    ensures r.Ran? ==> Known(r.s)
  {
    var t := s.queue[0];
    assert t in s.queue;
    assert forall u :: u in s.queue[1..] ==> u in s.queue;
    var p := Perform(s.(queue := s.queue[1..]), acts);
    if p.Ran? && s.timers[t].period > 0 && t !in p.s.queue && p.s.timers[t].period > 0 then
      var timers := p.s.timers[t := Timer(Add(now, p.s.timers[t].period), p.s.timers[t].period)];
      InsertMembers(timers, p.s.queue, t);
      Ran(State(timers, Insert(timers, p.s.queue, t)))
    else p
  }

  /** One firing takes the head off the due timers, and its callback's cancellations. */
  lemma FireKeeps(s: State, now: Time, acts: seq<Action>, epoch: Time)
    requires TickInv(s, now, epoch) && HeadDue(s, now)
    requires forall i :: 0 <= i < |acts| ==> ActionOk(acts[i], now, epoch)
    ensures var d := Due(s.timers, s.queue, now); d != [] && d[0] == s.queue[0]
    ensures var r := Fire(s, now, acts); r.Ran? ==>
      && TickInv(r.s, now, epoch)
      && Due(r.s.timers, r.s.queue, now) == Remaining(Due(s.timers, s.queue, now)[1..], acts)
  {
    var t := s.queue[0];
    assert t in s.queue;
    TailInv(s.timers, s.queue, epoch);
    var s1 := s.(queue := s.queue[1..]);
    PerformKeeps(s1, acts, now, epoch);
    var p := Perform(s1, acts);
    if p.Ran? && s.timers[t].period > 0 && t !in p.s.queue && p.s.timers[t].period > 0 {
      var period := p.s.timers[t].period;
      SinceAdd(now, period, epoch);
      Requeue(p.s, Timer(Add(now, period), period), t, now, epoch);
    }
  }

  /** The test that keeps the firing loop going. */
  predicate HeadDue(s: State, now: Time)
    requires Known(s)
  {
    if s.queue == [] then false
    else
      var t := s.queue[0];
      assert t in s.queue;
      !TimeLt(now, s.timers[t].scheduled)
  }

  ghost predicate BehaviourOk(behaviour: Id -> seq<Action>, now: Time, epoch: Time) {
    forall t, i :: 0 <= i < |behaviour(t)| ==> ActionOk(behaviour(t)[i], now, epoch)
  }

  datatype Result = Done(s: State, fired: seq<Id>) | Panicked(fired: seq<Id>)

  /** The firing loop of timer_tick. */
  ghost function Tick(s: State, now: Time, behaviour: Id -> seq<Action>, epoch: Time): (r: Result)
    requires TickInv(s, now, epoch) && BehaviourOk(behaviour, now, epoch)
    decreases |Due(s.timers, s.queue, now)|
  {
    if !HeadDue(s, now) then Done(s, [])
    else
      var t := s.queue[0];
      FireKeeps(s, now, behaviour(t), epoch);
      var o := Fire(s, now, behaviour(t));
      if o.Panic? then Panicked([t])
      else
        var r := Tick(o.s, now, behaviour, epoch);
        r.(fired := [t] + r.fired)
  }

  /** The due timers in order, without those that an earlier callback cancelled. */
  function Expected(due: seq<Id>, behaviour: Id -> seq<Action>): seq<Id>
    decreases |due|
  {
    if due == [] then [] else [due[0]] + Expected(Remaining(due[1..], behaviour(due[0])), behaviour)
  }

  /**
   * A tick fires exactly the timers with deadline <= now, in deadline order, skipping only
   * those cancelled by callbacks that fired before them, and leaves a sorted queue whose
   * deadlines are all after now, whatever periodic timers and callbacks put back.
   */
  lemma {:induction false} TickFiresTheDue(s: State, now: Time, behaviour: Id -> seq<Action>, epoch: Time)
    requires TickInv(s, now, epoch) && BehaviourOk(behaviour, now, epoch)
    ensures var r := Tick(s, now, behaviour, epoch); r.Done? ==>
      && r.fired == Expected(Due(s.timers, s.queue, now), behaviour)
      && TickInv(r.s, now, epoch)
      && forall t :: t in r.s.queue ==> Deadline(r.s, t, epoch) > Since(now, epoch)
    decreases |Due(s.timers, s.queue, now)|
  {
    if s.queue != [] {
      var t := s.queue[0];
      if !HeadDue(s, now) {
        DueIsAllDue(s.timers, s.queue, now, epoch);
      } else {
        FireKeeps(s, now, behaviour(t), epoch);
        var o := Fire(s, now, behaviour(t));
        if o.Ran? {
          TickFiresTheDue(o.s, now, behaviour, epoch);
        }
      }
    }
  }

  /** When no due timer is cancelled during the tick, every due timer fires. */
  lemma {:induction false} NothingCancelled(due: seq<Id>, behaviour: Id -> seq<Action>)
    requires forall t, i :: t in due && 0 <= i < |behaviour(t)| && behaviour(t)[i].Cancel? ==> behaviour(t)[i].t !in due
    ensures Expected(due, behaviour) == due
    decreases |due|
  {
    if due == [] {
    } else {
      var t := due[0];
      assert t in due;
      assert forall u :: u in due[1..] ==> u in due;
      RemainingAll(due[1..], behaviour(t));
      NothingCancelled(due[1..], behaviour);
    }
  }

  lemma {:induction false} RemainingAll(due: seq<Id>, acts: seq<Action>)
    requires forall i :: 0 <= i < |acts| && acts[i].Cancel? ==> acts[i].t !in due
    ensures Remaining(due, acts) == due
    decreases |acts|
  {
    if acts == [] {
    } else {
      RemoveMembers(due, acts[0].t);
      assert forall i :: 0 <= i < |acts[1..]| ==> acts[1..][i] == acts[i+1];
      RemainingAll(due, acts[1..]);
    }
  }

  // ------------------------------------------------------------- timers no callback names

  lemma {:induction false} PerformLeaves(s: State, acts: seq<Action>, t: Id)
    requires Known(s) && forall i :: 0 <= i < |acts| ==> acts[i].t != t
    ensures var r := Perform(s, acts); r.Ran? ==>
      && (t in r.s.queue <==> t in s.queue)
      && (t in s.timers ==> t in r.s.timers && r.s.timers[t] == s.timers[t])
    decreases |acts|
  {
    if acts == [] {
    } else {
      var a := acts[0];
      assert forall i :: 0 <= i < |acts[1..]| ==> acts[1..][i] == acts[i+1];
      RemoveMembers(s.queue, a.t);
      if a.Cancel? {
        PerformLeaves(Disarm(s, a.t), acts[1..], t);
      } else if a.t !in s.queue {
        ArmKnown(s, a);
        InsertMembers(Arm(s, a).timers, s.queue, a.t);
        PerformLeaves(Arm(s, a), acts[1..], t);
      }
    }
  }

  lemma FireLeaves(s: State, now: Time, acts: seq<Action>, t: Id, epoch: Time)
    requires TickInv(s, now, epoch) && HeadDue(s, now)
    requires forall i :: 0 <= i < |acts| ==> acts[i].t != t
    ensures var r := Fire(s, now, acts); r.Ran? ==>
      (if t == s.queue[0] then
         && t in s.timers && t in r.s.timers
         && (t in r.s.queue <==> s.timers[t].period > 0)
         && (s.timers[t].period > 0 ==> r.s.timers[t] == Timer(Add(now, s.timers[t].period), s.timers[t].period))
       else
         && (t in r.s.queue <==> t in s.queue)
         && (t in s.timers ==> t in r.s.timers && r.s.timers[t] == s.timers[t]))
  {
    var h := s.queue[0];
    assert h in s.queue && s.queue == [h] + s.queue[1..];
    assert h !in s.queue[1..];
    assert forall u :: u in s.queue[1..] ==> u in s.queue;
    var s1 := s.(queue := s.queue[1..]);
    PerformLeaves(s1, acts, t);
    var p := Perform(s1, acts);
    if p.Ran? && s.timers[h].period > 0 && h !in p.s.queue && p.s.timers[h].period > 0 {
      var timers := p.s.timers[h := Timer(Add(now, p.s.timers[h].period), p.s.timers[h].period)];
      InsertMembers(timers, p.s.queue, h);
    }
  }

  /**
   * What a tick does to a timer that no fired callback names: not due, it stays as it was;
   * due and periodic, it is queued again one period from now; due and one-shot, it is gone;
   * not queued, it stays out.
   */
  lemma {:induction false} TickOnUnnamed(s: State, now: Time, behaviour: Id -> seq<Action>, epoch: Time, t: Id)
    requires TickInv(s, now, epoch) && BehaviourOk(behaviour, now, epoch)
    requires var r := Tick(s, now, behaviour, epoch);
      forall u, i :: u in r.fired && 0 <= i < |behaviour(u)| ==> behaviour(u)[i].t != t
    ensures var r := Tick(s, now, behaviour, epoch); r.Done? ==>
      if t !in s.queue then t !in r.s.queue
      else
        && t in s.timers
        && (if Deadline(s, t, epoch) > Since(now, epoch) then
              t in r.s.queue && t in r.s.timers && r.s.timers[t] == s.timers[t]
            else
              && (t in r.s.queue <==> s.timers[t].period > 0)
              && (s.timers[t].period > 0 ==>
                    t in r.s.timers && r.s.timers[t] == Timer(Add(now, s.timers[t].period), s.timers[t].period)))
    decreases |Due(s.timers, s.queue, now)|
  {
    DueIsAllDue(s.timers, s.queue, now, epoch);
    if !HeadDue(s, now) {
    } else {
      var h := s.queue[0];
      FireKeeps(s, now, behaviour(h), epoch);
      var o := Fire(s, now, behaviour(h));
      if o.Ran? {
        var r := Tick(s, now, behaviour, epoch);
        assert h in r.fired;
        assert forall u :: u in Tick(o.s, now, behaviour, epoch).fired ==> u in r.fired;
        FireLeaves(s, now, behaviour(h), t, epoch);
        if t in s.timers && t == h && s.timers[t].period > 0 {
          SinceAdd(now, s.timers[t].period, epoch);
        }
        TickOnUnnamed(o.s, now, behaviour, epoch, t);
      }
    }
  }

  // ------------------------------------------------------------- runs of ticks

  /** After a tick the window starts at its time: it moves along with the clock. */
  lemma WindowMoves(s: State, now: Time, epoch: Time)
    requires TickInv(s, now, epoch) && forall t :: t in s.queue ==> Deadline(s, t, epoch) > Since(now, epoch)
    ensures TickInv(s, now, now)
    ensures forall t :: t in s.queue ==> Deadline(s, t, now) == Deadline(s, t, epoch) - Since(now, epoch)
  {
    forall t | t in s.queue
      ensures Deadline(s, t, now) == Deadline(s, t, epoch) - Since(now, epoch)
    {
      Rebased(s.timers[t].scheduled, now, epoch);
    }
    Rebased(now, now, epoch);
  }

  lemma Rebased(t: Time, now: Time, epoch: Time)
    requires Since(t, epoch) >= Since(now, epoch)
    ensures Since(t, now) == Since(t, epoch) - Since(now, epoch)
  {
    hide Since;
    SinceIs(t, epoch);
    SinceIs(now, epoch);
    SinceIs(t, now);
  }

  /** What threads set and cancel after one tick, the time of the next one, and what its callbacks do. */
  datatype Beat = Beat(calls: seq<Action>, now: Time, behaviour: Id -> seq<Action>)

  /** All deadlines set until the next tick is over lie in the window, and nobody sets a queued timer. */
  ghost predicate BeatOk(s: State, last: Time, b: Beat)
    requires TickInv(s, last, last)
  {
    && (forall i :: 0 <= i < |b.calls| ==> ActionOk(b.calls[i], last, last))
    && var p := Perform(s, b.calls);
       && p.Ran? && TickInv(p.s, b.now, last) && BehaviourOk(b.behaviour, b.now, last)
       && Tick(p.s, b.now, b.behaviour, last).Done?
  }

  ghost function Beaten(s: State, last: Time, b: Beat): (r: Result)
    requires TickInv(s, last, last) && BeatOk(s, last, b)
    ensures r.Done? && TickInv(r.s, b.now, b.now)
  {
    var p := Perform(s, b.calls).s;
    TickFiresTheDue(p, b.now, b.behaviour, last);
    WindowMoves(Tick(p, b.now, b.behaviour, last).s, b.now, last);
    Tick(p, b.now, b.behaviour, last)
  }

  ghost predicate RunOk(s: State, last: Time, beats: seq<Beat>)
    requires TickInv(s, last, last)
    decreases |beats|
  {
    beats == [] || (BeatOk(s, last, beats[0]) && RunOk(Beaten(s, last, beats[0]).s, beats[0].now, beats[1..]))
  }

  /** The timers each tick of a run fires. */
  ghost function Firings(s: State, last: Time, beats: seq<Beat>): (r: seq<seq<Id>>)
    requires TickInv(s, last, last) && RunOk(s, last, beats)
    ensures |r| == |beats|
    decreases |beats|
  {
    if beats == [] then []
    else
      var r := Beaten(s, last, beats[0]);
      [r.fired] + Firings(r.s, beats[0].now, beats[1..])
  }

  /** The number of ticks until the clock has come d further than last. */
  function TicksBefore(last: Time, beats: seq<Beat>, d: int): (k: nat)
    ensures k <= |beats|
    decreases |beats|
  {
    if beats == [] || Since(beats[0].now, last) >= d then 0
    else 1 + TicksBefore(beats[0].now, beats[1..], d - Since(beats[0].now, last))
  }

  /** Only the timer's own callback names it. */
  ghost predicate Unnamed(b: Beat, t: Id) {
    && (forall i :: 0 <= i < |b.calls| ==> b.calls[i].t != t)
    && (forall u, i :: u != t && 0 <= i < |b.behaviour(u)| ==> b.behaviour(u)[i].t != t)
  }

  /** A queued timer fires in the first tick at or after its deadline and in none before, across any number of wraps. */
  lemma {:induction false} FiresOnTime(s: State, last: Time, beats: seq<Beat>, t: Id)
    requires TickInv(s, last, last) && RunOk(s, last, beats)
    requires t in s.queue && t in s.timers && forall b :: b in beats ==> Unnamed(b, t)
    ensures var k := TicksBefore(last, beats, Deadline(s, t, last)); var f := Firings(s, last, beats);
      && (forall j :: 0 <= j < k ==> t !in f[j])
      && (k < |beats| ==> t in f[k])
    decreases |beats|
  {
    hide Unnamed, TickInv, BeatOk, Firings, TicksBefore, Since;
    TicksUnfold(last, beats, Deadline(s, t, last));
    if beats == [] {
    } else {
      var b := beats[0];
      assert b in beats && forall c :: c in beats[1..] ==> c in beats;
      BeatFiresTheDue(s, last, b, t);
      var r := Beaten(s, last, b);
      if Since(b.now, last) < Deadline(s, t, last) {
        var k := TicksBefore(b.now, beats[1..], Deadline(r.s, t, b.now));
        var f := Firings(r.s, b.now, beats[1..]);
        FiresOnTime(r.s, b.now, beats[1..], t);
        FiringsUnfold(s, last, beats);
        LaterFirings(r.fired, f, k, t);
      } else {
        FiringsUnfold(s, last, beats);
      }
    }
  }

  lemma TicksUnfold(last: Time, beats: seq<Beat>, d: int)
    ensures TicksBefore(last, beats, d) ==
            if beats == [] || Since(beats[0].now, last) >= d then 0
            else 1 + TicksBefore(beats[0].now, beats[1..], d - Since(beats[0].now, last))
  {
    hide Since;
  }

  lemma FiringsUnfold(s: State, last: Time, beats: seq<Beat>)
    requires TickInv(s, last, last) && RunOk(s, last, beats) && beats != []
    ensures var r := Beaten(s, last, beats[0]);
      RunOk(r.s, beats[0].now, beats[1..]) && Firings(s, last, beats) == [r.fired] + Firings(r.s, beats[0].now, beats[1..])
  {
    hide TickInv, BeatOk, Beaten;
  }

  lemma LaterFirings(first: seq<Id>, f: seq<seq<Id>>, k: nat, t: Id)
    requires t !in first && k <= |f| && (forall j :: 0 <= j < k ==> t !in f[j]) && (k < |f| ==> t in f[k])
    ensures forall j :: 0 <= j < k + 1 ==> t !in ([first] + f)[j]
    ensures k < |f| ==> t in ([first] + f)[k + 1]
  {
  }

  /** One tick of a run fires the timer if it is due, and else leaves it queued with that much less to wait. */
  lemma BeatFiresTheDue(s: State, last: Time, b: Beat, t: Id)
    requires TickInv(s, last, last) && BeatOk(s, last, b) && Unnamed(b, t) && t in s.queue && t in s.timers
    ensures var r := Beaten(s, last, b);
      && (t in r.fired <==> Deadline(s, t, last) <= Since(b.now, last))
      && (t !in r.fired ==>
            t in r.s.queue && t in r.s.timers && Deadline(r.s, t, b.now) == Deadline(s, t, last) - Since(b.now, last))
  {
    PerformLeaves(s, b.calls, t);
    var p := Perform(s, b.calls).s;
    var r := Tick(p, b.now, b.behaviour, last);
    var due := Due(p.timers, p.queue, b.now);
    TickFiresTheDue(p, b.now, b.behaviour, last);
    DueIsAllDue(p.timers, p.queue, b.now, last);
    if t in due {
      ExpectedHas(due, b.behaviour, t);
    } else {
      ExpectedIn(due, b.behaviour, t);
      TickOnUnnamed(p, b.now, b.behaviour, last, t);
      WindowMoves(r.s, b.now, last);
    }
  }

  lemma {:induction false} RemainingHas(due: seq<Id>, acts: seq<Action>, t: Id)
    ensures t in Remaining(due, acts) ==> t in due
    ensures t in due && (forall i :: 0 <= i < |acts| ==> acts[i].t != t) ==> t in Remaining(due, acts)
    decreases |acts|
  {
    if acts == [] {
    } else {
      RemoveMembers(due, acts[0].t);
      assert forall i :: 0 <= i < |acts[1..]| ==> acts[1..][i] == acts[i+1];
      RemainingHas(if acts[0].Cancel? then Shorter(due, acts[0].t) else due, acts[1..], t);
    }
  }

  lemma {:induction false} ExpectedIn(due: seq<Id>, behaviour: Id -> seq<Action>, t: Id)
    ensures t in Expected(due, behaviour) ==> t in due
    decreases |due|
  {
    if due == [] {
    } else {
      RemainingHas(due[1..], behaviour(due[0]), t);
      ExpectedIn(Remaining(due[1..], behaviour(due[0])), behaviour, t);
    }
  }

  /** A due timer that no other callback names is fired. */
  lemma {:induction false} ExpectedHas(due: seq<Id>, behaviour: Id -> seq<Action>, t: Id)
    requires t in due && forall u, i :: u != t && 0 <= i < |behaviour(u)| ==> behaviour(u)[i].t != t
    ensures t in Expected(due, behaviour)
    decreases |due|
  {
    if due[0] == t {
    } else {
      RemainingHas(due[1..], behaviour(due[0]), t);
      ExpectedHas(Remaining(due[1..], behaviour(due[0])), behaviour, t);
    }
  }

  // ------------------------------------------------------------- the code

  lemma TickKnown(s: State, now: Time, epoch: Time)
    requires TickInv(s, now, epoch)
    ensures Known(s)
  {
  }

  /** One iteration of the insertion walk. */
  lemma InsertSkips(timers: map<Id, Timer>, q: seq<Id>, i: nat, t: Id)
    requires i < |q| && t in timers && forall u :: u in q ==> u in timers
    ensures q[i] in timers
    ensures forall u :: u in q[i..] || u in q[i+1..] ==> u in timers
    ensures if TimeGt(timers[q[i]].scheduled, timers[t].scheduled)
            then q[..i] + Insert(timers, q[i..], t) == q[..i] + [t] + q[i..]
            else q[..i] + Insert(timers, q[i..], t) == q[..i+1] + Insert(timers, q[i+1..], t)
  {
    hide TimeGt;
    var u := q[i];
    assert u in q && q[i..] == [u] + q[i+1..];
    SuffixIn(q, i);
    SuffixIn(q, i + 1);
    if TimeGt(timers[u].scheduled, timers[t].scheduled) {
      Regroup(q[..i], t, q[i..]);
    } else {
      var r := Insert(timers, q[i+1..], t);
      Regroup(q[..i], u, r);
      assert q[..i+1] == q[..i] + [u];
    }
  }

  lemma SuffixIn(q: seq<Id>, i: nat)
    requires i <= |q|
    ensures forall u :: u in q[i..] ==> u in q
  {
  }

  lemma Regroup(a: seq<Id>, t: Id, b: seq<Id>)
    ensures a + ([t] + b) == a + [t] + b
  {
  }

  lemma BehavesAt(behaviour: Id -> seq<Action>, t: Id, now: Time, epoch: Time)
    requires BehaviourOk(behaviour, now, epoch)
    ensures forall i :: 0 <= i < |behaviour(t)| ==> ActionOk(behaviour(t)[i], now, epoch)
  {
  }

  lemma RemainingShorter(due: seq<Id>, acts: seq<Action>)
    requires due != []
    ensures |Remaining(due[1..], acts)| < |due|
  {
    hide Remaining;
  }

  /** One iteration of the firing loop. */
  lemma TickUnfolds(s: State, now: Time, behaviour: Id -> seq<Action>, epoch: Time, fired: seq<Id>)
    requires TickInv(s, now, epoch) && BehaviourOk(behaviour, now, epoch) && HeadDue(s, now)
    ensures var t := s.queue[0]; var o := Fire(s, now, behaviour(t)); var r := Tick(s, now, behaviour, epoch);
      if o.Panic? then r.(fired := fired + r.fired) == Panicked(fired + [t])
      else
        && TickInv(o.s, now, epoch)
        && |Due(o.s.timers, o.s.queue, now)| < |Due(s.timers, s.queue, now)|
        && var r' := Tick(o.s, now, behaviour, epoch); r.(fired := fired + r.fired) == r'.(fired := fired + [t] + r'.fired)
  {
    hide TickInv, Fire, Due, BehaviourOk;
    TickKnown(s, now, epoch);
    var t := s.queue[0];
    BehavesAt(behaviour, t, now, epoch);
    FireKeeps(s, now, behaviour(t), epoch);
    var o := Fire(s, now, behaviour(t));
    if o.Ran? {
      RemainingShorter(Due(s.timers, s.queue, now), behaviour(t));
      Regroup(fired, t, Tick(o.s, now, behaviour, epoch).fired);
    }
  }

  class TimerQueue {
    var timers: map<Id, Timer>
    var queue: seq<Id>

    function Abs(): State
      reads this
    {
      State(timers, queue)
    }

    /** timer_init. */
    constructor ()
      ensures Abs() == State(map[], []) && forall epoch :: TimerInv(Abs(), epoch)
    {
      timers := map[];
      queue := [];
    }

    method InsertTimerInQueue(t: Id)
      requires Known(Abs()) && t in timers
      modifies this`queue
      ensures queue == Insert(timers, old(queue), t)
    {
      var i := 0;
      while i < |queue|
        invariant 0 <= i <= |queue| && queue == old(queue)
        invariant Insert(timers, queue, t) == queue[..i] + Insert(timers, queue[i..], t)
      {
        var u := queue[i];
        assert u in queue;
        InsertSkips(timers, queue, i, t);
        if TimeGt(timers[u].scheduled, timers[t].scheduled) {
          queue := queue[..i] + [t] + queue[i..];
          return;
        }
        i := i + 1;
      }
      assert queue[..i] == queue && queue[i..] == [];
      queue := queue + [t];
    }

    /** timer_set behind both public setters; false is the panic on a queued timer. */
    method TimerSet(a: Action) returns (ok: bool)
      requires Known(Abs()) && !a.Cancel?
      modifies this
      ensures ok <==> a.t !in old(queue)
      ensures if ok then Known(Abs()) && Abs() == Arm(old(Abs()), a) else Abs() == old(Abs())
      ensures ok && a.SetOneshot? && a.delay > 0 ==> a.t in timers && timers[a.t] == Timer((a.at + a.delay) % U32, 0)
      ensures ok && a.SetPeriodic? && a.period > 0 ==>
        a.t in timers && timers[a.t] == Timer((a.at + a.period) % U32, a.period)
    {
      if a.t in queue {
        return false;
      }
      ArmKnown(Abs(), a);
      timers := timers[a.t := Timer(Add(a.at, Delay(a)), if a.SetPeriodic? then Delay(a) else 0)];
      InsertTimerInQueue(a.t);
      return true;
    }

    method TimerCancel(t: Id)
      requires Known(Abs())
      modifies this
      ensures Known(Abs()) && Abs() == Disarm(old(Abs()), t)
    {
      RemoveMembers(queue, t);
      if t in timers {
        if t in queue {
          var k := RemovePlace(queue, t);
          queue := Remove(queue, t);
        }
        timers := timers[t := timers[t].(period := 0)];
      }
    }

    method RunCallback(acts: seq<Action>) returns (ok: bool)
      requires Known(Abs())
      modifies this
      ensures Known(Abs())
      ensures ok <==> Perform(old(Abs()), acts).Ran?
      ensures ok ==> Abs() == Perform(old(Abs()), acts).s
    {
      var i := 0;
      while i < |acts|
        invariant 0 <= i <= |acts| && Known(Abs())
        invariant Perform(Abs(), acts[i..]) == Perform(old(Abs()), acts)
      {
        assert acts[i..][0] == acts[i] && acts[i..][1..] == acts[i+1..];
        if acts[i].Cancel? {
          TimerCancel(acts[i].t);
        } else {
          ok := TimerSet(acts[i]);
          if !ok {
            return;
          }
        }
        i := i + 1;
      }
      return true;
    }

    /** timer_tick; behaviour gives what each timer's callback does, false is a panic inside one. */
    method TimerTick(now: Time, behaviour: Id -> seq<Action>, ghost epoch: Time)
      returns (ok: bool, ghost fired: seq<Id>)
      requires TickInv(Abs(), now, epoch) && BehaviourOk(behaviour, now, epoch)
      modifies this
      ensures ok ==> Tick(old(Abs()), now, behaviour, epoch) == Done(Abs(), fired)
      ensures !ok ==> Tick(old(Abs()), now, behaviour, epoch) == Panicked(fired)
      ensures ok ==> TickInv(Abs(), now, epoch)
    {
      hide TickInv, BehaviourOk, Insert, Perform, TimeLt, Since;
      TickKnown(Abs(), now, epoch);
      fired := [];
      ghost var whole := Tick(Abs(), now, behaviour, epoch);
      while true
        invariant Known(Abs()) && TickInv(Abs(), now, epoch)
        invariant var r := Tick(Abs(), now, behaviour, epoch); r.(fired := fired + r.fired) == whole
        decreases |Due(timers, queue, now)|
      {
        if queue == [] {
          break;
        }
        var t := queue[0];
        assert t in queue;
        if TimeLt(now, timers[t].scheduled) {
          break;
        }
        ghost var before := Abs();
        TickUnfolds(before, now, behaviour, epoch, fired);
        assert forall u :: u in queue[1..] ==> u in queue && u in timers;
        queue := queue[1..];
        var periodic := timers[t].period > 0;
        ok := RunCallback(behaviour(t));
        fired := fired + [t];
        if !ok {
          return;
        }
        if periodic && t !in queue && timers[t].period > 0 {
          timers := timers[t := Timer(Add(now, timers[t].period), timers[t].period)];
          InsertTimerInQueue(t);
        }
        assert Ran(Abs()) == Fire(before, now, behaviour(t));
      }
      ok := true;
      assert fired + [] == fired;
    }
  }
}
