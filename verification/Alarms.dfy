// kernel/timer.c from the caller's side: what a delay or a period means for when the callback runs.
module Alarms {
  import opened Basics
  import opened Timer

  // ------------------------------------------------------------- setting and cancelling

  /** A delay of nothing counts as one tick of the clock. */
  function AtLeastOne(d: nat): (r: nat)
    ensures r >= 1 && r >= d && (r == d || (d == 0 && r == 1))
  {
    if d == 0 then 1 else d
  }

  /** The timer as set: due the delay from now on the wrapping clock, and periodic only if so asked. */
  lemma SetSchedules(s: State, a: Action)
    requires Known(s) && !a.Cancel?
    ensures var r := Arm(s, a);
      && a.t in r.queue && a.t in r.timers
      && (a.SetOneshot? ==> r.timers[a.t] == Timer((a.at + AtLeastOne(a.delay)) % U32, 0))
      && (a.SetPeriodic? ==> r.timers[a.t] == Timer((a.at + AtLeastOne(a.period)) % U32, AtLeastOne(a.period)))
      && (forall u :: u != a.t ==>
            (u in r.queue <==> u in s.queue) && (u in r.timers <==> u in s.timers)
            && (u in s.timers ==> r.timers[u] == s.timers[u]))
  {
    InsertMembers(Arm(s, a).timers, s.queue, a.t);
  }

  /** A cancelled timer is off the queue and will not be queued again by itself; the others stay as they are. */
  lemma CancelClears(s: State, t: Id)
    requires Known(s) && Distinct(s.queue)
    ensures var r := Disarm(s, t);
      && t !in r.queue && (t in r.timers ==> r.timers[t].period == 0)
      && r.timers.Keys == s.timers.Keys
      && (forall u :: u != t ==> (u in r.queue <==> u in s.queue) && (u in s.timers ==> r.timers[u] == s.timers[u]))
  {
    RemoveMembers(s.queue, t);
  }

  /** Calls one after the other. */
  lemma {:induction false} PerformBoth(s: State, a: seq<Action>, b: seq<Action>)
    requires Known(s)
    ensures var p := Perform(s, a); Perform(s, a + b) == if p.Ran? then Perform(p.s, b) else Panic
    decreases |a|
  {
    if a == [] {
      assert [] + b == b;
    } else {
      assert (a + b)[0] == a[0] && (a + b)[1..] == a[1..] + b;
      if a[0].Cancel? {
        RemoveMembers(s.queue, a[0].t);
        PerformBoth(Disarm(s, a[0].t), a[1..], b);
      } else if a[0].t in s.queue {
      } else {
        ArmKnown(s, a[0]);
        PerformBoth(Arm(s, a[0]), a[1..], b);
      }
    }
  }

  lemma PerformOne(s: State, a: Action)
    requires Known(s)
    ensures a.Cancel? ==> Perform(s, [a]) == Ran(Disarm(s, a.t))
    ensures !a.Cancel? ==> Perform(s, [a]) == if a.t in s.queue then Panic else Ran(Arm(s, a))
  {
    assert [a][1..] == [];
    if a.Cancel? {
      RemoveMembers(s.queue, a.t);
    } else if a.t !in s.queue {
      ArmKnown(s, a);
    }
  }

  // ------------------------------------------------------------- the ticks in which a timer fires

  /** What is left to wait, if anything, and the period. */
  datatype Pending = Pending(wait: Option<int>, period: int)

  const NEVER := Pending(None, 0)

  /**
   * In which ticks a timer fires: in the first that ends the wait, and if it is periodic
   * again in the first that comes a period after that, and so on.
   */
  function Schedule(last: Time, beats: seq<Beat>, p: Pending): (r: seq<bool>)
    ensures |r| == |beats|
    decreases |beats|
  {
    if beats == [] then []
    else
      var now := beats[0].now;
      if p.wait.None? then [false] + Schedule(now, beats[1..], NEVER)
      else if p.wait.value <= Since(now, last) then
        [true] + Schedule(now, beats[1..], if p.period > 0 then p.(wait := Some(p.period)) else NEVER)
      else [false] + Schedule(now, beats[1..], p.(wait := Some(p.wait.value - Since(now, last))))
  }

  /** A timer that is not periodic fires just once, when its wait is over. */
  lemma {:induction false} FiresOnce(last: Time, beats: seq<Beat>, p: Pending)
    requires p.period <= 0
    ensures forall j :: 0 <= j < |beats| ==>
      (Schedule(last, beats, p)[j] <==> p.wait.Some? && j == TicksBefore(last, beats, p.wait.value))
    decreases |beats|
  {
    hide Since;
    if beats == [] {
    } else {
      var now := beats[0].now;
      if p.wait.None? || p.wait.value <= Since(now, last) {
        FiresOnce(now, beats[1..], NEVER);
      } else {
        FiresOnce(now, beats[1..], p.(wait := Some(p.wait.value - Since(now, last))));
      }
    }
  }

  function PendingOf(s: State, t: Id, last: Time): Pending
    requires Known(s)
  {
    if t in s.queue then Pending(Some(Deadline(s, t, last)), s.timers[t].period) else NEVER
  }

  /** Nobody names the timer, not even its own callback. */
  ghost predicate Untouched(b: Beat, t: Id) {
    && (forall i :: 0 <= i < |b.calls| ==> b.calls[i].t != t)
    && (forall u, i :: 0 <= i < |b.behaviour(u)| ==> b.behaviour(u)[i].t != t)
  }

  /** One tick of a run, and what is left to wait for after it. */
  lemma BeatFires(s: State, last: Time, b: Beat, t: Id)
    requires TickInv(s, last, last) && BeatOk(s, last, b) && Untouched(b, t)
    ensures Known(s) && Known(Beaten(s, last, b).s)
    ensures var r := Beaten(s, last, b); var p := PendingOf(s, t, last);
      && (t in r.fired <==> p.wait.Some? && p.wait.value <= Since(b.now, last))
      && (p.wait.None? ==> PendingOf(r.s, t, b.now) == NEVER)
      && (p.wait.Some? && p.wait.value > Since(b.now, last) ==>
            PendingOf(r.s, t, b.now) == Pending(Some(p.wait.value - Since(b.now, last)), p.period))
      && (p.wait.Some? && p.wait.value <= Since(b.now, last) ==>
            PendingOf(r.s, t, b.now) == if p.period > 0 then Pending(Some(p.period), p.period) else NEVER)
  {
    hide Since, Distinct, Sorted;
    PerformLeaves(s, b.calls, t);
    var p := Perform(s, b.calls).s;
    var r := Tick(p, b.now, b.behaviour, last);
    var due := Due(p.timers, p.queue, b.now);
    TickFiresTheDue(p, b.now, b.behaviour, last);
    DueIsAllDue(p.timers, p.queue, b.now, last);
    TickOnUnnamed(p, b.now, b.behaviour, last, t);
    WindowMoves(r.s, b.now, last);
    if t in due {
      ExpectedHas(due, b.behaviour, t);
      if s.timers[t].period > 0 {
        OnePeriodOn(b.now, s.timers[t].period);
      }
    } else {
      ExpectedIn(due, b.behaviour, t);
    }
  }

  lemma OnePeriodOn(now: Time, p: Time)
    ensures Since(Add(now, p), now) == p
  {
    Reduce(now + p);
    SinceIs(Add(now, p), now);
  }

  /** A timer that nobody names from here on fires in just the ticks of its schedule, across any number of wraps. */
  lemma {:induction false} FiresAsScheduled(s: State, last: Time, beats: seq<Beat>, t: Id)
    requires TickInv(s, last, last) && RunOk(s, last, beats) && forall b :: b in beats ==> Untouched(b, t)
    ensures Known(s)
    ensures forall j :: 0 <= j < |beats| ==>
      (t in Firings(s, last, beats)[j] <==> Schedule(last, beats, PendingOf(s, t, last))[j])
    decreases |beats|
  {
    hide Untouched, TickInv, BeatOk, Firings, Since, Deadline, Beaten, PendingOf;
    TickKnown(s, last, last);
    if beats == [] {
    } else {
      var b := beats[0];
      assert b in beats && forall c :: c in beats[1..] ==> c in beats;
      BeatFires(s, last, b, t);
      FiringsUnfold(s, last, beats);
      var r := Beaten(s, last, b);
      FiresAsScheduled(r.s, b.now, beats[1..], t);
      var f, c := Firings(r.s, b.now, beats[1..]), Schedule(b.now, beats[1..], PendingOf(r.s, t, b.now));
      var p := PendingOf(s, t, last);
      assert Schedule(last, beats, p) == [p.wait.Some? && p.wait.value <= Since(b.now, last)] + c;
      forall j | 0 <= j < |beats|
        ensures t in Firings(s, last, beats)[j] <==> Schedule(last, beats, p)[j]
      {
        if j > 0 {
          assert Firings(s, last, beats)[j] == f[j - 1] && Schedule(last, beats, p)[j] == c[j - 1];
        }
      }
    }
  }

  // ------------------------------------------------------------- from the call that sets it

  /** The state in which the last call that names t is made, and the beat with what comes after it. */
  lemma CallsSplit(s: State, last: Time, b: Beat, before: seq<Action>, x: Action, after: seq<Action>)
    requires TickInv(s, last, last) && BeatOk(s, last, b) && b.calls == before + [x] + after
    ensures Known(s) && Perform(s, before).Ran? && TickInv(Perform(s, before).s, last, last)
    ensures var p := Perform(s, before).s; Perform(p, [x]).Ran? && TickInv(Perform(p, [x]).s, last, last)
    ensures var p := Perform(s, before).s; var q := Perform(p, [x]).s;
      Perform(q, after) == Perform(s, b.calls) && ActionOk(x, last, last)
  {
    hide TickInv, ActionOk, Since, Distinct, Sorted;
    TickKnown(s, last, last);
    assert b.calls == before + ([x] + after);
    PerformBoth(s, before, [x] + after);
    assert forall i :: 0 <= i < |before| ==> before[i] == b.calls[i];
    assert b.calls[|before|] == x;
    PerformKeeps(s, before, last, last);
    var p := Perform(s, before).s;
    PerformBoth(p, [x], after);
    PerformKeeps(p, [x], last, last);
  }

  /** The beat as it goes on after the call x: as if it began there. */
  lemma BeatAfter(s: State, last: Time, b: Beat, before: seq<Action>, x: Action, after: seq<Action>, rest: seq<Beat>)
    returns (q: State)
    requires TickInv(s, last, last) && b.calls == before + [x] + after && RunOk(s, last, [b] + rest)
    ensures Known(s) && Perform(s, before).Ran? && Perform(Perform(s, before).s, [x]) == Ran(q)
    ensures TickInv(Perform(s, before).s, last, last) && TickInv(q, last, last) && ActionOk(x, last, last)
    ensures RunOk(q, last, [b.(calls := after)] + rest)
    ensures Firings(q, last, [b.(calls := after)] + rest) == Firings(s, last, [b] + rest)
  {
    hide TickInv, ActionOk, Since, Perform, Tick, BehaviourOk;
    var c := b.(calls := after);
    assert ([b] + rest)[0] == b && ([b] + rest)[1..] == rest;
    assert ([c] + rest)[0] == c && ([c] + rest)[1..] == rest;
    CallsSplit(s, last, b, before, x, after);
    q := Perform(Perform(s, before).s, [x]).s;
    AfterOk(b.calls, before + [x], after, last);
    TickKnown(q, last, last);
    assert BeatOk(q, last, c) && Beaten(q, last, c) == Beaten(s, last, b);
  }

  lemma AfterOk(calls: seq<Action>, before: seq<Action>, after: seq<Action>, last: Time)
    requires calls == before + after && forall i :: 0 <= i < |calls| ==> ActionOk(calls[i], last, last)
    ensures forall i :: 0 <= i < |after| ==> ActionOk(after[i], last, last)
  {
    forall i | 0 <= i < |after|
      ensures ActionOk(after[i], last, last)
    {
      assert after[i] == calls[|before| + i];
    }
  }

  /** Nobody names the timer after the call that does, in that beat and in the ones that follow. */
  ghost predicate LeftAlone(b: Beat, after: seq<Action>, rest: seq<Beat>, t: Id) {
    Untouched(b.(calls := after), t) && forall c :: c in rest ==> Untouched(c, t)
  }

  /**
   * Once set for the last time, a timer fires in just the ticks of its schedule: the first
   * that comes its delay or period after it was set, and then, if it is periodic, always
   * the first that comes its period after the one before.
   */
  lemma SetFiresAsScheduled(s: State, last: Time, b: Beat, before: seq<Action>, a: Action, after: seq<Action>,
                            rest: seq<Beat>)
    requires TickInv(s, last, last) && !a.Cancel? && b.calls == before + [a] + after && RunOk(s, last, [b] + rest)
    requires LeftAlone(b, after, rest, a.t)
    ensures var d := AtLeastOne(if a.SetOneshot? then a.delay else a.period);
      var p := Pending(Some(Since(a.at, last) + d), if a.SetOneshot? then 0 else d);
      forall j :: 0 <= j <= |rest| ==> (a.t in Firings(s, last, [b] + rest)[j] <==> Schedule(last, [b] + rest, p)[j])
  {
    hide TickInv, RunOk, Firings, Schedule, Since, Perform, Arm, Untouched;
    var q := BeatAfter(s, last, b, before, a, after, rest);
    var p0 := Perform(s, before).s;
    TickKnown(p0, last, last);
    TickKnown(q, last, last);
    PerformOne(p0, a);
    SetSchedules(p0, a);
    var d := AtLeastOne(if a.SetOneshot? then a.delay else a.period);
    SinceAdd(a.at, d, last);
    var c := b.(calls := after);
    assert forall x :: x in [c] + rest ==> Untouched(x, a.t);
    FiresAsScheduled(q, last, [c] + rest, a.t);
    SameTimes(last, b, c, rest, PendingOf(q, a.t, last));
  }

  /** The schedule depends on the times of the ticks alone. */
  lemma SameTimes(last: Time, b: Beat, c: Beat, rest: seq<Beat>, p: Pending)
    requires b.now == c.now
    ensures Schedule(last, [b] + rest, p) == Schedule(last, [c] + rest, p)
  {
    assert ([b] + rest)[1..] == rest && ([c] + rest)[1..] == rest;
  }

  /** A one-shot timer fires exactly once: in the first tick that comes its delay after it was set. */
  lemma OneshotFiresOnce(s: State, last: Time, b: Beat, before: seq<Action>, t: Id, at: Time, delay: Time,
                         after: seq<Action>, rest: seq<Beat>)
    requires b.calls == before + [SetOneshot(t, at, delay)] + after
    requires TickInv(s, last, last) && RunOk(s, last, [b] + rest)
    requires LeftAlone(b, after, rest, t)
    ensures forall j :: 0 <= j <= |rest| ==>
      (t in Firings(s, last, [b] + rest)[j] <==>
       j == TicksBefore(last, [b] + rest, Since(at, last) + AtLeastOne(delay)))
  {
    hide TickInv, RunOk, Firings, Schedule, Since, TicksBefore, LeftAlone;
    var a := SetOneshot(t, at, delay);
    SetFiresAsScheduled(s, last, b, before, a, after, rest);
    FiresOnce(last, [b] + rest, Pending(Some(Since(at, last) + AtLeastOne(delay)), 0));
  }

  /** A cancelled timer does not fire, whatever it was. */
  lemma CancelledNeverFires(s: State, last: Time, b: Beat, before: seq<Action>, t: Id, after: seq<Action>,
                            rest: seq<Beat>)
    requires TickInv(s, last, last) && b.calls == before + [Cancel(t)] + after && RunOk(s, last, [b] + rest)
    requires LeftAlone(b, after, rest, t)
    ensures forall j :: 0 <= j <= |rest| ==> t !in Firings(s, last, [b] + rest)[j]
  {
    hide TickInv, RunOk, Firings, Schedule, Since, Perform, Disarm, Untouched;
    var q := BeatAfter(s, last, b, before, Cancel(t), after, rest);
    var p0 := Perform(s, before).s;
    InvDistinct(p0, last);
    TickKnown(q, last, last);
    PerformOne(p0, Cancel(t));
    CancelClears(p0, t);
    var c := b.(calls := after);
    assert forall x :: x in [c] + rest ==> Untouched(x, t);
    FiresAsScheduled(q, last, [c] + rest, t);
    FiresOnce(last, [c] + rest, NEVER);
  }

  lemma InvDistinct(s: State, last: Time)
    requires TickInv(s, last, last)
    ensures Known(s) && Distinct(s.queue)
  {
  }

  /** A periodic timer that its own callback cancels is not queued again. */
  lemma CancelInCallback(s: State, now: Time, before: seq<Action>, after: seq<Action>, epoch: Time)
    requires TickInv(s, now, epoch) && s.queue != []
    requires forall i :: 0 <= i < |after| ==> after[i].t != s.queue[0]
    ensures Known(s)
    ensures var t := s.queue[0]; var r := Fire(s, now, before + [Cancel(t)] + after);
      r.Ran? ==> t !in r.s.queue && t in r.s.timers && r.s.timers[t].period == 0
  {
    hide Since, Sorted, Deadline;
    var t := s.queue[0];
    assert t in s.queue;
    var s1 := s.(queue := s.queue[1..]);
    assert forall u :: u in s1.queue ==> u in s.queue;
    var acts := before + [Cancel(t)] + after;
    assert acts == before + ([Cancel(t)] + after);
    PerformBoth(s1, before, [Cancel(t)] + after);
    var p := Perform(s1, before);
    if p.Ran? {
      PerformBoth(p.s, [Cancel(t)], after);
      PerformOne(p.s, Cancel(t));
      OffQueue(p.s.queue, t, s1, before);
      PerformLeaves(Disarm(p.s, t), after, t);
    }
  }

  lemma {:induction false} PerformDistinct(s: State, acts: seq<Action>)
    requires Known(s) && Distinct(s.queue)
    ensures Perform(s, acts).Ran? ==> Distinct(Perform(s, acts).s.queue)
    decreases |acts|
  {
    if acts == [] {
    } else {
      var a := acts[0];
      RemoveMembers(s.queue, a.t);
      if a.Cancel? {
        PerformDistinct(Disarm(s, a.t), acts[1..]);
      } else if a.t !in s.queue {
        ArmKnown(s, a);
        InsertMembers(Arm(s, a).timers, s.queue, a.t);
        PerformDistinct(Arm(s, a), acts[1..]);
      }
    }
  }

  lemma OffQueue(q: seq<Id>, t: Id, s: State, acts: seq<Action>)
    requires Known(s) && Distinct(s.queue) && Perform(s, acts).Ran? && q == Perform(s, acts).s.queue
    ensures t !in Remove(q, t)
  {
    PerformDistinct(s, acts);
    RemoveMembers(q, t);
  }
}
