// lib/cbuf/cbuf.c: a ring of bytes with an event that readers wait on.
module RingBuffer {
  import opened Bits
  import opened Bytes

  /** The queued bytes: from tail up to head, going round the end of the buffer. */
  function Queue(ring: seq<Byte>, head: nat, tail: nat): seq<Byte>
    requires head < |ring| && tail < |ring|
  {
    if tail <= head then ring[tail..head] else ring[tail..] + ring[..head]
  }

  function Queued(n: nat, head: nat, tail: nat): nat
    requires head < n && tail < n
  {
    if tail <= head then head - tail else n - tail + head
  }

  function Advance(n: nat, p: nat, inc: nat): (r: nat)
    requires p + inc <= n
    ensures n > 0 ==> r < n
  {
    if p + inc == n then 0 else p + inc
  }

  lemma WrapAtCapacity(p: nat, inc: nat, k: nat)
    requires p + inc <= Pow2(k)
    ensures And(p + inc, Pow2(k) - 1) == Advance(Pow2(k), p, inc)
  {
    hide And, Pow2;
    LowMask(p + inc, k);
    DivModUnique(p + inc, Pow2(k), if p + inc == Pow2(k) then 1 else 0, Advance(Pow2(k), p, inc));
  }

  /** One memcpy of cbuf_write, into free space that does not go round. */
  lemma WriteQueues(ring: seq<Byte>, head: nat, tail: nat, b: seq<Byte>)
    requires head < |ring| && tail < |ring| && b != []
    requires if head >= tail then head + |b| <= |ring| else head + |b| < tail
    requires !(tail == 0 && head + |b| == |ring|)
    ensures var h := if head + |b| == |ring| then 0 else head + |b|;
      Queue(Splice(ring, head, b), h, tail) == Queue(ring, head, tail) + b
  {
    hide Splice;
    if tail <= head {
      SpliceEnd(ring, head, b, tail);
    } else {
      SpliceEnd(ring, head, b, 0);
      SpliceBehind(ring, head, b, tail);
    }
  }

  lemma SpliceEnd(ring: seq<Byte>, head: nat, b: seq<Byte>, tail: nat)
    requires tail <= head && head + |b| <= |ring|
    ensures Splice(ring, head, b)[tail..head + |b|] == ring[tail..head] + b
  {
  }

  lemma SpliceBehind(ring: seq<Byte>, head: nat, b: seq<Byte>, tail: nat)
    requires head + |b| <= tail <= |ring|
    ensures Splice(ring, head, b)[tail..] == ring[tail..]
  {
  }

  /** One memcpy of cbuf_read. */
  lemma ReadDequeues(ring: seq<Byte>, head: nat, tail: nat, n: nat)
    requires head < |ring| && tail < |ring| && tail + n <= if head > tail then head else |ring|
    requires head != tail
    ensures var t := if tail + n == |ring| then 0 else tail + n;
      ring[tail..tail + n] + Queue(ring, head, t) == Queue(ring, head, tail)
  {
  }

  lemma QueueLength(ring: seq<Byte>, head: nat, tail: nat)
    requires head < |ring| && tail < |ring|
    ensures |Queue(ring, head, tail)| == Queued(|ring|, head, tail)
  {
  }

  lemma QueueEmpty(ring: seq<Byte>, head: nat, tail: nat)
    requires head < |ring| && tail < |ring|
    ensures Queue(ring, head, tail) == [] <==> head == tail
  {
  }

  /** The writes that run over the oldest byte: the read index at the start of the buffer and no room before its end. */
  predicate Overruns(n: nat, head: nat, tail: nat, len: nat) {
    tail == 0 && head + len >= n
  }

  /**
   * How much a write takes.  The space test is exact only as far as being zero goes: it
   * is zero just when the read index is on the last byte and the write index on the first.
   */
  function Accepted(n: nat, head: nat, tail: nat, len: nat): nat
    requires head < n && tail < n
  {
    if tail == n - 1 && head == 0 then 0
    else if tail == n - 1 && head == n - 1 && len > 0 then 1
    else
      var room := n - 1 - Queued(n, head, tail);
      if len < room then len else room
  }

  /** Whatever fits in the ring is taken whole, unless the read index is on the last byte. */
  lemma FittingWriteIsTaken(n: nat, head: nat, tail: nat, len: nat)
    requires head < n && tail < n && Queued(n, head, tail) + len < n
    ensures !Overruns(n, head, tail, len)
    ensures Accepted(n, head, tail, len) == len <==>
            len == 0 || !(tail == n - 1 && (head == 0 || (head == n - 1 && len > 1)))
  {
  }

  /** How long one memcpy of cbuf_write is. */
  function WriteLen(n: nat, head: nat, tail: nat, rem: nat): nat
    requires head < n && tail < n
  {
    var room := if head >= tail then n - head else tail - head - 1;
    if room < rem then room else rem
  }

  lemma AcceptedStep(n: nat, head: nat, tail: nat, rem: nat)
    requires head < n && tail < n && rem < n && !Overruns(n, head, tail, rem)
    ensures rem == 0 || (tail == n - 1 && head == 0) ==> Accepted(n, head, tail, rem) == 0
    ensures rem > 0 && !(tail == n - 1 && head == 0) ==>
      var w := WriteLen(n, head, tail, rem); var h := Advance(n, head, w);
      && !Overruns(n, h, tail, rem - w) && !(tail == 0 && head + w == n)
      && Accepted(n, head, tail, rem) == w + Accepted(n, h, tail, rem - w)
      && (w == 0 ==> Accepted(n, head, tail, rem) == 0)
  {
  }

  /** What has been lost once a write has gone round onto a read index at the start. */
  ghost predicate GoneRound(ring: seq<Byte>, head: nat, h0: nat, data: seq<Byte>, pos: nat)
    requires head < |ring| && h0 < |ring| && pos <= |data|
  {
    if pos == 0 then head == h0
    else |ring| - h0 <= pos && head == pos - (|ring| - h0) && Queue(ring, head, 0) == data[|ring| - h0..pos]
  }

  lemma GoneRoundStep(ring: seq<Byte>, head: nat, h0: nat, data: seq<Byte>, pos: nat)
    requires head < |ring| && h0 < |ring| && pos < |data| < |ring| && GoneRound(ring, head, h0, data, pos)
    requires h0 + |data| >= |ring|
    ensures var w := WriteLen(|ring|, head, 0, |data| - pos);
      w > 0 && GoneRound(Splice(ring, head, data[pos..pos + w]), Advance(|ring|, head, w), h0, data, pos + w)
  {
    var w := WriteLen(|ring|, head, 0, |data| - pos);
    var r := Splice(ring, head, data[pos..pos + w]);
    if pos > 0 {
      assert r[..head + w] == ring[..head] + data[pos..pos + w];
    }
  }

  lemma Extend(was: seq<Byte>, data: seq<Byte>, pos: nat, w: nat)
    requires pos + w <= |data|
    ensures was + data[..pos] + data[pos..pos + w] == was + data[..pos + w]
  {
    assert data[..pos] + data[pos..pos + w] == data[..pos + w];
  }

  lemma TooLong(was: seq<Byte>, got: seq<Byte>, n: nat, b: seq<Byte>)
    requires |got| < n && |was| + |b| >= n
    ensures got != was + b
  {
  }

  lemma GoneRoundEnd(ring: seq<Byte>, head: nat, h0: nat, data: seq<Byte>, pos: nat)
    requires head < |ring| && h0 < |ring| && pos == |data| < |ring| && h0 + |data| >= |ring|
    requires GoneRound(ring, head, h0, data, pos)
    ensures Queue(ring, head, 0) == data[|ring| - h0..]
  {
  }

  /** The length of one memcpy of cbuf_read. */
  function ReadLen(n: nat, head: nat, tail: nat, rem: nat): nat
    requires head < n && tail < n
  {
    var room := if head > tail then head - tail else n - tail;
    if room < rem then room else rem
  }

  /** After one pass the reader is done, has emptied the ring, or has come round to its start. */
  lemma ReadStep(ring: seq<Byte>, head: nat, tail: nat, rem: nat)
    requires head < |ring| && tail < |ring| && head != tail && rem > 0
    ensures var r := ReadLen(|ring|, head, tail, rem); var t := Advance(|ring|, tail, r);
      && 0 < r <= rem && tail + r <= |ring|
      && ring[tail..tail + r] + Queue(ring, head, t) == Queue(ring, head, tail)
      && (r == rem || t == head || (t == 0 && head < tail))
  {
    hide Queue;
    ReadDequeues(ring, head, tail, ReadLen(|ring|, head, tail, rem));
  }

  lemma Rest(was: seq<Byte>, pos: nat, b: seq<Byte>, q: seq<Byte>)
    requires pos <= |was| && b + q == was[pos..]
    ensures was[..pos] + b == was[..pos + |b|] && q == was[pos + |b|..]
  {
    assert was == was[..pos] + (b + q);
  }

  lemma SplicedFront(s: seq<Byte>, b: seq<Byte>)
    requires |b| <= |s|
    ensures Splice(s, 0, b)[..|b|] == b && Splice(s, 0, b)[|b|..] == s[|b|..]
  {
  }

  lemma AdvanceIs(n: nat, p: nat, inc: nat)
    requires p + inc <= n
    ensures Advance(n, p, inc) == if p + inc == n then 0 else p + inc
  {
  }

  lemma OverrunLength(n: nat, head: nat, tail: nat, data: seq<Byte>)
    requires head < n && Overruns(n, head, tail, |data|)
    ensures n - head <= |data| && (data[n - head..] != [] <==> head + |data| > n)
  {
  }

  /** The state of a cbuf_write between two passes: pos bytes of data handled, head0 and was from before it. */
  ghost predicate Writing(ring: seq<Byte>, head: nat, tail: nat, head0: nat, was: seq<Byte>, data: seq<Byte>, pos: nat)
    requires head < |ring| && tail < |ring| && head0 < |ring|
  {
    && pos <= |data| < |ring|
    && if Overruns(|ring|, head0, tail, |data|) then GoneRound(ring, head, head0, data, pos)
       else
         && !Overruns(|ring|, head, tail, |data| - pos)
         && Queue(ring, head, tail) == was + data[..pos]
         && pos + Accepted(|ring|, head, tail, |data| - pos) == Accepted(|ring|, head0, tail, |data|)
  }

  lemma WritePass(ring: seq<Byte>, head: nat, tail: nat, head0: nat, was: seq<Byte>, data: seq<Byte>, pos: nat, w: nat)
    requires head < |ring| && tail < |ring| && head0 < |ring| && Writing(ring, head, tail, head0, was, data, pos)
    requires pos < |data| && !(tail == |ring| - 1 && head == 0)
    requires w == WriteLen(|ring|, head, tail, |data| - pos) > 0
    ensures Writing(Splice(ring, head, data[pos..pos + w]), Advance(|ring|, head, w), tail, head0, was, data, pos + w)
  {
    hide Accepted, Splice, Queue, GoneRound;
    if Overruns(|ring|, head0, tail, |data|) {
      GoneRoundStep(ring, head, head0, data, pos);
    } else {
      AcceptedStep(|ring|, head, tail, |data| - pos);
      WriteQueues(ring, head, tail, data[pos..pos + w]);
      Extend(was, data, pos, w);
    }
  }

  /** What a finished write has done. */
  lemma WriteDone(ring: seq<Byte>, head: nat, tail: nat, head0: nat, was: seq<Byte>, data: seq<Byte>, pos: nat)
    requires head < |ring| && tail < |ring| && head0 < |ring| && Writing(ring, head, tail, head0, was, data, pos)
    requires |was| == Queued(|ring|, head0, tail)
    requires pos == |data| || (tail == |ring| - 1 && head == 0) || WriteLen(|ring|, head, tail, |data| - pos) == 0
    ensures Queue(ring, head, tail) == was + data[..pos] <==> !Overruns(|ring|, head0, tail, |data|)
    ensures !Overruns(|ring|, head0, tail, |data|) ==> pos == Accepted(|ring|, head0, tail, |data|)
    ensures Overruns(|ring|, head0, tail, |data|) ==> pos == |data| && Queue(ring, head, tail) == data[|ring| - head0..]
  {
    hide Accepted, Queue, GoneRound;
    QueueLength(ring, head, tail);
    if Overruns(|ring|, head0, tail, |data|) {
      if pos < |data| {
        GoneRoundStep(ring, head, head0, data, pos);
      }
      GoneRoundEnd(ring, head, head0, data, pos);
      TooLong(was, Queue(ring, head, tail), |ring|, data);
      assert data[..pos] == data;
    } else {
      AcceptedStep(|ring|, head, tail, |data| - pos);
    }
  }

  lemma WriteStart(ring: seq<Byte>, head: nat, tail: nat, data: seq<Byte>)
    requires head < |ring| && tail < |ring| && |data| < |ring|
    ensures Writing(ring, head, tail, head, Queue(ring, head, tail), data, 0)
  {
  }

  /** The state of a cbuf_read between two passes: the first pos of the bytes that were queued are out. */
  ghost predicate Reading(ring: seq<Byte>, head: nat, tail: nat, was: seq<Byte>, got: seq<Byte>, had: seq<Byte>,
                          pos: nat)
    requires head < |ring| && tail < |ring|
  {
    && pos <= |was| && pos <= |had|
    && got == Splice(had, 0, was[..pos]) && Queue(ring, head, tail) == was[pos..]
  }

  lemma ReadPass(ring: seq<Byte>, head: nat, tail: nat, was: seq<Byte>, got: seq<Byte>, had: seq<Byte>, pos: nat,
                 r: nat, rem: nat)
    requires head < |ring| && tail < |ring| && head != tail && Reading(ring, head, tail, was, got, had, pos)
    requires rem > 0 && pos + rem <= |had| && r == ReadLen(|ring|, head, tail, rem)
    ensures 0 < r <= rem && tail + r <= |ring|
    ensures Reading(ring, head, Advance(|ring|, tail, r), was, Splice(got, pos, ring[tail..tail + r]), had, pos + r)
    ensures var t := Advance(|ring|, tail, r); r == rem || t == head || (t == 0 && head < tail)
  {
    hide Queue, Splice, ReadLen, Advance;
    ReadStep(ring, head, tail, rem);
    AdvanceIs(|ring|, tail, r);
    var b := ring[tail..tail + r];
    Rest(was, pos, b, Queue(ring, head, Advance(|ring|, tail, r)));
    SpliceTwice(had, 0, was[..pos], b);
  }

  lemma Regroup(a: seq<Byte>, b: seq<Byte>, c: seq<Byte>)
    ensures a + (b + c) == (a + b) + c
  {
  }

  lemma ReadStart(ring: seq<Byte>, head: nat, tail: nat, had: seq<Byte>)
    requires head < |ring| && tail < |ring|
    ensures Reading(ring, head, tail, Queue(ring, head, tail), had, had, 0)
  {
    var was := Queue(ring, head, tail);
    assert was[..0] == [] && was[0..] == was;
    assert had == Splice(had, 0, []);
  }

  lemma ReadDone(ring: seq<Byte>, head: nat, tail: nat, was: seq<Byte>, got: seq<Byte>, had: seq<Byte>, pos: nat,
                 buflen: nat)
    requires head < |ring| && tail < |ring| && Reading(ring, head, tail, was, got, had, pos)
    requires pos <= buflen && (pos == buflen || tail == head)
    ensures pos == if buflen < |was| then buflen else |was|
    ensures got[..pos] == was[..pos] && got[pos..] == had[pos..] && Queue(ring, head, tail) == was[pos..]
    ensures was == got[..pos] + Queue(ring, head, tail)
  {
    QueueLength(ring, head, tail);
    SplicedFront(had, was[..pos]);
  }

  class Cbuf {
    const lenPow2: nat
    const ring: array<Byte>
    var head: nat
    var tail: nat
    var signaled: bool // the event, which is not auto-unsignal
    ghost var accepted: seq<Byte> // everything cbuf_write has reported as written
    ghost var delivered: seq<Byte> // everything cbuf_read has handed out

    ghost predicate Valid()
      reads this, ring
    {
      ring.Length == Pow2(lenPow2) && head < ring.Length && tail < ring.Length
    }

    ghost function Contents(): seq<Byte>
      reads this, ring
      requires Valid()
    {
      Queue(ring[..], head, tail)
    }

    /** Readers are held back exactly while there is nothing to read. */
    ghost predicate EventExact()
      reads this, ring
      requires Valid()
    {
      signaled <==> Contents() != []
    }

    /** Every accepted byte has been delivered, once and in order, or is still queued. */
    ghost predicate Fifo()
      reads this, ring
      requires Valid()
    {
      accepted == delivered + Contents()
    }

    /** cbuf_initialize. */
    constructor (len: nat, k: nat)
      requires len == Pow2(k)
      ensures Valid() && Contents() == [] && EventExact() && Fifo() && ring.Length == len && fresh(ring)
    {
      accepted, delivered := [], [];
      lenPow2 := k;
      ring := new Byte[len](_ => 0);
      head, tail, signaled := 0, 0, false;
    }

    method SpaceAvail() returns (r: nat)
      requires Valid()
      ensures r == head + ring.Length - tail - 1
      ensures r == 0 <==> tail == ring.Length - 1 && head == 0
    {
      r := head + ring.Length - tail - 1;
    }

    /** INC_POINTER: the mask of modpow2 takes an index at the capacity back to the start. */
    method IncPointer(p: nat, inc: nat) returns (r: nat)
      requires Valid() && p + inc <= ring.Length
      ensures r == Advance(ring.Length, p, inc)
    {
      hide And, Pow2;
      WrapAtCapacity(p, inc, lenPow2);
      r := And(p + inc, Pow2(lenPow2) - 1);
    }

    /** cbuf_write. */
    method Write(data: seq<Byte>) returns (pos: nat)
      requires Valid() && |data| < ring.Length
      modifies this`head, this`signaled, this`accepted, ring
      ensures Valid() && pos <= |data|
      ensures Contents() == old(Contents()) + data[..pos] <==> !Overruns(ring.Length, old(head), tail, |data|)
      ensures !Overruns(ring.Length, old(head), tail, |data|) ==>
        && pos == Accepted(ring.Length, old(head), tail, |data|)
        && (old(EventExact()) ==> EventExact()) && (old(Fifo()) ==> Fifo())
      ensures accepted == old(accepted) + data[..pos]
      ensures Overruns(ring.Length, old(head), tail, |data|) ==>
        && pos == |data| && Contents() == data[ring.Length - old(head)..]
        && (EventExact() <==> old(head) + |data| > ring.Length || !old(signaled))
    {
      hide And, Pow2, Accepted, Queue, Queued, Splice, Writing, Overruns, Advance;
      var n := ring.Length;
      var len := |data|;
      ghost var was := Contents();
      ghost var head0 := head;
      QueueLength(ring[..], head, tail);
      pos := 0;
      WriteStart(ring[..], head, tail, data);
      var avail := SpaceAvail();
      while pos < len && avail > 0
        invariant Valid() && pos <= len && avail == head + n - tail - 1 && signaled == old(signaled)
        invariant accepted == old(accepted) && Writing(ring[..], head, tail, head0, was, data, pos)
        decreases len - pos
      {
        var writeLen;
        if head >= tail {
          writeLen := if n - head < len - pos then n - head else len - pos;
        } else {
          writeLen := if tail - head - 1 < len - pos then tail - head - 1 else len - pos;
        }
        if writeLen == 0 {
          break;
        }
        WritePass(ring[..], head, tail, head0, was, data, pos, writeLen);
        Memcpy(ring, head, data[pos..pos + writeLen]);
        head := IncPointer(head, writeLen);
        pos := pos + writeLen;
        avail := SpaceAvail();
      }
      WriteDone(ring[..], head, tail, head0, was, data, pos);
      Regroup(delivered, was, data[..pos]);
      accepted := accepted + data[..pos];
      if head != tail {
        signaled := true;
      }
      QueueEmpty(ring[..], head, tail);
      if Overruns(n, head0, tail, len) {
        OverrunLength(n, head0, tail, data);
      }
    }

    /**
     * cbuf_read into buf, in at most two passes; a blocking read gets here once the event
     * lets it through, and finds nothing when another reader was faster.
     */
    method Read(buf: array<Byte>, buflen: nat, block: bool) returns (ret: nat)
      requires Valid() && buflen <= buf.Length && buf != ring
      modifies this`tail, this`signaled, this`delivered, buf
      ensures Valid() && ret == if buflen < |old(Contents())| then buflen else |old(Contents())|
      ensures buf[..ret] == old(Contents())[..ret] && Contents() == old(Contents())[ret..]
      ensures buf[ret..] == old(buf[ret..])
      ensures old(EventExact()) ==> EventExact()
      ensures old(Fifo()) ==> Fifo()
      ensures delivered == old(delivered) + buf[..ret]
    {
      hide And, Pow2, Queue, Queued, Splice, Reading, Advance;
      QueueEmpty(ring[..], head, tail);
      ghost var was := Contents();
      ghost var had := buf[..];
      var n := ring.Length;
      ReadStart(ring[..], head, tail, had);
      ret := 0;
      if tail != head {
        var pos := 0;
        ghost var passes := 0;
        while pos < buflen && tail != head
          invariant Valid() && 0 <= pos <= buflen && signaled == old(signaled)
          invariant delivered == old(delivered) && Reading(ring[..], head, tail, was, buf[..], had, pos)
          invariant passes <= 2 && (passes == 1 ==> pos == buflen || tail <= head)
          invariant passes == 2 ==> pos == buflen || tail == head
          decreases buflen - pos
        {
          var readLen;
          if head > tail {
            readLen := if head - tail < buflen - pos then head - tail else buflen - pos;
          } else {
            readLen := if n - tail < buflen - pos then n - tail else buflen - pos;
          }
          ReadPass(ring[..], head, tail, was, buf[..], had, pos, readLen, buflen - pos);
          Memcpy(buf, pos, ring[tail..tail + readLen]);
          tail := IncPointer(tail, readLen);
          pos := pos + readLen;
          passes := passes + 1;
        }
        if tail == head {
          signaled := false;
        }
        ret := pos;
      }
      ReadDone(ring[..], head, tail, was, buf[..], had, ret, buflen);
      Regroup(delivered, buf[..ret], Contents());
      delivered := delivered + buf[..ret];
      QueueEmpty(ring[..], head, tail);
    }
  }
}
