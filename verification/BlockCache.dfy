// lib/bcache/bcache.c: a write-back LRU cache of device blocks.
module BlockCache {
  import opened Bytes
  import opened Basics

  type Block = seq<Byte>

  /** struct bcache_block. */
  datatype Entry = Entry(blocknum: int, refCount: int, dirty: bool, data: Block)

  // ------------------------------------------------------------- the view through the cache

  predicate Indices(entries: seq<Entry>, l: seq<int>) {
    forall i :: i in l ==> 0 <= i < |entries|
  }

  /** Position of block b in the LRU list, or its length. */
  function Slot(entries: seq<Entry>, lru: seq<int>, b: int): (k: nat)
    requires Indices(entries, lru)
    ensures k <= |lru|
    ensures k < |lru| ==> lru[k] in lru && entries[lru[k]].blocknum == b
    ensures forall j :: 0 <= j < k ==> lru[j] in lru && entries[lru[j]].blocknum != b
  {
    if lru == [] then 0
    else
      assert lru[0] in lru;
      assert forall i :: i in lru[1..] ==> i in lru;
      if entries[lru[0]].blocknum == b then 0 else 1 + Slot(entries, lru[1..], b)
  }

  predicate Cached(entries: seq<Entry>, lru: seq<int>, b: int)
    requires Indices(entries, lru)
  {
    exists i :: i in lru && entries[i].blocknum == b
  }

  /** What a reader sees in block b: the cached buffer if there is one, else the device. */
  function Seen(disk: seq<Block>, entries: seq<Entry>, lru: seq<int>, b: int): Block
    requires Indices(entries, lru) && 0 <= b < |disk|
  {
    var k := Slot(entries, lru, b);
    if k < |lru| then entries[lru[k]].data else disk[b]
  }

  /** Block numbers on the LRU list are distinct. */
  ghost predicate UniqueBlocks(entries: seq<Entry>, lru: seq<int>)
    requires Indices(entries, lru)
  {
    forall i, j :: i in lru && j in lru && entries[i].blocknum == entries[j].blocknum ==> i == j
  }

  lemma SlotOf(entries: seq<Entry>, lru: seq<int>, b: int)
    requires Indices(entries, lru)
    ensures Slot(entries, lru, b) < |lru| <==> Cached(entries, lru, b)
  {
    var k := Slot(entries, lru, b);
    if k < |lru| {
      assert lru[k] in lru;
    }
  }

  lemma SeenCached(disk: seq<Block>, entries: seq<Entry>, lru: seq<int>, i: int)
    requires Indices(entries, lru) && UniqueBlocks(entries, lru) && i in lru && 0 <= entries[i].blocknum < |disk|
    ensures Seen(disk, entries, lru, entries[i].blocknum) == entries[i].data
  {
    var b := entries[i].blocknum;
    SlotOf(entries, lru, b);
    var k := Slot(entries, lru, b);
    assert lru[k] in lru;
  }

  lemma SeenOnDisk(disk: seq<Block>, entries: seq<Entry>, lru: seq<int>, b: int)
    requires Indices(entries, lru) && 0 <= b < |disk| && !Cached(entries, lru, b)
    ensures Seen(disk, entries, lru, b) == disk[b]
  {
    SlotOf(entries, lru, b);
  }

  ghost function View(disk: seq<Block>, entries: seq<Entry>, lru: seq<int>): (v: seq<Block>)
    requires Indices(entries, lru)
    ensures |v| == |disk| && forall b :: 0 <= b < |v| ==> v[b] == Seen(disk, entries, lru, b)
  {
    seq(|disk|, b requires 0 <= b < |disk| => Seen(disk, entries, lru, b))
  }

  // ------------------------------------------------------------- LRU order

  /** Block numbers in LRU order, least recently used first. */
  function Order(entries: seq<Entry>, lru: seq<int>): (r: seq<int>)
    requires Indices(entries, lru)
    ensures |r| == |lru|
    ensures forall k :: 0 <= k < |r| ==> lru[k] in lru && r[k] == entries[lru[k]].blocknum
  {
    seq(|lru|, k requires 0 <= k < |lru| => (assert lru[k] in lru; entries[lru[k]].blocknum))
  }

  function PositionOf(l: seq<int>, b: int): (k: nat)
    ensures k <= |l| && (k < |l| ==> l[k] == b)
    ensures forall j :: 0 <= j < k ==> l[j] != b
  {
    if l == [] || l[0] == b then 0 else 1 + PositionOf(l[1..], b)
  }

  /** First block of the order that is not pinned. */
  function Victim(order: seq<int>, pinned: set<int>): (k: nat)
    ensures k <= |order| && (k < |order| ==> order[k] !in pinned)
    ensures forall j :: 0 <= j < k ==> order[j] in pinned
  {
    if order == [] || order[0] !in pinned then 0 else 1 + Victim(order[1..], pinned)
  }

  /** The order after an access to b, in a cache of the given capacity with these blocks pinned. */
  function Access(order: seq<int>, pinned: set<int>, capacity: nat, b: int): seq<int> {
    var k := PositionOf(order, b);
    if k < |order| then RemoveAt(order, k) + [b]
    else if |order| < capacity then order + [b]
    else
      var v := Victim(order, pinned);
      if v < |order| then RemoveAt(order, v) + [b] else order
  }

  /** Distinct blocks of a run of accesses, least recently accessed first. */
  function Recency(log: seq<int>): seq<int> {
    if log == [] then []
    else
      var r := Recency(log[..|log|-1]);
      var b := log[|log|-1];
      var k := PositionOf(r, b);
      (if k < |r| then RemoveAt(r, k) else r) + [b]
  }

  /** An access, and the blocks clients held at the time. */
  datatype Use = Use(block: int, pinned: set<int>)

  function Blocks(log: seq<Use>): (r: seq<int>)
    ensures |r| == |log| && forall k :: 0 <= k < |r| ==> r[k] == log[k].block
  {
    seq(|log|, k requires 0 <= k < |log| => log[k].block)
  }

  /** The order after a run of accesses, from an empty cache. */
  function RunUses(capacity: nat, log: seq<Use>): seq<int> {
    if log == [] then []
    else
      var u := log[|log|-1];
      Access(RunUses(capacity, log[..|log|-1]), u.pinned, capacity, u.block)
  }

  /** An access that evicts nothing, or evicts the least recently used block. */
  predicate TakesOldest(order: seq<int>, u: Use, capacity: nat) {
    PositionOf(order, u.block) < |order| || |order| < capacity || Victim(order, u.pinned) == 0
  }

  predicate AlwaysOldest(capacity: nat, log: seq<Use>) {
    log == [] || (
      var past := log[..|log|-1];
      AlwaysOldest(capacity, past) && TakesOldest(RunUses(capacity, past), log[|log|-1], capacity))
  }

  function Last<T>(s: seq<T>, n: nat): seq<T> {
    if n >= |s| then s else s[|s|-n..]
  }

  lemma {:induction false} PositionUnique(l: seq<int>, b: int, k: nat)
    requires k < |l| && l[k] == b && forall j :: 0 <= j < k ==> l[j] != b
    ensures PositionOf(l, b) == k
  {
    if k == 0 {
    } else {
      PositionUnique(l[1..], b, k - 1);
    }
  }

  lemma {:induction false} RecencyDistinct(log: seq<int>)
    ensures Distinct(Recency(log))
  {
    if log == [] {
    } else {
      RecencyDistinct(log[..|log|-1]);
    }
  }

  predicate HoldsMostRecent(capacity: nat, log: seq<Use>) {
    RunUses(capacity, log) == Last(Recency(Blocks(log)), capacity)
  }

  predicate AlwaysMostRecent(capacity: nat, log: seq<Use>) {
    HoldsMostRecent(capacity, log) && (log == [] || AlwaysMostRecent(capacity, log[..|log|-1]))
  }

  /**
   * At every point of a run the cache holds exactly the min(capacity, n) most recently
   * accessed distinct blocks, in the order they were last accessed, if and only if no
   * eviction found the oldest block pinned.
   */
  lemma {:induction false} CacheHoldsMostRecent(capacity: nat, log: seq<Use>)
    requires capacity > 0
    ensures AlwaysMostRecent(capacity, log) <==> AlwaysOldest(capacity, log)
  {
    hide Access, Recency, Last, TakesOldest;
    if log == [] {
      NothingRecent(capacity);
    } else {
      var past, u := log[..|log|-1], log[|log|-1];
      CacheHoldsMostRecent(capacity, past);
      if AlwaysOldest(capacity, past) {
        BlocksSplit(past, u);
        assert past + [u] == log;
        RecencyDistinct(Blocks(past));
        MostRecentStep(capacity, Blocks(past), RunUses(capacity, past), u);
      }
    }
  }

  lemma NothingRecent(capacity: nat)
    ensures Last(Recency(Blocks([])), capacity) == []
  {
    assert Blocks([]) == [];
  }

  lemma BlocksSplit(log: seq<Use>, u: Use)
    ensures Blocks(log + [u]) == Blocks(log) + [u.block]
  {
  }

  /** One access keeps it exactly when it takes the oldest block, or none. */
  lemma MostRecentStep(capacity: nat, past: seq<int>, order: seq<int>, u: Use)
    requires capacity > 0 && Distinct(Recency(past)) && order == Last(Recency(past), capacity)
    ensures Access(order, u.pinned, capacity, u.block) == Last(Recency(past + [u.block]), capacity) <==>
            TakesOldest(order, u, capacity)
  {
    hide Recency, Last, Access, TakesOldest;
    var r := Recency(past);
    AccessOfSuffix(r, capacity, u.block);
    RecencyGrows(past, u.block);
    LastDistinct(r, capacity);
    PinsDecide(order, u, capacity);
  }

  lemma RecencyGrows(log: seq<int>, b: int)
    ensures var r := Recency(log); var k := PositionOf(r, b);
      Recency(log + [b]) == (if k < |r| then RemoveAt(r, k) else r) + [b]
  {
    assert (log + [b])[..|log|] == log;
  }

  lemma LastDistinct<T>(s: seq<T>, n: nat)
    requires Distinct(s)
    ensures Distinct(Last(s, n)) && |Last(s, n)| <= n
  {
  }

  /** Pins change the outcome of an access exactly when they change the victim. */
  lemma PinsDecide(order: seq<int>, u: Use, capacity: nat)
    requires capacity > 0 && Distinct(order) && |order| <= capacity
    ensures Access(order, u.pinned, capacity, u.block) == Access(order, {}, capacity, u.block) <==>
      TakesOldest(order, u, capacity)
  {
    hide RemoveAt;
    if PositionOf(order, u.block) == |order| == capacity {
      VictimUnpinned(order);
      var v := Victim(order, u.pinned);
      if v == |order| {
        assert order[|order|-1] != u.block;
      } else if v > 0 {
        FirstAfterRemoval(order, v);
        assert (RemoveAt(order, v) + [u.block])[0] != (RemoveAt(order, 0) + [u.block])[0];
      }
    }
  }

  lemma FirstAfterRemoval(order: seq<int>, v: nat)
    requires 0 < v < |order| && Distinct(order)
    ensures RemoveAt(order, v)[0] == order[0] && RemoveAt(order, 0)[0] == order[1] != order[0]
  {
  }

  /** Nothing is held back in a run in which no client holds a block while it asks for another. */
  lemma {:induction false} UnpinnedTakesOldest(capacity: nat, log: seq<Use>)
    requires capacity > 0 && forall u :: u in log ==> u.pinned == {}
    ensures AlwaysOldest(capacity, log)
  {
    if log == [] {
    } else {
      var past, u := log[..|log|-1], log[|log|-1];
      UnpinnedTakesOldest(capacity, past);
      assert u in log;
      if |RunUses(capacity, past)| > 0 {
        VictimUnpinned(RunUses(capacity, past));
      }
    }
  }

  lemma AccessOfSuffix(r: seq<int>, capacity: nat, b: int)
    requires capacity > 0 && Distinct(r)
    ensures var k := PositionOf(r, b);
      Access(Last(r, capacity), {}, capacity, b) == Last((if k < |r| then RemoveAt(r, k) else r) + [b], capacity)
  {
    hide PositionOf, Victim, RemoveAt, Last;
    var k := PositionOf(r, b);
    var d := if |r| > capacity then |r| - capacity else 0;
    var o := r[d..];
    SuffixOf(r, d, capacity);
    if d <= k < |r| {
      assert o[k - d] == b;
      PositionUnique(o, b, k - d);
      DropThenRemove(r, d, k, b);
      SuffixOf(RemoveAt(r, k) + [b], d, capacity);
    } else {
      NotInSuffix(r, d, k, b);
      if k < |r| {
        DropRemoved(r, d, k, b);
        SuffixOf(RemoveAt(r, k) + [b], d, capacity);
        DropFirst(r, d);
        VictimUnpinned(o);
      } else if |r| >= capacity {
        assert (r + [b])[d+1..] == r[d+1..] + [b];
        SuffixOf(r + [b], d + 1, capacity);
        DropFirst(r, d);
        VictimUnpinned(o);
      } else {
        SuffixOf(r + [b], 0, capacity);
        assert o == r && (r + [b])[0..] == r + [b];
      }
    }
  }

  lemma VictimUnpinned(o: seq<int>)
    requires o != []
    ensures Victim(o, {}) == 0
  {
  }

  lemma SuffixOf(x: seq<int>, d: nat, capacity: nat)
    requires d <= |x| && (d == 0 || |x| == capacity + d) && (d == 0 ==> |x| <= capacity)
    ensures Last(x, capacity) == x[d..]
  {
  }

  lemma DropFirst(r: seq<int>, d: nat)
    requires d < |r|
    ensures RemoveAt(r[d..], 0) == r[d+1..]
  {
  }

  lemma DropThenRemove(r: seq<int>, d: nat, k: nat, b: int)
    requires d <= k < |r|
    ensures RemoveAt(r[d..], k - d) + [b] == (RemoveAt(r, k) + [b])[d..]
  {
  }

  lemma DropRemoved(r: seq<int>, d: nat, k: nat, b: int)
    requires k < d < |r|
    ensures (RemoveAt(r, k) + [b])[d..] == r[d+1..] + [b]
  {
  }

  lemma NotInSuffix(r: seq<int>, d: nat, k: nat, b: int)
    requires Distinct(r) && d <= |r| && k == PositionOf(r, b) && (k < d || k == |r|)
    ensures PositionOf(r[d..], b) == |r[d..]|
  {
    var o := r[d..];
    assert forall j :: 0 <= j < |o| ==> o[j] == r[d + j] && o[j] != b;
  }

  // ------------------------------------------------------------- last access times

  /** Index after the last occurrence of b, 0 if there is none. */
  function LastUse(log: seq<int>, b: int): nat {
    if log == [] then 0
    else if log[|log|-1] == b then |log|
    else LastUse(log[..|log|-1], b)
  }

  /** The order lists blocks by when they were last accessed. */
  ghost predicate ByRecency(order: seq<int>, log: seq<int>) {
    && (forall i :: 0 <= i < |order| ==> LastUse(log, order[i]) > 0)
    && (forall i, j :: 0 <= i < j < |order| ==> LastUse(log, order[i]) < LastUse(log, order[j]))
  }

  lemma {:induction false} LastUseBound(log: seq<int>, b: int)
    ensures LastUse(log, b) <= |log|
  {
    if log == [] || log[|log|-1] == b {
    } else {
      LastUseBound(log[..|log|-1], b);
    }
  }

  /** An access keeps the list in order of last access, whatever is pinned. */
  lemma AccessKeepsRecency(order: seq<int>, pinned: set<int>, capacity: nat, log: seq<int>, b: int)
    requires ByRecency(order, log)
    requires b in order || |order| < capacity || Victim(order, pinned) < |order|
    ensures ByRecency(Access(order, pinned, capacity, b), log + [b])
  {
    var k := PositionOf(order, b);
    if k < |order| {
      SameUse(order, log, b, k);
      MoveToEnd(order, RemoveAt(order, k), k, log, b);
    } else if |order| < capacity {
      assert order == order[..|order|] + [];
      MoveToEnd(order, order, |order|, log, b);
    } else {
      var v := Victim(order, pinned);
      MoveToEnd(order, RemoveAt(order, v), v, log, b);
    }
  }

  lemma SameUse(order: seq<int>, log: seq<int>, b: int, k: nat)
    requires ByRecency(order, log) && k < |order| && order[k] == b
    ensures forall j :: 0 <= j < |order| && j != k ==> order[j] != b
  {
    forall j | 0 <= j < |order| && j != k
      ensures order[j] != b
    {
      assert LastUse(log, order[j]) != LastUse(log, order[k]);
    }
  }

  /** rest is the order without entry k, and does not mention b. */
  lemma MoveToEnd(order: seq<int>, rest: seq<int>, k: nat, log: seq<int>, b: int)
    requires ByRecency(order, log) && k <= |order|
    requires rest == if k < |order| then RemoveAt(order, k) else order
    requires forall j :: 0 <= j < |order| && j != k ==> order[j] != b
    ensures ByRecency(rest + [b], log + [b])
  {
    hide LastUse;
    assert forall j :: 0 <= j < |rest| ==> rest[j] == order[if j < k then j else j + 1];
    forall j | 0 <= j < |rest|
      ensures LastUse(log + [b], rest[j]) == LastUse(log, rest[j]) <= |log|
    {
      UseAfter(log, b, rest[j]);
    }
    UseAfter(log, b, b);
  }

  lemma UseAfter(log: seq<int>, b: int, x: int)
    ensures LastUse(log + [b], x) == if x == b then |log| + 1 else LastUse(log, x)
    ensures LastUse(log, x) <= |log|
  {
    assert (log + [b])[..|log|] == log;
    LastUseBound(log, x);
  }

  // ------------------------------------------------------------- the cache as a value

  /**
   * struct bcache with its device.  unmarked holds the entries whose clean buffer a client
   * has changed through the pointer it got, and not yet marked dirty.
   */
  datatype Cache = Cache(
    disk: seq<Block>,
    entries: seq<Entry>,
    free: seq<int>,
    lru: seq<int>,
    unmarked: set<int>)

  /** Each cache block is on exactly one of the two lists, once. */
  ghost predicate ListsOk(c: Cache) {
    && Indices(c.entries, c.free) && Indices(c.entries, c.lru)
    && Distinct(c.free) && Distinct(c.lru) && |c.free| + |c.lru| == |c.entries|
    && (forall i :: 0 <= i < |c.entries| ==> (i in c.free <==> i !in c.lru))
  }

  ghost predicate BlocksOk(c: Cache)
    requires Indices(c.entries, c.lru)
  {
    && UniqueBlocks(c.entries, c.lru)
    && (forall i :: i in c.lru ==> 0 <= c.entries[i].blocknum < |c.disk| && c.entries[i].refCount >= 0)
  }

  /** A buffer that is neither dirty nor in a client's hands equals the device. */
  ghost predicate CleanOk(c: Cache)
    requires ListsOk(c) && BlocksOk(c)
  {
    && (forall i :: i in c.lru && !c.entries[i].dirty && i !in c.unmarked ==>
          c.entries[i].data == c.disk[c.entries[i].blocknum])
    && (forall i :: i in c.unmarked ==> i in c.lru && c.entries[i].refCount > 0)
    && (forall i :: i in c.free ==> !c.entries[i].dirty)
  }

  ghost predicate CacheInv(c: Cache) {
    ListsOk(c) && BlocksOk(c) && CleanOk(c)
  }

  ghost function ViewOf(c: Cache): seq<Block>
    requires CacheInv(c)
  {
    View(c.disk, c.entries, c.lru)
  }

  ghost function OrderOf(c: Cache): seq<int>
    requires CacheInv(c)
  {
    Order(c.entries, c.lru)
  }

  /** The numbers of the blocks that clients hold. */
  ghost function Pinned(c: Cache): set<int>
    requires CacheInv(c)
  {
    set i | i in c.lru && c.entries[i].refCount > 0 :: c.entries[i].blocknum
  }

  predicate InCache(c: Cache, b: int)
    requires Indices(c.entries, c.lru)
  {
    Cached(c.entries, c.lru, b)
  }

  /** The entry that holds block b. */
  ghost function Holder(c: Cache, b: int): (i: int)
    requires CacheInv(c) && InCache(c, b)
    ensures i in c.lru && c.entries[i].blocknum == b
  {
    SlotOf(c.entries, c.lru, b);
    c.lru[Slot(c.entries, c.lru, b)]
  }

  /** How often clients hold block b. */
  ghost function PinCount(c: Cache, b: int): int
    requires CacheInv(c)
  {
    if InCache(c, b) then c.entries[Holder(c, b)].refCount else 0
  }

  lemma HolderIs(c: Cache, b: int, i: int)
    requires CacheInv(c) && i in c.lru && c.entries[i].blocknum == b
    ensures InCache(c, b) && Holder(c, b) == i && PinCount(c, b) == c.entries[i].refCount
  {
  }

  lemma LruOk(c: Cache)
    requires CacheInv(c)
    ensures Indices(c.entries, c.lru) && Distinct(c.lru) && |c.free| + |c.lru| == |c.entries|
  {
  }

  lemma EntryOk(c: Cache, i: int)
    requires CacheInv(c) && i in c.lru
    ensures 0 <= i < |c.entries| && 0 <= c.entries[i].blocknum < |c.disk| && c.entries[i].refCount >= 0
    ensures i in c.unmarked ==> c.entries[i].refCount > 0
    ensures Indices(c.entries, c.lru) && UniqueBlocks(c.entries, c.lru)
  {
  }

  lemma NoPins(c: Cache, b: int)
    requires CacheInv(c) && !InCache(c, b)
    ensures PinCount(c, b) == 0
  {
  }

  /** The order is that of the accesses logged, and of the run they make up. */
  ghost predicate Recorded(c: Cache, log: seq<Use>)
    requires CacheInv(c)
  {
    ByRecency(OrderOf(c), Blocks(log)) && OrderOf(c) == RunUses(|c.entries|, log)
  }

  lemma RecordAccess(c: Cache, d: Cache, log: seq<Use>, b: int)
    requires CacheInv(c) && CacheInv(d) && |d.entries| == |c.entries| && Recorded(c, log)
    requires b in OrderOf(c) || |OrderOf(c)| < |c.entries| || Victim(OrderOf(c), Pinned(c)) < |OrderOf(c)|
    requires OrderOf(d) == Access(OrderOf(c), Pinned(c), |c.entries|, b)
    ensures Recorded(d, log + [Use(b, Pinned(c))])
  {
    hide CacheInv, ByRecency, Access, Pinned, Order, Blocks;
    var u := Use(b, Pinned(c));
    BlocksSplit(log, u);
    AccessKeepsRecency(OrderOf(c), Pinned(c), |c.entries|, Blocks(log), b);
    assert (log + [u])[..|log|] == log;
  }

  /** The order looks at blocks only, and the record at the order. */
  lemma SameRecord(c: Cache, d: Cache, log: seq<Use>)
    requires CacheInv(c) && CacheInv(d) && |d.entries| == |c.entries| && OrderOf(d) == OrderOf(c)
    ensures Recorded(d, log) <==> Recorded(c, log)
  {
    hide CacheInv, ByRecency, Order, Blocks;
  }

  lemma PinnedBlock(c: Cache, i: int)
    requires CacheInv(c) && i in c.lru
    ensures c.entries[i].blocknum in Pinned(c) <==> c.entries[i].refCount > 0
  {
  }

  // ------------------------------------------------------------- find_block

  /** A hit moves the entry to the most recently used end. */
  function Touch(c: Cache, k: nat): Cache
    requires k < |c.lru|
  {
    c.(lru := RemoveAt(c.lru, k) + [c.lru[k]])
  }

  lemma TouchMembers(l: seq<int>, k: nat)
    requires k < |l| && Distinct(l)
    ensures Distinct(RemoveAt(l, k) + [l[k]])
    ensures forall i :: i in RemoveAt(l, k) + [l[k]] <==> i in l
    ensures Distinct(RemoveAt(l, k)) && l[k] !in RemoveAt(l, k)
    ensures forall i :: i in RemoveAt(l, k) <==> i in l && i != l[k]
  {
    forall i | i in l && i != l[k]
      ensures i in RemoveAt(l, k)
    {
      var j :| 0 <= j < |l| && l[j] == i;
      assert RemoveAt(l, k)[if j < k then j else j - 1] == i;
    }
  }

  /** Two caches with the same blocks, buffers and device read the same. */
  lemma SameSeen(c: Cache, d: Cache, b: int)
    requires Indices(c.entries, c.lru) && Indices(d.entries, d.lru)
    requires UniqueBlocks(c.entries, c.lru) && UniqueBlocks(d.entries, d.lru)
    requires 0 <= b < |c.disk| && |d.disk| == |c.disk|
    requires forall i :: i in c.lru && c.entries[i].blocknum == b ==>
               i in d.lru && d.entries[i].blocknum == b && d.entries[i].data == c.entries[i].data
    requires !Cached(c.entries, c.lru, b) ==> !Cached(d.entries, d.lru, b) && d.disk[b] == c.disk[b]
    ensures Seen(d.disk, d.entries, d.lru, b) == Seen(c.disk, c.entries, c.lru, b)
  {
    if Cached(c.entries, c.lru, b) {
      var i :| i in c.lru && c.entries[i].blocknum == b;
      SeenCached(c.disk, c.entries, c.lru, i);
      SeenCached(d.disk, d.entries, d.lru, i);
    } else {
      SeenOnDisk(c.disk, c.entries, c.lru, b);
      SeenOnDisk(d.disk, d.entries, d.lru, b);
    }
  }

  lemma TouchKeeps(c: Cache, k: nat)
    requires CacheInv(c) && k < |c.lru|
    ensures CacheInv(Touch(c, k)) && ViewOf(Touch(c, k)) == ViewOf(c) && Pinned(Touch(c, k)) == Pinned(c)
    ensures OrderOf(Touch(c, k)) == RemoveAt(OrderOf(c), k) + [OrderOf(c)[k]]
  {
    var d := Touch(c, k);
    TouchMembers(c.lru, k);
    assert CacheInv(d);
    hide RemoveAt, View, Order;
    forall b | 0 <= b < |c.disk|
      ensures ViewOf(d)[b] == ViewOf(c)[b]
    {
      SameSeen(c, d, b);
    }
    TouchOrder(c.entries, c.lru, k);
  }

  lemma TouchOrder(entries: seq<Entry>, l: seq<int>, k: nat)
    requires Indices(entries, l) && k < |l|
    ensures Indices(entries, RemoveAt(l, k) + [l[k]]) && Indices(entries, RemoveAt(l, k))
    ensures Order(entries, RemoveAt(l, k)) == RemoveAt(Order(entries, l), k)
    ensures Order(entries, RemoveAt(l, k) + [l[k]]) == RemoveAt(Order(entries, l), k) + [Order(entries, l)[k]]
  {
    var r := RemoveAt(l, k);
    assert l[k] in l;
    assert forall j :: 0 <= j < |r| ==> r[j] == l[if j < k then j else j + 1];
    assert forall i :: i in r ==> i in l;
    assert forall i :: i in r + [l[k]] ==> i in l;
    forall j | 0 <= j < |r|
      ensures Order(entries, r)[j] == RemoveAt(Order(entries, l), k)[j]
    {
    }
    forall j | 0 <= j < |r| + 1
      ensures Order(entries, r + [l[k]])[j] == (RemoveAt(Order(entries, l), k) + [Order(entries, l)[k]])[j]
    {
    }
  }

  /** find_block on a cached block is an access to it. */
  lemma HitIsAccess(c: Cache, b: int)
    requires CacheInv(c) && InCache(c, b)
    ensures var k := Slot(c.entries, c.lru, b);
      && k < |c.lru| && CacheInv(Touch(c, k))
      && OrderOf(Touch(c, k)) == Access(OrderOf(c), Pinned(c), |c.entries|, b)
  {
    SlotOf(c.entries, c.lru, b);
    var k := Slot(c.entries, c.lru, b);
    TouchKeeps(c, k);
    PositionUnique(OrderOf(c), b, k);
  }

  // ------------------------------------------------------------- flush_block and alloc_block

  /** flush_block: write entry i back. */
  function WriteBack(c: Cache, i: int): Cache
    requires 0 <= i < |c.entries| && 0 <= c.entries[i].blocknum < |c.disk|
  {
    var e := c.entries[i];
    c.(disk := c.disk[e.blocknum := e.data], entries := c.entries[i := e.(dirty := false)])
  }

  /** Writing an entry back changes the device and never what is read. */
  lemma WriteBackKeeps(c: Cache, i: int)
    requires CacheInv(c) && i in c.lru
    ensures CacheInv(WriteBack(c, i)) && ViewOf(WriteBack(c, i)) == ViewOf(c)
    ensures OrderOf(WriteBack(c, i)) == OrderOf(c) && Pinned(WriteBack(c, i)) == Pinned(c)
  {
    hide View, Order, Pinned;
    var d := WriteBack(c, i);
    assert CacheInv(d);
    forall b | 0 <= b < |c.disk|
      ensures ViewOf(d)[b] == ViewOf(c)[b]
    {
      SameSeen(c, d, b);
    }
    forall k | 0 <= k < |c.lru|
      ensures OrderOf(d)[k] == OrderOf(c)[k]
    {
      assert c.lru[k] in c.lru;
    }
    WriteBackPinned(c, i);
  }

  lemma WriteBackPinned(c: Cache, i: int)
    requires CacheInv(c) && i in c.lru && CacheInv(WriteBack(c, i))
    ensures Pinned(WriteBack(c, i)) == Pinned(c)
  {
    var d := WriteBack(c, i);
    assert forall j :: j in c.lru ==>
        d.entries[j].blocknum == c.entries[j].blocknum && d.entries[j].refCount == c.entries[j].refCount;
  }

  /** Position on the LRU list of the first entry nobody holds. */
  function FirstUnpinned(entries: seq<Entry>, lru: seq<int>): (k: nat)
    requires Indices(entries, lru)
    ensures k <= |lru|
    ensures k < |lru| ==> lru[k] in lru && entries[lru[k]].refCount == 0
    ensures forall j :: 0 <= j < k ==> lru[j] in lru && entries[lru[j]].refCount != 0
  {
    if lru == [] then 0
    else
      assert lru[0] in lru;
      assert forall i :: i in lru[1..] ==> i in lru;
      if entries[lru[0]].refCount == 0 then 0 else 1 + FirstUnpinned(entries, lru[1..])
  }

  /** The evicted block is the least recently used one that is not pinned. */
  lemma FirstUnpinnedIsVictim(c: Cache)
    requires CacheInv(c)
    ensures FirstUnpinned(c.entries, c.lru) == Victim(OrderOf(c), Pinned(c))
  {
    var k := FirstUnpinned(c.entries, c.lru);
    forall j | 0 <= j < |c.lru|
      ensures OrderOf(c)[j] in Pinned(c) <==> c.entries[c.lru[j]].refCount != 0
    {
      assert c.lru[j] in c.lru;
      PinnedBlock(c, c.lru[j]);
    }
    VictimUnique(OrderOf(c), Pinned(c), k);
  }

  lemma {:induction false} VictimUnique(order: seq<int>, pinned: set<int>, k: nat)
    requires k <= |order| && (k < |order| ==> order[k] !in pinned)
    requires forall j :: 0 <= j < k ==> order[j] in pinned
    ensures Victim(order, pinned) == k
  {
    if k == 0 {
    } else {
      VictimUnique(order[1..], pinned, k - 1);
    }
  }

  /** Room for one more block: a free entry, or one nobody holds. */
  ghost predicate HasRoom(c: Cache)
    requires Indices(c.entries, c.lru)
  {
    c.free != [] || FirstUnpinned(c.entries, c.lru) < |c.lru|
  }

  /** alloc_block: the cache and the entry, whose block number is still to be set. */
  function Alloc(c: Cache): (r: Option<(Cache, int)>)
    requires CacheInv(c)
    ensures r.Some? <==> HasRoom(c)
    ensures r.Some? ==> 0 <= r.value.1 < |c.entries| == |r.value.0.entries|
  {
    if c.free != [] then
      var i := c.free[0];
      assert i in c.free && 0 <= i < |c.entries|;
      var e := c.entries[i].(refCount := 0);
      Some((c.(free := c.free[1..], entries := c.entries[i := e], lru := c.lru + [i]), i))
    else
      var k := FirstUnpinned(c.entries, c.lru);
      if k == |c.lru| then None
      else
        var i := c.lru[k];
        var d := if c.entries[i].dirty then WriteBack(c, i) else c;
        Some((d.(lru := RemoveAt(c.lru, k) + [i]), i))
  }

  /** The device is written at most for the block that is evicted, with what readers see in it. */
  ghost predicate WritesOnlyVictim(c: Cache, disk: seq<Block>)
    requires CacheInv(c)
  {
    |disk| == |c.disk| && forall b :: 0 <= b < |disk| && disk[b] != c.disk[b] ==>
      var v := Victim(OrderOf(c), Pinned(c));
      c.free == [] && v < |OrderOf(c)| && b == OrderOf(c)[v] && disk[b] == ViewOf(c)[b]
  }

  lemma AllocWrites(c: Cache)
    requires CacheInv(c) && HasRoom(c)
    ensures WritesOnlyVictim(c, Alloc(c).value.0.disk)
  {
    hide Order, View, Pinned;
    if c.free == [] {
      FirstUnpinnedIsVictim(c);
      var k := FirstUnpinned(c.entries, c.lru);
      EntryOk(c, c.lru[k]);
      SeenCached(c.disk, c.entries, c.lru, c.lru[k]);
      assert OrderOf(c)[k] == c.entries[c.lru[k]].blocknum;
    }
  }

  /** Give the allocated entry its block. */
  function Install(c: Cache, i: int, b: int, dirty: bool, data: Block): Cache
    requires 0 <= i < |c.entries|
  {
    c.(entries := c.entries[i := c.entries[i].(blocknum := b, dirty := dirty, data := data)])
  }

  /** An evicted entry, seen as flushed and put on the free list. */
  ghost function Reclaim(c: Cache): Cache
    requires CacheInv(c) && c.free == [] && HasRoom(c)
  {
    var k := FirstUnpinned(c.entries, c.lru);
    var i := c.lru[k];
    var d := if c.entries[i].dirty then WriteBack(c, i) else c;
    d.(lru := RemoveAt(c.lru, k), free := [i])
  }

  /** Eviction loses nothing: what is read stays the same. */
  lemma ReclaimKeeps(c: Cache)
    requires CacheInv(c) && c.free == [] && HasRoom(c)
    ensures CacheInv(Reclaim(c)) && ViewOf(Reclaim(c)) == ViewOf(c)
    ensures OrderOf(Reclaim(c)) == RemoveAt(OrderOf(c), FirstUnpinned(c.entries, c.lru))
  {
    var k := FirstUnpinned(c.entries, c.lru);
    var i := c.lru[k];
    var d := if c.entries[i].dirty then WriteBack(c, i) else c;
    if c.entries[i].dirty {
      WriteBackKeeps(c, i);
    }
    DropClean(d, k);
  }

  /** Taking a clean, unpinned entry off the LRU list. */
  lemma DropClean(c: Cache, k: nat)
    requires CacheInv(c) && c.free == [] && k < |c.lru|
    requires c.lru[k] in c.lru && !c.entries[c.lru[k]].dirty && c.entries[c.lru[k]].refCount == 0
    ensures var d := c.(lru := RemoveAt(c.lru, k), free := [c.lru[k]]);
      CacheInv(d) && ViewOf(d) == ViewOf(c) && OrderOf(d) == RemoveAt(OrderOf(c), k)
  {
    hide View, Order, RemoveAt;
    var d := c.(lru := RemoveAt(c.lru, k), free := [c.lru[k]]);
    TouchMembers(c.lru, k);
    assert CacheInv(d);
    forall b | 0 <= b < |c.disk|
      ensures ViewOf(d)[b] == ViewOf(c)[b]
    {
      DropSeen(c, k, b);
    }
    TouchOrder(c.entries, c.lru, k);
  }

  lemma DropSeen(c: Cache, k: nat, b: int)
    requires CacheInv(c) && k < |c.lru| && 0 <= b < |c.disk|
    requires c.lru[k] in c.lru && !c.entries[c.lru[k]].dirty && c.entries[c.lru[k]].refCount == 0
    ensures Indices(c.entries, RemoveAt(c.lru, k))
    ensures Seen(c.disk, c.entries, RemoveAt(c.lru, k), b) == Seen(c.disk, c.entries, c.lru, b)
  {
    hide RemoveAt;
    TouchMembers(c.lru, k);
    var i := c.lru[k];
    var d := c.(lru := RemoveAt(c.lru, k));
    if c.entries[i].blocknum == b {
      SeenCached(c.disk, c.entries, c.lru, i);
      SeenOnDisk(c.disk, c.entries, d.lru, b);
    } else {
      SameSeen(c, d, b);
    }
  }

  /** Putting a block that was not cached into a free entry. */
  lemma InstallFree(c: Cache, b: int, dirty: bool, data: Block)
    requires CacheInv(c) && c.free != [] && 0 <= b < |c.disk| && !InCache(c, b)
    requires dirty || data == c.disk[b]
    ensures var (c1, i) := Alloc(c).value; var d := Install(c1, i, b, dirty, data);
      && CacheInv(d) && ViewOf(d) == ViewOf(c)[b := data]
      && OrderOf(d) == OrderOf(c) + [b] && d.disk == c.disk
  {
    var (c1, i) := Alloc(c).value;
    var d := Install(c1, i, b, dirty, data);
    InstallFreeInv(c, b, dirty, data);
    hide View, Order;
    forall x | 0 <= x < |c.disk|
      ensures ViewOf(d)[x] == ViewOf(c)[b := data][x]
    {
      if x == b {
        SeenCached(d.disk, d.entries, d.lru, i);
      } else {
        SameSeen(c, d, x);
      }
    }
    forall j | 0 <= j < |d.lru|
      ensures OrderOf(d)[j] == (OrderOf(c) + [b])[j]
    {
      assert d.lru[j] in d.lru;
      assert j < |c.lru| ==> c.lru[j] in c.lru;
    }
  }

  lemma InstallFreeInv(c: Cache, b: int, dirty: bool, data: Block)
    requires CacheInv(c) && c.free != [] && 0 <= b < |c.disk| && !InCache(c, b)
    requires dirty || data == c.disk[b]
    ensures var (c1, i) := Alloc(c).value; var d := Install(c1, i, b, dirty, data);
      && CacheInv(d) && d.disk == c.disk && d.lru == c.lru + [i] && i in d.lru && i !in c.lru
      && d.entries[i].blocknum == b && d.entries[i].data == data
      && forall j :: j in c.lru ==> d.entries[j] == c.entries[j]
  {
    var (c1, i) := Alloc(c).value;
    var d := Install(c1, i, b, dirty, data);
    var f := c.free;
    assert i in f && f == [i] + f[1..];
    assert i !in f[1..];
    assert forall j :: j in c.free <==> j == i || j in f[1..];
    assert forall j :: j in d.lru <==> j == i || j in c.lru;
    assert ListsOk(d);
    assert BlocksOk(d);
  }

  /** Clients hold the same entries, with the same blocks, counts and buffers, but for the given blocks. */
  ghost predicate KeepsPinned(c: Cache, d: Cache, but: set<int>) {
    && Indices(c.entries, c.lru) && Indices(d.entries, d.lru) && |d.entries| == |c.entries|
    && (forall i :: i in c.lru && c.entries[i].refCount > 0 && c.entries[i].blocknum !in but ==>
          i in d.lru && d.entries[i] == c.entries[i])
    && (forall i :: i in d.lru && d.entries[i].refCount > 0 && d.entries[i].blocknum !in but ==>
          i in c.lru && d.entries[i] == c.entries[i])
  }

  lemma FewerPins(c: Cache, d: Cache, b: int)
    requires KeepsPinned(c, d, {})
    ensures KeepsPinned(c, d, {b})
  {
  }

  lemma SamePins(c: Cache, d: Cache)
    requires CacheInv(c) && CacheInv(d) && d.entries == c.entries && forall i :: i in d.lru <==> i in c.lru
    ensures KeepsPinned(c, d, {})
  {
  }

  lemma EvictedIsInstalled(c: Cache)
    requires CacheInv(c) && c.free == [] && HasRoom(c)
    ensures CacheInv(Reclaim(c)) && Alloc(Reclaim(c)) == Some((Alloc(c).value.0, Alloc(c).value.1))
    ensures Reclaim(c).free != [] && Reclaim(c).unmarked == c.unmarked && KeepsPinned(c, Reclaim(c), {})
    ensures |Reclaim(c).disk| == |c.disk|
  {
    ReclaimKeeps(c);
    var r := Reclaim(c);
    var k := FirstUnpinned(c.entries, c.lru);
    TouchMembers(c.lru, k);
    assert r.free[1..] == [];
    assert r.entries[c.lru[k]].refCount == 0;
    assert r.entries[c.lru[k] := r.entries[c.lru[k]]] == r.entries;
  }

  lemma ReclaimedBlock(c: Cache, b: int)
    requires CacheInv(c) && c.free == [] && HasRoom(c) && 0 <= b < |c.disk| && !InCache(c, b)
    ensures CacheInv(Reclaim(c)) && !InCache(Reclaim(c), b) && |Reclaim(c).disk| == |c.disk|
    ensures Reclaim(c).disk[b] == c.disk[b]
  {
    ReclaimKeeps(c);
    var k := FirstUnpinned(c.entries, c.lru);
    assert c.lru[k] in c.lru;
    TouchMembers(c.lru, k);
  }

  /**
   * A miss brings b in with the given contents: every other block reads as before, the
   * order is the access order, and pinned blocks are untouched.
   */
  lemma MissIsAccess(c: Cache, b: int, dirty: bool, data: Block)
    requires CacheInv(c) && HasRoom(c) && 0 <= b < |c.disk| && !InCache(c, b)
    requires dirty || data == c.disk[b]
    ensures var (c1, i) := Alloc(c).value; var d := Install(c1, i, b, dirty, data);
      && |c1.disk| == |c.disk| && c1.disk[b] == c.disk[b]
      && CacheInv(d) && ViewOf(d) == ViewOf(c)[b := data]
      && OrderOf(d) == Access(OrderOf(c), Pinned(c), |c.entries|, b)
      && KeepsPinned(c, d, {}) && d.unmarked == c.unmarked
      && i in d.lru && d.entries[i].blocknum == b && d.entries[i].refCount == 0
  {
    hide CacheInv, View, Order, Pinned, RemoveAt, PositionOf, FirstUnpinned, Victim, KeepsPinned, Alloc, Install,
         Reclaim, HasRoom, InCache;
    AbsentFromOrder(c, b);
    RoomFor(c);
    if c.free != [] {
      InstallFree(c, b, dirty, data);
      InstallFreePins(c, b, dirty, data);
    } else {
      EvictedIsInstalled(c);
      ReclaimedBlock(c, b);
      ReclaimKeeps(c);
      FirstUnpinnedIsVictim(c);
      var r := Reclaim(c);
      InstallFree(r, b, dirty, data);
      InstallFreePins(r, b, dirty, data);
      var (c1, i) := Alloc(c).value;
      PinsChain(c, r, Install(c1, i, b, dirty, data));
    }
  }

  lemma RoomFor(c: Cache)
    requires CacheInv(c)
    ensures c.free != [] <==> |OrderOf(c)| < |c.entries|
    ensures HasRoom(c) && c.free == [] ==> FirstUnpinned(c.entries, c.lru) < |c.lru| == |c.entries|
  {
  }

  lemma PinsChain(c: Cache, d: Cache, e: Cache)
    requires KeepsPinned(c, d, {}) && KeepsPinned(d, e, {})
    ensures KeepsPinned(c, e, {})
  {
  }

  lemma InstallFreePins(c: Cache, b: int, dirty: bool, data: Block)
    requires CacheInv(c) && c.free != [] && 0 <= b < |c.disk| && !InCache(c, b)
    requires dirty || data == c.disk[b]
    ensures var (c1, i) := Alloc(c).value; var d := Install(c1, i, b, dirty, data);
      && CacheInv(d) && KeepsPinned(c, d, {}) && c1.disk == c.disk && d.unmarked == c.unmarked
      && i in d.lru && d.entries[i].blocknum == b && d.entries[i].refCount == 0
  {
    hide CacheInv, InCache;
    InstallFreeInv(c, b, dirty, data);
    LruOk(c);
    var (c1, i) := Alloc(c).value;
    LruOk(Install(c1, i, b, dirty, data));
  }

  lemma AbsentFromOrder(c: Cache, b: int)
    requires CacheInv(c) && !InCache(c, b)
    ensures PositionOf(OrderOf(c), b) == |OrderOf(c)|
  {
    var o := OrderOf(c);
    forall k | 0 <= k < |o|
      ensures o[k] != b
    {
      assert c.lru[k] in c.lru;
    }
  }

  // ------------------------------------------------------------- changes to one entry

  /** A client's store through the pointer it holds, bcache_mark_block_dirty, bcache_zero_block on a hit. */
  function Store(c: Cache, i: int, data: Block, dirty: bool, unmarked: set<int>): Cache
    requires 0 <= i < |c.entries|
  {
    c.(entries := c.entries[i := c.entries[i].(data := data, dirty := dirty)], unmarked := unmarked)
  }

  /** A store to the buffer of one block leaves the pins of all others. */
  lemma StorePins(was: Cache, c: Cache, i: int, data: Block, dirty: bool, unmarked: set<int>)
    requires KeepsPinned(was, c, {}) && 0 <= i < |c.entries|
    ensures KeepsPinned(was, Store(c, i, data, dirty, unmarked), {c.entries[i].blocknum})
  {
  }

  lemma StoreKeeps(c: Cache, i: int, data: Block, dirty: bool, unmarked: set<int>)
    requires CacheInv(c) && i in c.lru
    requires unmarked - {i} == c.unmarked - {i}
    requires dirty || i in unmarked
    requires i in unmarked ==> c.entries[i].refCount > 0
    ensures CacheInv(Store(c, i, data, dirty, unmarked))
    ensures ViewOf(Store(c, i, data, dirty, unmarked)) == ViewOf(c)[c.entries[i].blocknum := data]
    ensures OrderOf(Store(c, i, data, dirty, unmarked)) == OrderOf(c)
  {
    hide View, Order;
    var d := Store(c, i, data, dirty, unmarked);
    assert forall j :: j in unmarked && j != i ==> j in unmarked - {i};
    assert forall j :: j in c.unmarked && j != i ==> j in unmarked - {i};
    assert CacheInv(d);
    forall x | 0 <= x < |c.disk|
      ensures ViewOf(d)[x] == ViewOf(c)[c.entries[i].blocknum := data][x]
    {
      if x == c.entries[i].blocknum {
        SeenCached(d.disk, d.entries, d.lru, i);
      } else {
        SameSeen(c, d, x);
      }
    }
    forall k | 0 <= k < |c.lru|
      ensures OrderOf(d)[k] == OrderOf(c)[k]
    {
      assert c.lru[k] in c.lru;
    }
  }

  function WithPins(c: Cache, i: int, refCount: int): Cache
    requires 0 <= i < |c.entries|
  {
    c.(entries := c.entries[i := c.entries[i].(refCount := refCount)])
  }

  /** Pinning or unpinning an entry. */
  lemma PinKeeps(c: Cache, i: int, refCount: int)
    requires CacheInv(c) && i in c.lru && refCount >= 0 && (i in c.unmarked ==> refCount > 0)
    ensures var d := WithPins(c, i, refCount);
      CacheInv(d) && ViewOf(d) == ViewOf(c) && OrderOf(d) == OrderOf(c)
  {
    hide View, Order;
    var d := WithPins(c, i, refCount);
    assert CacheInv(d);
    forall x | 0 <= x < |c.disk|
      ensures ViewOf(d)[x] == ViewOf(c)[x]
    {
      SameSeen(c, d, x);
    }
    forall k | 0 <= k < |c.lru|
      ensures OrderOf(d)[k] == OrderOf(c)[k]
    {
      assert c.lru[k] in c.lru;
    }
  }

  /** When nothing is dirty and no client holds an unmarked change, the device is the view. */
  lemma CleanCacheIsDisk(c: Cache, b: int)
    requires CacheInv(c) && 0 <= b < |c.disk|
    requires forall i :: i in c.lru && c.entries[i].blocknum == b ==> !c.entries[i].dirty && i !in c.unmarked
    ensures ViewOf(c)[b] == c.disk[b]
  {
    if InCache(c, b) {
      var i :| i in c.lru && c.entries[i].blocknum == b;
      SeenCached(c.disk, c.entries, c.lru, i);
    } else {
      SeenOnDisk(c.disk, c.entries, c.lru, b);
    }
  }

  // ------------------------------------------------------------- the code

  class BCache {
    const blockSize: nat
    var disk: seq<Block>
    var entries: seq<Entry>
    var freeList: seq<int>
    var lruList: seq<int>
    ghost var unmarked: set<int>
    ghost var log: seq<Use> // the accesses, oldest first

    ghost function Abs(): Cache
      reads this
    {
      Cache(disk, entries, freeList, lruList, unmarked)
    }

    ghost predicate Valid()
      reads this
    {
      CacheInv(Abs()) && Recorded(Abs(), log)
    }

    /** What a read of each block returns. */
    ghost function Contents(): seq<Block>
      reads this
      requires Valid()
    {
      ViewOf(Abs())
    }

    ghost function UseOrder(): seq<int>
      reads this
      requires Valid()
    {
      OrderOf(Abs())
    }

    /** At any time in its life the cache is what its accesses make of it, and so holds the most recent blocks. */
    lemma HoldsTheMostRecent()
      requires Valid()
      ensures UseOrder() == RunUses(|entries|, log)
      ensures AlwaysOldest(|entries|, log) || (forall u :: u in log ==> u.pinned == {}) ==>
                UseOrder() == Last(Recency(Blocks(log)), |entries|)
    {
      hide RunUses, AlwaysOldest, Recency, Blocks, View, Order, CacheInv;
      if |entries| > 0 {
        CacheHoldsMostRecent(|entries|, log);
        if forall u :: u in log ==> u.pinned == {} {
          UnpinnedTakesOldest(|entries|, log);
        }
      } else {
        LruOk(Abs());
      }
    }

    /** bcache_create, with the device's blocks. */
    constructor (disk: seq<Block>, blockSize: nat, count: nat)
      ensures Valid() && Contents() == disk && UseOrder() == [] && log == [] && unmarked == {}
      ensures |entries| == count && this.blockSize == blockSize
    {
      this.disk := disk;
      this.blockSize := blockSize;
      lruList, unmarked, log := [], {}, [];
      var es: seq<Entry> := [];
      var free: seq<int> := [];
      var i := 0;
      while i < count
        invariant 0 <= i <= count && |es| == i && |free| == i
        invariant forall j :: 0 <= j < i ==> !es[j].dirty && es[j].refCount == 0
        invariant forall j :: j in free <==> 0 <= j < i
        invariant Distinct(free)
      {
        es := es + [Entry(0, 0, false, Zeros(blockSize))];
        assert i !in free;
        ConsDistinct(free, i);
        free := [i] + free;
        i := i + 1;
      }
      entries := es;
      freeList := free;
      new;
      assert CacheInv(Abs());
      forall b | 0 <= b < |disk|
        ensures ViewOf(Abs())[b] == disk[b]
      {
        SeenOnDisk(disk, entries, lruList, b);
      }
    }

    method FindBlock(b: int) returns (r: Option<int>)
      requires Valid()
      modifies this`lruList, this`log
      ensures Valid() && Contents() == old(Contents()) && r.Some? == old(InCache(Abs(), b))
      ensures r.Some? ==>
        && r.value == old(Holder(Abs(), b)) && r.value in lruList && entries[r.value].blocknum == b
        && UseOrder() == Access(old(UseOrder()), Pinned(old(Abs())), |entries|, b)
        && log == old(log) + [Use(b, Pinned(old(Abs())))]
        && (forall i :: i in lruList <==> i in old(lruList))
      ensures r.None? ==> lruList == old(lruList) && log == old(log)
    {
      hide CacheInv, Distinct, RemoveAt, View, Order, Pinned, Access, Recorded, Cached, Holder, Slot;
      LruOk(Abs());
      SlotOf(entries, lruList, b);
      var k := 0;
      while k < |lruList| && entries[lruList[k]].blocknum != b
        invariant 0 <= k <= Slot(entries, lruList, b)
      {
        k := k + 1;
      }
      if k == |lruList| {
        return None;
      }
      ghost var c := Abs();
      assert lruList[k] in lruList;
      HolderIs(c, b, lruList[k]);
      HitIsAccess(c, b);
      TouchKeeps(c, k);
      TouchMembers(lruList, k);
      CachedInOrder(c, b);
      RecordAccess(c, Touch(c, k), log, b);
      r := Some(lruList[k]);
      lruList := RemoveAt(lruList, k) + [lruList[k]];
      log := log + [Use(b, Pinned(c))];
      assert Abs() == Touch(c, k);
    }

    /** flush_block, on a device whose writes succeed. */
    method FlushBlock(i: int)
      requires CacheInv(Abs()) && i in lruList
      modifies this`disk, this`entries
      ensures Abs() == WriteBack(old(Abs()), i)
    {
      var e := entries[i];
      disk := disk[e.blocknum := e.data];
      entries := entries[i := e.(dirty := false)];
    }

    method AllocBlock() returns (r: Option<int>)
      requires CacheInv(Abs())
      modifies this`disk, this`entries, this`freeList, this`lruList
      ensures r.Some? <==> HasRoom(old(Abs()))
      ensures r.Some? ==> Alloc(old(Abs())) == Some((Abs(), r.value))
      ensures r.None? ==> Abs() == old(Abs())
    {
      if freeList != [] {
        var i := freeList[0];
        assert i in freeList;
        freeList := freeList[1..];
        entries := entries[i := entries[i].(refCount := 0)];
        lruList := lruList + [i];
        return Some(i);
      }
      var k := 0;
      while k < |lruList|
        invariant 0 <= k <= |lruList| && Abs() == old(Abs())
        invariant forall j :: 0 <= j < k ==> lruList[j] in lruList && entries[lruList[j]].refCount != 0
      {
        var i := lruList[k];
        assert i in lruList;
        if entries[i].refCount == 0 {
          UnpinnedUnique(entries, lruList, k);
          if entries[i].dirty {
            FlushBlock(i);
          }
          lruList := RemoveAt(lruList, k) + [i];
          return Some(i);
        }
        k := k + 1;
      }
      NoneUnpinned(entries, lruList);
      return None;
    }

    /** find_or_fill_block, on a device whose reads succeed, when the block is cached or there is room for it. */
    method FindOrFillBlock(b: int) returns (i: int)
      requires Valid() && 0 <= b < |disk| && (InCache(Abs(), b) || HasRoom(Abs()))
      modifies this`disk, this`entries, this`freeList, this`lruList, this`log
      ensures Valid() && Contents() == old(Contents())
      ensures WritesOnlyVictim(old(Abs()), disk) && (old(InCache(Abs(), b)) ==> disk == old(disk))
      ensures UseOrder() == Access(old(UseOrder()), Pinned(old(Abs())), |entries|, b)
      ensures log == old(log) + [Use(b, Pinned(old(Abs())))]
      ensures KeepsPinned(old(Abs()), Abs(), {})
      ensures i in lruList && entries[i].blocknum == b && entries[i].refCount == old(PinCount(Abs(), b))
      ensures old(InCache(Abs(), b)) ==> i == old(Holder(Abs(), b))
    {
      hide CacheInv, RemoveAt, View, Order, Pinned, Access, Recorded, Cached, Alloc, HasRoom, Holder, PinCount;
      var r := FindBlock(b);
      if r.Some? {
        HolderIs(old(Abs()), b, r.value);
        SamePins(old(Abs()), Abs());
        return r.value;
      }
      ghost var c := Abs();
      NoPins(c, b);
      var a := AllocBlock();
      i := a.value;
      AllocIsClean(c);
      AllocWrites(c);
      MissIsAccess(c, b, false, c.disk[b]);
      MissInOrder(c, b);
      RecordAccess(c, Install(Alloc(c).value.0, i, b, false, c.disk[b]), log, b);
      entries := entries[i := entries[i].(blocknum := b)];
      entries := entries[i := entries[i].(data := disk[b])];
      log := log + [Use(b, Pinned(c))];
      assert Abs() == Install(Alloc(c).value.0, i, b, false, c.disk[b]);
      assert ViewOf(c)[b := c.disk[b]] == ViewOf(c) by { SeenOnDisk(c.disk, c.entries, c.lru, b); }
    }

    /** bcache_read_block. */
    method ReadBlock(b: int) returns (buf: Block)
      requires Valid() && 0 <= b < |disk| && (InCache(Abs(), b) || HasRoom(Abs()))
      modifies this`disk, this`entries, this`freeList, this`lruList, this`log
      ensures Valid() && Contents() == old(Contents()) && buf == Contents()[b]
      ensures WritesOnlyVictim(old(Abs()), disk) && (old(InCache(Abs(), b)) ==> disk == old(disk))
      ensures UseOrder() == Access(old(UseOrder()), Pinned(old(Abs())), |entries|, b)
      ensures log == old(log) + [Use(b, Pinned(old(Abs())))]
      ensures KeepsPinned(old(Abs()), Abs(), {})
    {
      hide View, Order, Pinned, Access, Recorded, Cached, HasRoom, WritesOnlyVictim;
      var i := FindOrFillBlock(b);
      SeenCached(disk, entries, lruList, i);
      buf := entries[i].data;
    }

    /** bcache_get_block; the pointer is the entry whose buffer it points to. */
    method GetBlock(b: int) returns (i: int)
      requires Valid() && 0 <= b < |disk| && (InCache(Abs(), b) || HasRoom(Abs()))
      modifies this`disk, this`entries, this`freeList, this`lruList, this`log
      ensures Valid() && Contents() == old(Contents())
      ensures WritesOnlyVictim(old(Abs()), disk) && (old(InCache(Abs(), b)) ==> disk == old(disk))
      ensures UseOrder() == Access(old(UseOrder()), Pinned(old(Abs())), |entries|, b)
      ensures log == old(log) + [Use(b, Pinned(old(Abs())))]
      ensures i in lruList && entries[i].blocknum == b && entries[i].data == Contents()[b]
      ensures entries[i].refCount == old(PinCount(Abs(), b)) + 1 && KeepsPinned(old(Abs()), Abs(), {b})
      ensures old(InCache(Abs(), b)) ==> i == old(Holder(Abs(), b))
    {
      hide CacheInv, View, Order, Access, Recorded, Cached, HasRoom, Pinned, Seen, Holder, PinCount, UniqueBlocks,
           WritesOnlyVictim;
      i := FindOrFillBlock(b);
      EntryOk(Abs(), i);
      SeenCached(disk, entries, lruList, i);
      assert entries[i].data == ViewOf(Abs())[b];
      PinKeeps(Abs(), i, entries[i].refCount + 1);
      SameRecord(Abs(), WithPins(Abs(), i, entries[i].refCount + 1), log);
      entries := entries[i := entries[i].(refCount := entries[i].refCount + 1)];
    }

    /** A client's store through a pointer it got from bcache_get_block. */
    method StoreThrough(i: int, data: Block)
      requires Valid() && i in lruList && entries[i].refCount > 0
      modifies this`entries, this`unmarked
      ensures Valid() && Contents() == old(Contents())[entries[i].blocknum := data]
      ensures disk == old(disk) && UseOrder() == old(UseOrder())
      ensures unmarked == if old(entries)[i].dirty then old(unmarked) else old(unmarked) + {i}
      ensures entries == old(entries)[i := old(entries)[i].(data := data)]
    {
      hide View, Order, Recorded;
      ghost var waiting := if entries[i].dirty then unmarked else unmarked + {i};
      StoreKeeps(Abs(), i, data, entries[i].dirty, waiting);
      SameRecord(Abs(), Store(Abs(), i, data, entries[i].dirty, waiting), log);
      entries := entries[i := entries[i].(data := data)];
      unmarked := waiting;
    }

    /** bcache_mark_block_dirty. */
    method MarkBlockDirty(b: int) returns (err: int)
      requires Valid()
      modifies this`entries, this`lruList, this`unmarked, this`log
      ensures Valid() && Contents() == old(Contents()) && disk == old(disk)
      ensures err == if old(InCache(Abs(), b)) then 0 else -1
      ensures err == 0 ==>
        var i := old(Holder(Abs(), b));
        && unmarked == old(unmarked) - {i} && entries == old(entries)[i := old(entries)[i].(dirty := true)]
        && (forall j :: j in lruList <==> j in old(lruList))
        && UseOrder() == Access(old(UseOrder()), Pinned(old(Abs())), |entries|, b)
        && log == old(log) + [Use(b, Pinned(old(Abs())))]
      ensures err == -1 ==> Abs() == old(Abs()) && log == old(log)
    {
      hide CacheInv, View, Order, Access, Recorded, Cached, Pinned, Slot, Holder, UniqueBlocks, Seen;
      var r := FindBlock(b);
      if r.None? {
        return -1;
      }
      var i := r.value;
      EntryOk(Abs(), i);
      SeenCached(disk, entries, lruList, i);
      StoreKeeps(Abs(), i, entries[i].data, true, unmarked - {i});
      SameRecord(Abs(), Store(Abs(), i, entries[i].data, true, unmarked - {i}), log);
      entries := entries[i := entries[i].(dirty := true)];
      unmarked := unmarked - {i};
      return 0;
    }

    /** bcache_put_block by a client that has marked what it changed: one pin less, and nothing else but an access. */
    method PutBlock(b: int)
      requires Valid() && InCache(Abs(), b)
      requires var i := Holder(Abs(), b); entries[i].refCount > (if i in unmarked then 1 else 0)
      modifies this`entries, this`lruList, this`log
      ensures Valid() && Contents() == old(Contents())
      ensures var i := old(Holder(Abs(), b));
        && entries == old(entries)[i := old(entries)[i].(refCount := old(entries)[i].refCount - 1)]
        && (forall j :: j in lruList <==> j in old(lruList))
      ensures UseOrder() == Access(old(UseOrder()), Pinned(old(Abs())), |entries|, b)
      ensures log == old(log) + [Use(b, Pinned(old(Abs())))]
    {
      hide CacheInv, Cached, View, Order, Access, Recorded, Pinned, Holder;
      var r := FindBlock(b);
      var i := r.value;
      EntryOk(Abs(), i);
      PinKeeps(Abs(), i, entries[i].refCount - 1);
      SameRecord(Abs(), WithPins(Abs(), i, entries[i].refCount - 1), log);
      entries := entries[i := entries[i].(refCount := entries[i].refCount - 1)];
    }

    /** bcache_zero_block; -1 when every entry is pinned. */
    method ZeroBlock(b: int) returns (err: int)
      requires Valid() && 0 <= b < |disk|
      modifies this`disk, this`entries, this`freeList, this`lruList, this`unmarked, this`log
      ensures Valid()
      ensures err == if old(InCache(Abs(), b) || HasRoom(Abs())) then 0 else -1
      ensures Contents() == if err == 0 then old(Contents())[b := Zeros(blockSize)] else old(Contents())
      ensures WritesOnlyVictim(old(Abs()), disk) && (old(InCache(Abs(), b)) ==> disk == old(disk))
      ensures err == 0 ==>
        && UseOrder() == Access(old(UseOrder()), Pinned(old(Abs())), |entries|, b)
        && log == old(log) + [Use(b, Pinned(old(Abs())))]
        && KeepsPinned(old(Abs()), Abs(), {b}) && InCache(Abs(), b)
        && PinCount(Abs(), b) == old(PinCount(Abs(), b)) && entries[Holder(Abs(), b)].dirty
        && (old(InCache(Abs(), b)) ==> Holder(Abs(), b) == old(Holder(Abs(), b)))
      ensures err == -1 ==> Abs() == old(Abs()) && log == old(log)
    {
      hide CacheInv, View, Order, Access, Recorded, Cached, Pinned, Slot, Alloc, HasRoom, RemoveAt, Zeros, Holder,
           PinCount, KeepsPinned;
      var i;
      var r := FindBlock(b);
      if r.None? {
        ghost var c := Abs();
        var a := AllocBlock();
        if a.None? {
          return -1;
        }
        AllocWrites(c);
        i := a.value;
        MissIsAccess(c, b, true, Zeros(blockSize));
        MissInOrder(c, b);
        RecordAccess(c, Install(Alloc(c).value.0, i, b, true, Zeros(blockSize)), log, b);
        NoPins(c, b);
        FewerPins(c, Install(Alloc(c).value.0, i, b, true, Zeros(blockSize)), b);
        log := log + [Use(b, Pinned(c))];
        entries := entries[i := entries[i].(blocknum := b)];
        entries := entries[i := entries[i].(data := Zeros(blockSize), dirty := true)];
        assert Abs() == Install(Alloc(c).value.0, i, b, true, Zeros(blockSize));
      } else {
        i := r.value;
        HolderIs(old(Abs()), b, i);
        EntryOk(Abs(), i);
        SamePins(old(Abs()), Abs());
        StorePins(old(Abs()), Abs(), i, Zeros(blockSize), true, unmarked - {i});
        StoreKeeps(Abs(), i, Zeros(blockSize), true, unmarked - {i});
        SameRecord(Abs(), Store(Abs(), i, Zeros(blockSize), true, unmarked - {i}), log);
        entries := entries[i := entries[i].(data := Zeros(blockSize), dirty := true)];
        unmarked := unmarked - {i};
      }
      HolderIs(Abs(), b, i);
      return 0;
    }

    /** bcache_flush: afterwards the device is the view, except where a client still holds an unmarked change. */
    method Flush()
      requires Valid()
      modifies this`disk, this`entries
      ensures Valid() && Contents() == old(Contents()) && UseOrder() == old(UseOrder()) && |disk| == |old(disk)|
      ensures forall i :: i in lruList ==> !entries[i].dirty
      ensures forall b :: 0 <= b < |disk| && (forall i :: i in lruList && entries[i].blocknum == b ==> i !in unmarked) ==>
                disk[b] == Contents()[b]
      ensures unmarked == {} ==> disk == Contents()
      ensures |entries| == |old(entries)| && forall i :: 0 <= i < |entries| ==>
        entries[i] == old(entries)[i].(dirty := entries[i].dirty)
    {
      hide CacheInv, View, Order, Pinned, Recorded;
      ghost var c := Abs();
      LruOk(c);
      var k := 0;
      while k < |lruList|
        invariant 0 <= k <= |lruList| && lruList == old(lruList) && unmarked == old(unmarked)
        invariant Indices(entries, lruList)
        invariant CacheInv(Abs()) && ViewOf(Abs()) == old(ViewOf(Abs())) && OrderOf(Abs()) == old(OrderOf(Abs()))
        invariant forall j :: 0 <= j < k ==> lruList[j] in lruList && !entries[lruList[j]].dirty
        invariant |entries| == |c.entries| && forall i :: 0 <= i < |entries| ==>
            entries[i] == c.entries[i].(dirty := entries[i].dirty)
      {
        var i := lruList[k];
        assert i in lruList;
        EntryOk(Abs(), i);
        if entries[i].dirty {
          WriteBackKeeps(Abs(), i);
          FlushBlock(i);
        }
        k := k + 1;
      }
      SameRecord(c, Abs(), log);
      forall b | 0 <= b < |disk| && (forall i :: i in lruList && entries[i].blocknum == b ==> i !in unmarked)
        ensures disk[b] == ViewOf(Abs())[b]
      {
        CleanCacheIsDisk(Abs(), b);
      }
    }
  }

  lemma ConsDistinct(l: seq<int>, x: int)
    requires Distinct(l) && x !in l
    ensures Distinct([x] + l) && forall y :: y in [x] + l <==> y == x || y in l
  {
  }

  lemma AllocIsClean(c: Cache)
    requires CacheInv(c) && HasRoom(c)
    ensures !Alloc(c).value.0.entries[Alloc(c).value.1].dirty
  {
    if c.free != [] {
      assert c.free[0] in c.free;
    }
  }

  lemma UnpinnedUnique(entries: seq<Entry>, lru: seq<int>, k: nat)
    requires Indices(entries, lru) && k < |lru| && lru[k] in lru && entries[lru[k]].refCount == 0
    requires forall j :: 0 <= j < k ==> lru[j] in lru && entries[lru[j]].refCount != 0
    ensures FirstUnpinned(entries, lru) == k
  {
    var s := FirstUnpinned(entries, lru);
    assert s <= k;
  }

  lemma NoneUnpinned(entries: seq<Entry>, lru: seq<int>)
    requires Indices(entries, lru)
    requires forall j :: 0 <= j < |lru| ==> lru[j] in lru && entries[lru[j]].refCount != 0
    ensures FirstUnpinned(entries, lru) == |lru|
  {
  }

  lemma CachedInOrder(c: Cache, b: int)
    requires CacheInv(c) && InCache(c, b)
    ensures b in OrderOf(c)
  {
    var i :| i in c.lru && c.entries[i].blocknum == b;
    var k :| 0 <= k < |c.lru| && c.lru[k] == i;
    assert OrderOf(c)[k] == b;
  }

  lemma MissInOrder(c: Cache, b: int)
    requires CacheInv(c) && HasRoom(c)
    ensures |OrderOf(c)| < |c.entries| || Victim(OrderOf(c), Pinned(c)) < |OrderOf(c)|
  {
    FirstUnpinnedIsVictim(c);
  }
}
