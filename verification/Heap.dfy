// lib/heap/heap.c: a first-fit allocator over an address-sorted, coalescing free list,
// with 32-bit pointers.
module Heap {
  import opened Basics
  import opened Bits

  const PTR_SIZE: int := 4  // sizeof(void *)
  const HEADER: int := 12  // sizeof(struct alloc_struct_begin)
  const FREE_MIN: int := 12 // sizeof(struct free_heap_chunk)

  // ------------------------------------------------------------- the heap as a tiling

  /** A stretch of the heap: free, or live with the pointer handed to the caller. */
  datatype Tile = Free(len: int) | Live(len: int, ptr: int)

  /** struct free_heap_chunk, and where it is. */
  datatype Chunk = Chunk(base: int, len: int)

  /** The fields of struct alloc_struct_begin that heap_free reads. */
  datatype Header = Header(ptr: int, size: int)

  function Total(t: seq<Tile>): int {
    if t == [] then 0 else t[0].len + Total(t[1..])
  }

  /** The free list: the free tiles in address order. */
  function FreeList(t: seq<Tile>, base: int): seq<Chunk> {
    if t == [] then []
    else (if t[0].Free? then [Chunk(base, t[0].len)] else []) + FreeList(t[1..], base + t[0].len)
  }

  /** The allocation headers, by the pointer they sit in front of. */
  function Headers(t: seq<Tile>, base: int): map<int, Header> {
    if t == [] then map[]
    else
      var rest := Headers(t[1..], base + t[0].len);
      if t[0].Live? then rest[t[0].ptr := Header(base, t[0].len)] else rest
  }

  /** Lengths are multiples of the pointer size and can hold a free chunk; headers lie inside their tile. */
  predicate TileOk(t: Tile, base: int) {
    && t.len >= FREE_MIN && t.len % PTR_SIZE == 0
    && (t.Live? ==> base + HEADER <= t.ptr <= base + t.len)
  }

  predicate TilesOk(t: seq<Tile>, base: int) {
    t == [] || (TileOk(t[0], base) && TilesOk(t[1..], base + t[0].len))
  }

  predicate NoAdjacentFree(t: seq<Tile>) {
    forall i :: 0 <= i < |t| - 1 ==> !(t[i].Free? && t[i+1].Free?)
  }

  predicate HeapInv(t: seq<Tile>, base: int, len: int) {
    TilesOk(t, base) && NoAdjacentFree(t) && Total(t) == len
  }

  // ------------------------------------------------------------- splitting a tiling

  lemma {:induction false} Append(a: seq<Tile>, b: seq<Tile>, base: int)
    ensures Total(a + b) == Total(a) + Total(b)
    ensures FreeList(a + b, base) == FreeList(a, base) + FreeList(b, base + Total(a))
    ensures TilesOk(a + b, base) <==> TilesOk(a, base) && TilesOk(b, base + Total(a))
  {
    if a == [] {
      assert a + b == b;
      assert [] + FreeList(b, base) == FreeList(b, base);
    } else {
      assert (a + b)[1..] == a[1..] + b && (a + b)[0] == a[0];
      Append(a[1..], b, base + a[0].len);
      var h := if a[0].Free? then [Chunk(base, a[0].len)] else [];
      var x, y := FreeList(a[1..], base + a[0].len), FreeList(b, base + Total(a));
      assert h + (x + y) == (h + x) + y;
    }
  }

  lemma Three(a: seq<Tile>, m: seq<Tile>, b: seq<Tile>, base: int)
    ensures Total(a + m + b) == Total(a) + Total(m) + Total(b)
    ensures FreeList(a + m + b, base) ==
            FreeList(a, base) + FreeList(m, base + Total(a)) + FreeList(b, base + Total(a) + Total(m))
    ensures TilesOk(a + m + b, base) <==>
            TilesOk(a, base) && TilesOk(m, base + Total(a)) && TilesOk(b, base + Total(a) + Total(m))
  {
    Append(a + m, b, base);
    Append(a, m, base);
  }

  /** The free list is sorted by address, disjoint, and inside the tiled range. */
  lemma {:induction false} FreeListSorted(t: seq<Tile>, base: int)
    requires TilesOk(t, base)
    ensures Total(t) >= 0 && (t != [] ==> Total(t) >= FREE_MIN)
    ensures forall i :: 0 <= i < |FreeList(t, base)| ==>
              var c := FreeList(t, base)[i]; base <= c.base && c.len >= FREE_MIN && c.base + c.len <= base + Total(t)
    ensures forall i, j :: 0 <= i < j < |FreeList(t, base)| ==>
              FreeList(t, base)[i].base + FreeList(t, base)[i].len <= FreeList(t, base)[j].base
  {
    if t == [] {
    } else {
      FreeListSorted(t[1..], base + t[0].len);
    }
  }

  lemma One(x: Tile, base: int)
    ensures Total([x]) == x.len
    ensures FreeList([x], base) == if x.Free? then [Chunk(base, x.len)] else []
    ensures TilesOk([x], base) <==> TileOk(x, base)
  {
    assert [x][1..] == [];
  }

  // ------------------------------------------------------------- sizes and alignment

  /** ROUNDUP, as the source writes it. */
  function RoundUp(a: nat, b: nat): nat
    requires 0 < b < U32
  {
    Word32();
    And(a + (b - 1), Not(b - 1, 32))
  }

  lemma RoundUpValue(a: nat, b: nat)
    requires 0 < b < U32 && IsPow2(b) && a + (b - 1) < U32
    ensures RoundUp(a, b) == (a + (b - 1)) - (a + (b - 1)) % b
  {
    hide And;
    Word32();
    var k: nat :| b == Pow2(k);
    if k > 32 {
      Pow2Monotone(32, k);
    }
    ClearLow(a + (b - 1), k, 32);
  }

  /** Past the end of the address space it is zero. */
  lemma RoundUpWraps(a: nat, b: nat)
    requires 0 < b < U32 && IsPow2(b) && U32 <= a + (b - 1) < U32 + b
    ensures RoundUp(a, b) == 0
  {
    hide And, Not;
    Word32();
    var k: nat :| b == Pow2(k);
    if k > 32 {
      Pow2Monotone(32, k);
    }
    ClearLowPast(a + (b - 1), k, 32);
  }

  /** On a power of two that mask expression is the next multiple. */
  lemma RoundUpIsNextMultiple(a: nat, b: nat)
    requires 0 < b < U32 && IsPow2(b) && a + (b - 1) < U32
    ensures RoundUp(a, b) % b == 0 && a <= RoundUp(a, b) < a + b
  {
    hide RoundUp, IsPow2;
    RoundUpValue(a, b);
    RoundDown(a + (b - 1), b);
  }

  lemma RoundDown(x: nat, b: nat)
    requires b > 0
    ensures (x - x % b) % b == 0 && 0 <= x % b < b
  {
    DivModUnique(x - x % b, b, x / b, 0);
  }

  /** Room asked for an allocation: header, minimum chunk, rounding, worst-case alignment, in 32 bits. */
  function Needed(size: nat, alignment: nat): nat {
    var s1 := (size + HEADER) % U32;
    var s2 := if s1 < FREE_MIN then FREE_MIN else s1;
    var s3 := RoundUp(s2, PTR_SIZE);
    if alignment > 0 then (s3 + AtLeast16(alignment)) % U32 else s3
  }

  function AtLeast16(alignment: nat): nat {
    if alignment < 16 then 16 else alignment
  }

  /** The size arithmetic of heap_alloc stays within 32 bits. */
  predicate NoWrap(size: nat, alignment: nat) {
    size + HEADER + (PTR_SIZE - 1) + (if alignment > 0 then AtLeast16(alignment) else 0) < U32
  }

  lemma Wrapped(n: nat)
    requires n < 2 * U32
    ensures n % U32 == if n < U32 then n else n - U32
  {
  }

  /** The rounding cuts its argument to 32 bits as well. */
  lemma RoundUpWord(a: nat)
    requires a < U32
    ensures var r := RoundUp(a, PTR_SIZE); r % 4 == 0 && if a + 3 < U32 then a <= r < a + 4 else r == 0
  {
    hide RoundUp, IsPow2;
    PointerIsPow2();
    if a + 3 < U32 {
      RoundUpIsNextMultiple(a, PTR_SIZE);
    } else {
      RoundUpWraps(a, PTR_SIZE);
    }
  }

  lemma AlignmentBelow(alignment: nat)
    requires AlignmentOk(alignment) && alignment < U32
    ensures AtLeast16(alignment) <= U32 / 2
  {
    if alignment > 0 {
      PowerTest(alignment);
      Word32();
      var k: nat :| alignment == Pow2(k);
      if k >= 32 {
        Pow2Monotone(32, k);
      }
      Pow2Monotone(k, 31);
    }
  }

  /** The room asked for covers header and payload exactly when the arithmetic does not wrap. */
  lemma RoomCoversIff(size: nat, alignment: nat)
    requires size < U32 && alignment < U32 && AlignmentOk(alignment)
    ensures Needed(size, alignment) >= size + HEADER <==> NoWrap(size, alignment)
    ensures NoWrap(size, alignment) ==>
      Needed(size, alignment) == RoundUp(size + HEADER, PTR_SIZE) + if alignment > 0 then AtLeast16(alignment) else 0
  {
    hide RoundUp, AlignmentOk, IsPow2;
    AlignmentFacts(alignment);
    AlignmentBelow(alignment);
    Wrapped(size + HEADER);
    var s1 := (size + HEADER) % U32;
    var s2 := if s1 < FREE_MIN then FREE_MIN else s1;
    RoundUpWord(s2);
    Wrapped(RoundUp(s2, PTR_SIZE) + AtLeast16(alignment));
  }

  /** alignment & (alignment - 1), with the 32-bit wrap at zero. */
  predicate AlignmentOk(alignment: nat) {
    And(alignment, if alignment == 0 then U32 - 1 else alignment - 1) == 0
  }

  /** The test accepts no alignment at all, and the powers of two. */
  lemma AlignmentOkIff(alignment: nat)
    ensures AlignmentOk(alignment) <==> alignment == 0 || IsPow2(alignment)
  {
    hide IsPow2;
    if alignment == 0 {
    } else {
      PowerTest(alignment);
    }
  }

  /** The room for an allocation, in plain arithmetic. */
  function Room(size: nat, alignment: nat): nat {
    (size + HEADER + (PTR_SIZE - 1)) / PTR_SIZE * PTR_SIZE
    + if alignment == 0 then 0 else if alignment < 16 then 16 else alignment
  }

  lemma RoomIs(size: nat, alignment: nat)
    requires AlignmentOk(alignment) && size < U32 && alignment < U32 && NoWrap(size, alignment)
    ensures Needed(size, alignment) == Room(size, alignment)
  {
    hide RoundUp, AlignmentOk, IsPow2;
    RoomCoversIff(size, alignment);
    PointerIsPow2();
    RoundUpIsNextMultiple(size + HEADER, PTR_SIZE);
  }

  /** The pointer returned for a chunk at base. */
  function Place(base: nat, alignment: nat): nat
    requires alignment < U32
  {
    if alignment > 0 then RoundUp(base + HEADER, AtLeast16(alignment)) else base + HEADER
  }

  lemma AlignmentFacts(alignment: nat)
    requires AlignmentOk(alignment)
    ensures alignment > 0 ==> IsPow2(alignment) && IsPow2(AtLeast16(alignment)) && AtLeast16(alignment) % 4 == 0
    ensures alignment > 0 ==> forall x: nat :: x % AtLeast16(alignment) == 0 ==> x % alignment == 0
  {
    if alignment > 0 {
      PowerTest(alignment);
      Word32();
      var k: nat :| alignment == Pow2(k);
      assert AtLeast16(alignment) == Pow2(if k < 4 then 4 else k) by {
        if k < 4 {
          Pow2Monotone(k, 4);
        } else {
          Pow2Monotone(4, k);
        }
      }
      DivideDown(2, if k < 4 then 4 else k, AtLeast16(alignment));
      forall x: nat | x % AtLeast16(alignment) == 0
        ensures x % alignment == 0
      {
        DivideDown(k, if k < 4 then 4 else k, x);
      }
    }
  }

  lemma {:induction false} DivideDown(j: nat, k: nat, x: nat)
    requires j <= k && x % Pow2(k) == 0
    ensures x % Pow2(j) == 0
    decreases k - j
  {
    if j == k {
    } else {
      var q := x / Pow2(k);
      assert x == Pow2(k) * q;
      assert x == Pow2(k - 1) * (2 * q);
      DivModUnique(x, Pow2(k - 1), 2 * q, 0);
      DivideDown(j, k - 1, x);
    }
  }

  /** The room is a multiple of the pointer size, and the aligned payload fits in it behind its header. */
  lemma PlacementFits(base: nat, size: nat, alignment: nat)
    requires AlignmentOk(alignment) && alignment < U32 && NoWrap(size, alignment)
    requires base + Needed(size, alignment) <= U32
    ensures Needed(size, alignment) % PTR_SIZE == 0 && Needed(size, alignment) >= FREE_MIN
    ensures var p := Place(base, alignment);
      && base + HEADER <= p && p + size <= base + Needed(size, alignment)
      && (alignment > 0 ==> p % alignment == 0)
      && (if alignment == 0 then p == base + HEADER
          else p < base + HEADER + AtLeast16(alignment) && p % AtLeast16(alignment) == 0)
  {
    hide RoundUp, IsPow2, AlignmentOk, Needed;
    var s2 := size + HEADER;
    RoomCoversIff(size, alignment);
    PointerIsPow2();
    RoundUpIsNextMultiple(s2, PTR_SIZE);
    if alignment > 0 {
      var a := AtLeast16(alignment);
      AlignmentFacts(alignment);
      assert base + HEADER + a < base + Needed(size, alignment) + 1;
      RoundUpIsNextMultiple(base + HEADER, a);
      SumOfMultiples(RoundUp(s2, PTR_SIZE), a);
    }
  }

  lemma PointerIsPow2()
    ensures IsPow2(PTR_SIZE)
  {
    Word32();
    assert PTR_SIZE == Pow2(2);
  }

  lemma SumOfMultiples(x: int, y: int)
    requires x % 4 == 0 && y % 4 == 0
    ensures (x + y) % 4 == 0
  {
  }

  // ------------------------------------------------------------- inserting a free chunk

  function End(c: Chunk): int {
    c.base + c.len
  }

  /** How many entries the walk passes before it finds one above c. */
  function Position(l: seq<Chunk>, c: Chunk): (i: nat)
    ensures i <= |l|
    ensures forall j :: 0 <= j < i ==> l[j].base <= c.base
    ensures i < |l| ==> c.base < l[i].base
  {
    if l == [] || c.base < l[0].base then 0 else 1 + Position(l[1..], c)
  }

  /** heap_insert_free_chunk: place c by address and merge it with the neighbours it touches. */
  function InsertChunk(l: seq<Chunk>, c: Chunk): seq<Chunk> {
    InsertAt(l, c, Position(l, c))
  }

  function InsertAt(l: seq<Chunk>, c: Chunk, i: nat): seq<Chunk>
    requires i <= |l|
  {
    var prev := i > 0 && End(l[i-1]) == c.base;
    var c1 := if prev then Chunk(l[i-1].base, l[i-1].len + c.len) else c;
    var next := i < |l| && End(c1) == l[i].base;
    var c2 := if next then Chunk(c1.base, c1.len + l[i].len) else c1;
    l[..if prev then i - 1 else i] + [c2] + l[if next then i + 1 else i..]
  }

  lemma {:induction false} PositionAt(l: seq<Chunk>, c: Chunk, i: nat)
    requires i <= |l| && (forall j :: 0 <= j < i ==> l[j].base <= c.base) && (i < |l| ==> c.base < l[i].base)
    ensures Position(l, c) == i
  {
    if i == 0 {
    } else {
      PositionAt(l[1..], c, i - 1);
    }
  }

  lemma InsertMerges(l: seq<Chunk>, c: Chunk, i: nat, p: nat, n: nat)
    requires p <= 1 && n <= 1 && p <= i && i + n <= |l|
    requires (i > 0 && End(l[i-1]) == c.base) <==> p == 1
    requires (i < |l| && End(c) == l[i].base) <==> n == 1
    ensures InsertAt(l, c, i) ==
            l[..i-p]
            + [Chunk(if p == 0 then c.base else l[i-1].base,
                     (if p == 0 then 0 else l[i-1].len) + c.len + (if n == 0 then 0 else l[i].len))]
            + l[i+n..]
  {
  }

  /** Insertion between the part of the list that ends at or before c and the part that starts at or after its end. */
  lemma InsertBetween(f: seq<Chunk>, pm: seq<Chunk>, nm: seq<Chunk>, g: seq<Chunk>, c: Chunk)
    requires |pm| <= 1 && |nm| <= 1 && c.len > 0
    requires forall j :: 0 <= j < |f| ==> f[j].len > 0 && End(f[j]) <= c.base && (pm == [] ==> End(f[j]) < c.base)
    requires pm != [] ==> pm[0].len > 0 && End(pm[0]) == c.base
    requires nm != [] ==> nm[0].base == End(c)
    requires forall j :: 0 <= j < |g| ==> g[j].base >= End(c) && (nm == [] ==> g[j].base > End(c))
    ensures InsertChunk(f + pm + nm + g, c) ==
            f + [Chunk(if pm == [] then c.base else pm[0].base,
                       (if pm == [] then 0 else pm[0].len) + c.len + (if nm == [] then 0 else nm[0].len))] + g
  {
    hide Position, InsertAt;
    Pieces(f, pm, nm, g);
    TouchesOnly(f, pm, nm, g, c);
    InsertMerges(f + pm + nm + g, c, |f| + |pm|, |pm|, |nm|);
  }

  /** Where c goes, and that it touches just the pieces next to it. */
  lemma TouchesOnly(f: seq<Chunk>, pm: seq<Chunk>, nm: seq<Chunk>, g: seq<Chunk>, c: Chunk)
    requires |pm| <= 1 && |nm| <= 1 && c.len > 0
    requires forall j :: 0 <= j < |f| ==> f[j].len > 0 && End(f[j]) <= c.base && (pm == [] ==> End(f[j]) < c.base)
    requires pm != [] ==> pm[0].len > 0 && End(pm[0]) == c.base
    requires nm != [] ==> nm[0].base == End(c)
    requires forall j :: 0 <= j < |g| ==> g[j].base >= End(c) && (nm == [] ==> g[j].base > End(c))
    ensures var l := f + pm + nm + g; var i := |f| + |pm|;
      && Position(l, c) == i
      && ((i > 0 && End(l[i-1]) == c.base) <==> |pm| == 1)
      && ((i < |l| && End(c) == l[i].base) <==> |nm| == 1)
  {
    hide Position;
    Pieces(f, pm, nm, g);
    PositionAt(f + pm + nm + g, c, |f| + |pm|);
  }

  lemma Pieces<T>(f: seq<T>, pm: seq<T>, nm: seq<T>, g: seq<T>)
    requires |pm| <= 1 && |nm| <= 1
    ensures var l := f + pm + nm + g; var i := |f| + |pm|;
      && |l| == i + |nm| + |g|
      && l[..|f|] == f && l[i + |nm|..] == g
      && (forall j :: 0 <= j < i ==> l[j] == if j < |f| then f[j] else pm[0])
      && (i < |l| ==> l[i] == if nm != [] then nm[0] else g[0])
  {
  }

  // ------------------------------------------------------------- allocate and free on tilings

  function FirstFit(t: seq<Tile>, need: int): (k: nat)
    ensures k <= |t|
    ensures k < |t| ==> t[k].Free? && t[k].len >= need
    ensures forall i :: 0 <= i < k ==> !(t[i].Free? && t[i].len >= need)
  {
    if t == [] || (t[0].Free? && t[0].len >= need) then 0 else 1 + FirstFit(t[1..], need)
  }

  /** Tile k with its first need bytes taken, or all of it when the rest could not hold a chunk. */
  function Taken(t: seq<Tile>, k: nat, need: int, ptr: int): seq<Tile>
    requires k < |t|
  {
    t[..k] + SplitTile(t[k].len, need, ptr) + t[k+1..]
  }

  function SplitTile(n: int, need: int, ptr: int): seq<Tile> {
    if n > need + FREE_MIN then [Live(need, ptr), Free(n - need)] else [Live(n, ptr)]
  }

  function Start(t: seq<Tile>, base: int, k: nat): int
    requires k <= |t|
  {
    base + Total(t[..k])
  }

  /** heap_alloc: the tiling afterwards and the pointer, 0 for NULL. */
  function Allocate(t: seq<Tile>, base: int, size: nat, alignment: nat): (seq<Tile>, int)
    requires alignment < U32 && base >= 0 && forall x :: x in t ==> x.len >= 0
  {
    if !AlignmentOk(alignment) then (t, 0)
    else
      var need := Needed(size, alignment);
      var k := FirstFit(t, need);
      if k == |t| then (t, 0)
      else
        TotalNonNegative(t[..k]);
        var p := Place(Start(t, base, k), alignment);
        (Taken(t, k, need, p), p)
  }

  lemma {:induction false} TotalNonNegative(t: seq<Tile>)
    requires forall x :: x in t ==> x.len >= 0
    ensures Total(t) >= 0
  {
    if t == [] {
    } else {
      assert t[0] in t;
      TotalNonNegative(t[1..]);
    }
  }

  function Find(t: seq<Tile>, ptr: int): (k: nat)
    ensures k <= |t|
    ensures k < |t| ==> t[k].Live? && t[k].ptr == ptr
    ensures forall i :: 0 <= i < k ==> !(t[i].Live? && t[i].ptr == ptr)
  {
    if t == [] || (t[0].Live? && t[0].ptr == ptr) then 0 else 1 + Find(t[1..], ptr)
  }

  function PrevFree(t: seq<Tile>, k: nat): seq<Tile>
    requires k < |t|
  {
    if k > 0 && t[k-1].Free? then [t[k-1]] else []
  }

  function NextFree(t: seq<Tile>, k: nat): seq<Tile>
    requires k < |t|
  {
    if k + 1 < |t| && t[k+1].Free? then [t[k+1]] else []
  }

  /** Tile k freed and merged with the free tiles next to it. */
  function Freed(t: seq<Tile>, k: nat): seq<Tile>
    requires k < |t|
  {
    var pm, nm := PrevFree(t, k), NextFree(t, k);
    t[..k - |pm|] + [Free(Total(pm) + t[k].len + Total(nm))] + t[k + 1 + |nm|..]
  }

  /** heap_free on a live pointer. */
  function Release(t: seq<Tile>, ptr: int): seq<Tile> {
    var k := Find(t, ptr);
    if k == |t| then t else Freed(t, k)
  }

  lemma {:induction false} TileAt(t: seq<Tile>, base: int, k: nat)
    requires TilesOk(t, base) && k < |t|
    ensures TileOk(t[k], Start(t, base, k))
    ensures t == t[..k] + [t[k]] + t[k+1..]
    ensures TilesOk(t[..k], base) && TilesOk(t[k+1..], Start(t, base, k) + t[k].len)
    ensures Total(t) == Total(t[..k]) + t[k].len + Total(t[k+1..])
    ensures FreeList(t, base) ==
            FreeList(t[..k], base) + FreeList([t[k]], Start(t, base, k)) + FreeList(t[k+1..], Start(t, base, k) + t[k].len)
  {
    assert t == t[..k] + [t[k]] + t[k+1..];
    Three(t[..k], [t[k]], t[k+1..], base);
    One(t[k], Start(t, base, k));
  }

  lemma TakenKeepsInv(t: seq<Tile>, base: int, len: int, k: nat, need: int, ptr: int)
    requires HeapInv(t, base, len) && k < |t| && t[k].Free? && t[k].len >= need
    requires need >= FREE_MIN && need % PTR_SIZE == 0
    requires Start(t, base, k) + HEADER <= ptr <= Start(t, base, k) + need
    ensures HeapInv(Taken(t, k, need, ptr), base, len)
    ensures var n := t[k].len; var b := Start(t, base, k);
      && FreeList(t, base) == FreeList(t[..k], base) + [Chunk(b, n)] + FreeList(t[k+1..], b + n)
      && FreeList(Taken(t, k, need, ptr), base) ==
           FreeList(t[..k], base)
           + (if n > need + FREE_MIN then [Chunk(b + need, n - need)] else [])
           + FreeList(t[k+1..], b + n)
  {
    hide FreeList, TilesOk, NoAdjacentFree, Total;
    var b := Start(t, base, k);
    TileAt(t, base, k);
    One(t[k], b);
    SplitTiles(t[k].len, need, ptr, b);
    Three(t[..k], SplitTile(t[k].len, need, ptr), t[k+1..], base);
    TakenAdjacent(t, k, need, ptr);
  }

  /** The same change seen on the free list, at the chunk's place in it. */
  lemma TakenList(t: seq<Tile>, base: int, len: int, k: nat, need: int, ptr: int)
    requires HeapInv(t, base, len) && k < |t| && t[k].Free? && t[k].len >= need
    requires need >= FREE_MIN && need % PTR_SIZE == 0
    requires Start(t, base, k) + HEADER <= ptr <= Start(t, base, k) + need
    ensures var fl := FreeList(t, base); var j := |FreeList(t[..k], base)|; var n := t[k].len; var b := Start(t, base, k);
      && j < |fl|
      && FreeList(Taken(t, k, need, ptr), base) ==
           fl[..j] + (if n > need + FREE_MIN then [Chunk(b + need, n - need)] else []) + fl[j+1..]
  {
    hide FreeList, TilesOk, NoAdjacentFree, Total, Taken, Start;
    TakenKeepsInv(t, base, len, k, need, ptr);
    var fa, fb := FreeList(t[..k], base), FreeList(t[k+1..], Start(t, base, k) + t[k].len);
    var fl := fa + [Chunk(Start(t, base, k), t[k].len)] + fb;
    assert fl[..|fa|] == fa && fl[|fa|+1..] == fb;
  }

  lemma SplitTiles(n: int, need: int, ptr: int, b: int)
    requires n >= need >= FREE_MIN && need % PTR_SIZE == 0 && n % PTR_SIZE == 0 && b + HEADER <= ptr <= b + need
    ensures var m := SplitTile(n, need, ptr);
      TilesOk(m, b) && Total(m) == n && FreeList(m, b) == if n > need + FREE_MIN then [Chunk(b + need, n - need)] else []
  {
    if n > need + FREE_MIN {
      var x, y := Live(need, ptr), Free(n - need);
      assert [x, y] == [x] + [y];
      Append([x], [y], b);
      One(x, b);
      One(y, b + need);
    } else {
      One(Live(n, ptr), b);
    }
  }

  lemma TakenAdjacent(t: seq<Tile>, k: nat, need: int, ptr: int)
    requires NoAdjacentFree(t) && k < |t| && t[k].Free?
    ensures NoAdjacentFree(Taken(t, k, need, ptr))
  {
    var r := Taken(t, k, need, ptr);
    var n := |SplitTile(t[k].len, need, ptr)|;
    assert r[k].Live?;
    forall i | 0 <= i < |r| - 1
      ensures !(r[i].Free? && r[i+1].Free?)
    {
      assert i < k ==> r[i] == t[i];
      assert i + 1 < k ==> r[i+1] == t[i+1];
      assert i >= k + n ==> r[i] == t[i - n + 1];
      assert i + 1 >= k + n ==> r[i+1] == t[i + 1 - n + 1];
    }
  }

  /** A tiling around a live tile: the free tiles next to it, and the rest. */
  lemma Neighbourhood(t: seq<Tile>, base: int, k: nat)
      returns (a: seq<Tile>, pm: seq<Tile>, nm: seq<Tile>, g: seq<Tile>)
    requires TilesOk(t, base) && NoAdjacentFree(t) && k < |t| && t[k].Live?
    ensures pm == PrevFree(t, k) && nm == NextFree(t, k)
    ensures a + pm == t[..k] && nm + g == t[k+1..]
    ensures Freed(t, k) == a + [Free(Total(pm) + t[k].len + Total(nm))] + g
    ensures |pm| <= 1 && |nm| <= 1 && (pm != [] ==> pm[0].Free?) && (nm != [] ==> nm[0].Free?)
    ensures (a != [] ==> !a[|a|-1].Free?) && (g != [] ==> !g[0].Free?)
  {
    pm, nm := PrevFree(t, k), NextFree(t, k);
    a, g := t[..k - |pm|], t[k + 1 + |nm|..];
  }

  lemma NeighbourhoodLists(t: seq<Tile>, base: int, k: nat, a: seq<Tile>, pm: seq<Tile>, nm: seq<Tile>, g: seq<Tile>)
    requires TilesOk(t, base) && k < |t| && t[k].Live? && a + pm == t[..k] && nm + g == t[k+1..]
    ensures var b := base + Total(a) + Total(pm); var e := b + t[k].len;
      && Start(t, base, k) == b && TileOk(t[k], b)
      && Total(t) == Total(a) + Total(pm) + t[k].len + Total(nm) + Total(g)
      && FreeList(t, base) ==
           FreeList(a, base) + FreeList(pm, base + Total(a)) + FreeList(nm, e) + FreeList(g, e + Total(nm))
      && TilesOk(a, base) && TilesOk(pm, base + Total(a)) && TilesOk(nm, e) && TilesOk(g, e + Total(nm))
  {
    hide FreeList, TilesOk, Total;
    TileAt(t, base, k);
    One(t[k], Start(t, base, k));
    Append(a, pm, base);
    Append(nm, g, Start(t, base, k) + t[k].len);
    var fa, fp := FreeList(a, base), FreeList(pm, base + Total(a));
    var fn, fg := FreeList(nm, Start(t, base, k) + t[k].len), FreeList(g, Start(t, base, k) + t[k].len + Total(nm));
    assert (fa + fp) + [] + (fn + fg) == fa + fp + fn + fg;
  }

  lemma FreedKeepsInv(t: seq<Tile>, base: int, len: int, k: nat)
    requires HeapInv(t, base, len) && k < |t| && t[k].Live?
    ensures HeapInv(Freed(t, k), base, len)
    ensures FreeList(Freed(t, k), base) == InsertChunk(FreeList(t, base), Chunk(Start(t, base, k), t[k].len))
  {
    hide FreeList, TilesOk, NoAdjacentFree, Total, InsertChunk, PrevFree, NextFree, Start, Freed;
    var a, pm, nm, g := Neighbourhood(t, base, k);
    FreedAdjacent(t, k);
    var m := Free(Total(pm) + t[k].len + Total(nm));
    NeighbourhoodLists(t, base, k, a, pm, nm, g);
    FreedTiles(a, pm, t[k], nm, g, base);
    FreedList(a, pm, t[k], nm, g, base);
  }

  lemma FreedTiles(a: seq<Tile>, pm: seq<Tile>, x: Tile, nm: seq<Tile>, g: seq<Tile>, base: int)
    requires |pm| <= 1 && |nm| <= 1 && (pm != [] ==> pm[0].Free?) && (nm != [] ==> nm[0].Free?) && x.Live?
    requires TilesOk(a, base) && TilesOk(pm, base + Total(a))
    requires var b := base + Total(a) + Total(pm); var e := b + x.len;
      TileOk(x, b) && TilesOk(nm, e) && TilesOk(g, e + Total(nm))
    ensures var r := a + [Free(Total(pm) + x.len + Total(nm))] + g;
      && TilesOk(r, base) && Total(r) == Total(a) + Total(pm) + x.len + Total(nm) + Total(g)
      && FreeList(r, base) ==
           FreeList(a, base)
           + [Chunk(base + Total(a), Total(pm) + x.len + Total(nm))]
           + FreeList(g, base + Total(a) + Total(pm) + x.len + Total(nm))
  {
    hide FreeList, TilesOk, Total;
    var m := Free(Total(pm) + x.len + Total(nm));
    SingleFree(pm, base + Total(a));
    SingleFree(nm, base + Total(a) + Total(pm) + x.len);
    One(m, base + Total(a));
    Three(a, [m], g, base);
  }

  lemma FreedList(a: seq<Tile>, pm: seq<Tile>, x: Tile, nm: seq<Tile>, g: seq<Tile>, base: int)
    requires |pm| <= 1 && |nm| <= 1 && (pm != [] ==> pm[0].Free?) && (nm != [] ==> nm[0].Free?) && x.Live?
    requires a != [] ==> !a[|a|-1].Free?
    requires g != [] ==> !g[0].Free?
    requires TilesOk(a, base) && TilesOk(pm, base + Total(a))
    requires var b := base + Total(a) + Total(pm); var e := b + x.len;
      TileOk(x, b) && TilesOk(nm, e) && TilesOk(g, e + Total(nm))
    ensures var b := base + Total(a) + Total(pm); var e := b + x.len;
      InsertChunk(FreeList(a, base) + FreeList(pm, base + Total(a)) + FreeList(nm, e) + FreeList(g, e + Total(nm)),
                  Chunk(b, x.len)) ==
      FreeList(a, base) + [Chunk(base + Total(a), Total(pm) + x.len + Total(nm))] + FreeList(g, e + Total(nm))
  {
    hide FreeList, TilesOk, Total, InsertChunk;
    var b := base + Total(a) + Total(pm);
    var e := b + x.len;
    SingleFree(pm, base + Total(a));
    SingleFree(nm, e);
    EndsBefore(a, base);
    StartsAfter(g, e + Total(nm));
    InsertBetween(FreeList(a, base), FreeList(pm, base + Total(a)), FreeList(nm, e), FreeList(g, e + Total(nm)), Chunk(b, x.len));
  }

  lemma SingleFree(pm: seq<Tile>, base: int)
    requires |pm| <= 1 && (pm != [] ==> pm[0].Free?)
    ensures Total(pm) == if pm == [] then 0 else pm[0].len
    ensures FreeList(pm, base) == if pm == [] then [] else [Chunk(base, pm[0].len)]
    ensures TilesOk(pm, base) ==> pm == [] || TileOk(pm[0], base)
  {
    if pm != [] {
      assert pm == [pm[0]];
      One(pm[0], base);
    }
  }

  lemma FreedAdjacent(t: seq<Tile>, k: nat)
    requires NoAdjacentFree(t) && k < |t| && t[k].Live?
    ensures NoAdjacentFree(Freed(t, k))
  {
    var pm, nm := PrevFree(t, k), NextFree(t, k);
    var r, p := Freed(t, k), k - |pm|;
    forall i | 0 <= i < |r| - 1
      ensures !(r[i].Free? && r[i+1].Free?)
    {
      assert i < p ==> r[i] == t[i];
      assert i + 1 < p ==> r[i+1] == t[i+1];
      assert i + 1 > p ==> r[i+1] == t[i + 1 + |pm| + |nm|];
      assert i > p ==> r[i] == t[i + |pm| + |nm|];
    }
  }

  /** A free list ends strictly before the end of its tiles if the last tile is live. */
  lemma LastTile(a: seq<Tile>, base: int)
    requires TilesOk(a, base) && a != []
    ensures TilesOk(a[..|a|-1], base) && a[|a|-1].len >= FREE_MIN
  {
    hide TilesOk;
    var n := |a| - 1;
    assert a == a[..n] + [a[n]];
    Append(a[..n], [a[n]], base);
    One(a[n], base + Total(a[..n]));
  }

  lemma EndsBefore(a: seq<Tile>, base: int)
    requires TilesOk(a, base) && (a != [] ==> !a[|a|-1].Free?)
    ensures forall j :: 0 <= j < |FreeList(a, base)| ==>
              FreeList(a, base)[j].len > 0 && End(FreeList(a, base)[j]) < base + Total(a)
  {
    hide TilesOk, FreeList, Total;
    if a == [] {
      NoTiles(base);
    } else {
      var n := |a| - 1;
      assert a == a[..n] + [a[n]];
      LastTile(a, base);
      Append(a[..n], [a[n]], base);
      One(a[n], base + Total(a[..n]));
      FreeListSorted(a[..n], base);
      assert FreeList(a, base) == FreeList(a[..n], base) + [];
    }
  }

  /** A free list starts strictly after the start of its tiles if the first tile is live. */
  lemma StartsAfter(g: seq<Tile>, base: int)
    requires TilesOk(g, base) && (g != [] ==> !g[0].Free?)
    ensures forall j :: 0 <= j < |FreeList(g, base)| ==> FreeList(g, base)[j].base > base
  {
    if g != [] {
      FreeListSorted(g[1..], base + g[0].len);
      assert FreeList(g, base) == [] + FreeList(g[1..], base + g[0].len);
    }
  }

  // ------------------------------------------------------------- live allocations

  lemma {:induction false} HeadersAppend(a: seq<Tile>, b: seq<Tile>, base: int)
    ensures Headers(a + b, base) == Headers(b, base + Total(a)) + Headers(a, base)
  {
    if a == [] {
      assert a + b == b;
    } else {
      assert (a + b)[1..] == a[1..] + b && (a + b)[0] == a[0];
      HeadersAppend(a[1..], b, base + a[0].len);
    }
  }

  lemma HeadersOne(x: Tile, base: int)
    ensures Headers([x], base) == if x.Live? then map[x.ptr := Header(base, x.len)] else map[]
  {
    assert [x][1..] == [];
  }

  lemma {:induction false} HeadersRange(t: seq<Tile>, base: int)
    requires TilesOk(t, base)
    ensures Total(t) >= 0
    ensures forall p :: p in Headers(t, base) ==>
              var h := Headers(t, base)[p];
              base <= h.ptr && h.ptr + HEADER <= p <= h.ptr + h.size <= base + Total(t)
  {
    if t == [] {
    } else {
      HeadersRange(t[1..], base + t[0].len);
    }
  }

  /** The headers of a tiling around tile k. */
  lemma HeadersAround(t: seq<Tile>, base: int, k: nat)
    requires TilesOk(t, base) && k < |t|
    ensures var b := Start(t, base, k);
      Headers(t, base) == Headers(t[k+1..], b + t[k].len) + Headers([t[k]], b) + Headers(t[..k], base)
  {
    hide Headers, TilesOk;
    assert t == t[..k] + ([t[k]] + t[k+1..]);
    HeadersAppend(t[..k], [t[k]] + t[k+1..], base);
    HeadersAppend([t[k]], t[k+1..], Start(t, base, k));
    One(t[k], Start(t, base, k));
  }

  /** A live pointer's header describes exactly the tile it was allocated from. */
  lemma {:induction false} FindIsHeader(t: seq<Tile>, base: int, p: int)
    requires TilesOk(t, base)
    ensures p in Headers(t, base) <==> Find(t, p) < |t|
    ensures var k := Find(t, p); k < |t| ==> Headers(t, base)[p] == Header(Start(t, base, k), t[k].len)
  {
    if t == [] {
    } else {
      FindIsHeader(t[1..], base + t[0].len, p);
      var k := Find(t, p);
      if 0 < k < |t| {
        assert t[..k] == [t[0]] + t[1..][..k-1];
        HeadersRange(t[1..], base + t[0].len);
      }
    }
  }

  /** Different live allocations occupy disjoint stretches of the heap. */
  lemma {:induction false} LiveDisjoint(t: seq<Tile>, base: int, p: int, q: int)
    requires TilesOk(t, base) && p in Headers(t, base) && q in Headers(t, base) && p != q
    ensures var h, g := Headers(t, base)[p], Headers(t, base)[q];
      h.ptr + h.size <= g.ptr || g.ptr + g.size <= h.ptr
  {
    if t == [] {
    } else {
      var rest := Headers(t[1..], base + t[0].len);
      HeadersRange(t[1..], base + t[0].len);
      if p in rest && q in rest {
        LiveDisjoint(t[1..], base + t[0].len, p, q);
      }
    }
  }

  lemma TakenHeaders(t: seq<Tile>, base: int, k: nat, need: int, ptr: int)
    requires TilesOk(t, base) && k < |t| && t[k].Free? && t[k].len >= need
    requires need >= FREE_MIN && need % PTR_SIZE == 0
    requires Start(t, base, k) + HEADER <= ptr <= Start(t, base, k) + need
    ensures ptr !in Headers(t, base)
    ensures Headers(Taken(t, k, need, ptr), base) ==
            Headers(t, base)[ptr := Header(Start(t, base, k), SplitTile(t[k].len, need, ptr)[0].len)]
  {
    hide TilesOk, Headers, Total;
    var b := Start(t, base, k);
    var m := SplitTile(t[k].len, need, ptr);
    HeadersAround(t, base, k);
    HeadersOne(t[k], b);
    HeadersAppend(t[..k] + m, t[k+1..], base);
    HeadersAppend(t[..k], m, base);
    TileAt(t, base, k);
    SplitTiles(t[k].len, need, ptr, b);
    Append(t[..k], m, base);
    HeadersRange(t[..k], base);
    HeadersRange(t[k+1..], b + t[k].len);
    SplitHeaders(t[k].len, need, ptr, b);
  }

  lemma SplitHeaders(n: int, need: int, ptr: int, b: int)
    ensures Headers(SplitTile(n, need, ptr), b) == map[ptr := Header(b, SplitTile(n, need, ptr)[0].len)]
  {
    var m := SplitTile(n, need, ptr);
    HeadersOne(m[0], b);
    if |m| == 2 {
      assert m == [m[0]] + [m[1]];
      HeadersAppend([m[0]], [m[1]], b);
      HeadersOne(m[1], b + Total([m[0]]));
    }
  }

  lemma FreedHeaders(t: seq<Tile>, base: int, k: nat)
    requires TilesOk(t, base) && NoAdjacentFree(t) && k < |t| && t[k].Live?
    ensures Headers(Freed(t, k), base) == Headers(t, base) - {t[k].ptr}
  {
    hide TilesOk, NoAdjacentFree, Headers, Total, Freed, PrevFree, NextFree, FreeList;
    var a, pm, nm, g := Neighbourhood(t, base, k);
    NeighbourhoodLists(t, base, k, a, pm, nm, g);
    HeadersAround(t, base, k);
    HeadersAppend(a, pm, base);
    HeadersAppend(nm, g, Start(t, base, k) + t[k].len);
    MergedHeaders(a, pm, t[k], nm, g, base);
  }

  lemma MergedHeaders(a: seq<Tile>, pm: seq<Tile>, x: Tile, nm: seq<Tile>, g: seq<Tile>, base: int)
    requires |pm| <= 1 && |nm| <= 1 && (pm != [] ==> pm[0].Free?) && (nm != [] ==> nm[0].Free?) && x.Live?
    requires TilesOk(a, base) && TilesOk(pm, base + Total(a))
    requires var b := base + Total(a) + Total(pm); var e := b + x.len;
      TileOk(x, b) && TilesOk(nm, e) && TilesOk(g, e + Total(nm))
    ensures var b := base + Total(a) + Total(pm); var e := b + x.len;
      Headers(a + [Free(Total(pm) + x.len + Total(nm))] + g, base) ==
      ((Headers(g, e + Total(nm)) + Headers(nm, e)) + Headers([x], b)
       + (Headers(pm, base + Total(a)) + Headers(a, base))) - {x.ptr}
  {
    hide TilesOk, Headers, Total;
    var b := base + Total(a) + Total(pm);
    var e := b + x.len;
    var m := Free(Total(pm) + x.len + Total(nm));
    HeadersOne(x, b);
    FreeHeaders(pm, base + Total(a));
    FreeHeaders(nm, e);
    One(m, base + Total(a));
    HeadersAppend(a + [m], g, base);
    HeadersAppend(a, [m], base);
    HeadersOne(m, base + Total(a));
    Append(a, [m], base);
    HeadersRange(a, base);
    HeadersRange(pm, base + Total(a));
    HeadersRange(nm, e);
    HeadersRange(g, e + Total(nm));
    DropKey(Headers(g, e + Total(nm)), Headers(a, base), x.ptr, Header(b, x.len));
  }

  lemma DropKey(g: map<int, Header>, a: map<int, Header>, p: int, h: Header)
    requires p !in g && p !in a
    ensures ((g + map[]) + map[p := h] + (map[] + a)) - {p} == g + (map[] + a)
  {
  }

  lemma FreeHeaders(pm: seq<Tile>, base: int)
    requires |pm| <= 1 && (pm != [] ==> pm[0].Free?)
    ensures Headers(pm, base) == map[]
  {
    if pm != [] {
      assert pm == [pm[0]];
      HeadersOne(pm[0], base);
    }
  }

  // ------------------------------------------------------------- what the calls promise

  lemma LensPositive(t: seq<Tile>, base: int)
    requires TilesOk(t, base)
    ensures forall x :: x in t ==> x.len >= FREE_MIN
  {
    if t == [] {
    } else {
      LensPositive(t[1..], base + t[0].len);
    }
  }

  lemma {:induction false} FreeTileInList(t: seq<Tile>, base: int, need: int)
    requires TilesOk(t, base)
    ensures var k := FirstFit(t, need);
      if k == |t| then forall j :: 0 <= j < |FreeList(t, base)| ==> FreeList(t, base)[j].len < need
      else
        var j := |FreeList(t[..k], base)|;
        && j < |FreeList(t, base)| && FreeList(t, base)[j] == Chunk(Start(t, base, k), t[k].len)
        && forall i :: 0 <= i < j ==> FreeList(t, base)[i].len < need
  {
    if t == [] {
    } else {
      var k := FirstFit(t, need);
      if k > 0 {
        FreeTileInList(t[1..], base + t[0].len, need);
        assert k < |t| ==> t[..k] == [t[0]] + t[1..][..k-1] && t[..k][1..] == t[1..][..k-1];
      } else {
        assert t[..0] == [];
      }
    }
  }

  /** The three views of the heap after an allocation from tile k. */
  lemma AllocEffect(t: seq<Tile>, base: int, len: int, k: nat, size: nat, alignment: nat)
    requires HeapInv(t, base, len) && 0 < base && base + len <= U32
    requires alignment < U32 && NoWrap(size, alignment) && AlignmentOk(alignment)
    requires k < |t| && t[k].Free? && t[k].len >= Needed(size, alignment)
    ensures Start(t, base, k) >= 0
    ensures var need := Needed(size, alignment); var b := Start(t, base, k); var n := t[k].len;
      var p := Place(b, alignment); var r := Taken(t, k, need, p);
      var fl := FreeList(t, base); var j := |FreeList(t[..k], base)|;
      && HeapInv(r, base, len)
      && j < |fl|
      && FreeList(r, base) == fl[..j] + (if n > need + FREE_MIN then [Chunk(b + need, n - need)] else []) + fl[j+1..]
      && p !in Headers(t, base)
      && Headers(r, base) == Headers(t, base)[p := Header(b, if n > need + FREE_MIN then need else n)]
      && PlacedFirst(b, alignment, p) && p + size <= b + need
  {
    hide FreeList, TilesOk, NoAdjacentFree, Total, Headers, RoundUp, Needed, Place, Taken, NoWrap, AlignmentOk, Start;
    TileBounds(t, base, k);
    var b := Start(t, base, k);
    var need := Needed(size, alignment);
    PlacementFits(b, size, alignment);
    TakenKeepsInv(t, base, len, k, need, Place(b, alignment));
    TakenList(t, base, len, k, need, Place(b, alignment));
    TakenHeaders(t, base, k, need, Place(b, alignment));
  }

  /** Entry j is the first with that room. */
  ghost predicate FirstWithRoom(fl: seq<Chunk>, need: int, j: nat) {
    j < |fl| && fl[j].len >= need && forall i :: 0 <= i < j ==> fl[i].len < need
  }

  /** The first need bytes of entry j are taken from the list, or all of it if the rest could not hold a free chunk. */
  ghost predicate TakenFrom(fl: seq<Chunk>, fl': seq<Chunk>, hs: map<int, Header>, hs': map<int, Header>, j: nat,
                            need: int, p: int)
    requires j < |fl|
  {
    var c := fl[j];
    var rest := c.len - need;
    && fl' == fl[..j] + (if rest > 12 then [Chunk(c.base + need, rest)] else []) + fl[j+1..]
    && p !in hs && hs' == hs[p := Header(c.base, if rest > 12 then need else c.len)]
  }

  /** The pointer is the first that leaves room for the header and is aligned, to 16 at least if at all. */
  predicate PlacedFirst(base: int, alignment: nat, p: int) {
    if alignment == 0 then p == base + HEADER
    else
      var a := if alignment < 16 then 16 else alignment;
      base + HEADER <= p < base + HEADER + a && p % a == 0 && p % alignment == 0
  }

  /**
   * heap_alloc returns NULL exactly when an alignment is given that is not a power of two,
   * or no free chunk has the room; otherwise it takes the first such chunk, or its first
   * part, and the pointer is the first aligned one behind the header, with the payload
   * before the end of what is taken.
   */
  lemma AllocateIsFirstFit(t: seq<Tile>, base: int, len: int, size: nat, alignment: nat)
    requires HeapInv(t, base, len) && 0 < base && base + len <= U32
    requires alignment < U32 && NoWrap(size, alignment)
    ensures forall x :: x in t ==> x.len >= FREE_MIN
    ensures var need := Room(size, alignment); var fl := FreeList(t, base);
      var (r, p) := Allocate(t, base, size, alignment);
      && HeapInv(r, base, len)
      && (p == 0 <==> !(alignment == 0 || IsPow2(alignment)) || forall j :: 0 <= j < |fl| ==> fl[j].len < need)
      && (p == 0 ==> r == t)
      && (p != 0 ==>
            exists j: nat ::
              && FirstWithRoom(fl, need, j)
              && TakenFrom(fl, FreeList(r, base), Headers(t, base), Headers(r, base), j, need, p)
              && PlacedFirst(fl[j].base, alignment, p) && p + size <= fl[j].base + need)
  {
    hide TilesOk, NoAdjacentFree, Total, AlignmentOk, IsPow2, FreeList, Headers, Room, NoWrap, Needed, Place, Taken,
         Start;
    LensPositive(t, base);
    AlignmentOkIff(alignment);
    var need := Needed(size, alignment);
    var k := FirstFit(t, need);
    FreeTileInList(t, base, need);
    if AlignmentOk(alignment) {
      SizeFits(size, alignment);
      RoomIs(size, alignment);
      if k < |t| {
        AllocEffect(t, base, len, k, size, alignment);
        var j := |FreeList(t[..k], base)|;
        var fl := FreeList(t, base);
        var b := Start(t, base, k);
        var p := Place(b, alignment);
        var r := Taken(t, k, need, p);
        assert Allocate(t, base, size, alignment) == (r, p);
        assert FirstWithRoom(fl, need, j) && fl[j] == Chunk(b, t[k].len);
        assert TakenFrom(fl, FreeList(r, base), Headers(t, base), Headers(r, base), j, need, p);
      }
    }
  }

  lemma SizeFits(size: nat, alignment: nat)
    requires NoWrap(size, alignment)
    ensures size < U32
  {
  }

  /** The sum in the test for a remainder cannot wrap while the heap leaves the lowest addresses alone. */
  lemma SplitTestIsExact(t: seq<Tile>, base: int, len: int, k: nat, need: nat)
    requires HeapInv(t, base, len) && FREE_MIN < base && base + len <= U32 && k < |t| && need <= t[k].len
    ensures (need + FREE_MIN) % U32 == need + FREE_MIN
  {
    hide TilesOk, NoAdjacentFree, Total, Start;
    TileBounds(t, base, k);
    Wrapped(need + FREE_MIN);
  }

  /**
   * Of every pointer returned: its header lies inside the stretch taken, and the payload
   * ends before that stretch does exactly if the size arithmetic has not wrapped.
   */
  lemma PointerCoversIff(t: seq<Tile>, base: int, len: int, size: nat, alignment: nat)
    requires HeapInv(t, base, len) && FREE_MIN < base && base + len <= U32
    requires forall x :: x in t ==> x.len >= FREE_MIN
    requires size < U32 && alignment < U32 && Allocate(t, base, size, alignment).1 != 0
    ensures var p := Allocate(t, base, size, alignment).1;
      var need := Needed(size, alignment); var k := FirstFit(t, need);
      && k < |t|
      && var b := Start(t, base, k);
         var end := b + if t[k].len > need + FREE_MIN then need else t[k].len;
         b + HEADER <= p && (p + size <= end <==> NoWrap(size, alignment))
  {
    hide TilesOk, NoAdjacentFree, Total, RoundUp, AlignmentOk, Needed, Start, IsPow2, Place;
    var need := Needed(size, alignment);
    var k := FirstFit(t, need);
    TileBounds(t, base, k);
    assert t[k] in t;
    var b := Start(t, base, k);
    PlacedBehindHeader(b, alignment);
    if NoWrap(size, alignment) {
      PlacementFits(b, size, alignment);
    } else {
      RoomFallsShort(size, alignment);
    }
  }

  /** A room computed with a wrap is smaller than the payload alone. */
  lemma RoomFallsShort(size: nat, alignment: nat)
    requires size < U32 && alignment < U32 && AlignmentOk(alignment) && !NoWrap(size, alignment)
    ensures Needed(size, alignment) < size
  {
    hide RoundUp, AlignmentOk, IsPow2;
    AlignmentFacts(alignment);
    AlignmentBelow(alignment);
    Wrapped(size + HEADER);
    var s1 := (size + HEADER) % U32;
    var s2 := if s1 < FREE_MIN then FREE_MIN else s1;
    RoundUpWord(s2);
    Wrapped(RoundUp(s2, PTR_SIZE) + AtLeast16(alignment));
  }

  lemma PlacedBehindHeader(b: nat, alignment: nat)
    requires b + HEADER <= U32 && alignment < U32 && AlignmentOk(alignment) && Place(b, alignment) != 0
    ensures b + HEADER <= Place(b, alignment)
  {
    hide RoundUp, AlignmentOk, IsPow2;
    if alignment > 0 {
      var a := AtLeast16(alignment);
      AlignmentFacts(alignment);
      AlignmentBelow(alignment);
      if b + HEADER + (a - 1) < U32 {
        RoundUpIsNextMultiple(b + HEADER, a);
      } else {
        RoundUpWraps(b + HEADER, a);
      }
    }
  }

  lemma TileBounds(t: seq<Tile>, base: int, k: nat)
    requires TilesOk(t, base) && k < |t|
    ensures base <= Start(t, base, k) && Start(t, base, k) + t[k].len <= base + Total(t)
  {
    TileAt(t, base, k);
    HeadersRange(t[..k], base);
    HeadersRange(t[k+1..], Start(t, base, k) + t[k].len);
  }

  /** heap_free of a live pointer removes that allocation and nothing else. */
  lemma ReleaseFrees(t: seq<Tile>, base: int, len: int, ptr: int)
    requires HeapInv(t, base, len) && ptr in Headers(t, base)
    ensures HeapInv(Release(t, ptr), base, len)
    ensures Headers(Release(t, ptr), base) == Headers(t, base) - {ptr}
    ensures var h := Headers(t, base)[ptr];
      FreeList(Release(t, ptr), base) == InsertChunk(FreeList(t, base), Chunk(h.ptr, h.size))
  {
    hide TilesOk, NoAdjacentFree, Headers, FreeList, Freed, InsertChunk, Total;
    var k := Find(t, ptr);
    FindIsHeader(t, base, ptr);
    FreedKeepsInv(t, base, len, k);
    FreedHeaders(t, base, k);
  }

  // ------------------------------------------------------------- whole runs

  datatype Op = Alloc(size: nat, alignment: nat) | Dealloc(ptr: int)

  predicate Allowed(t: seq<Tile>, base: int, op: Op) {
    match op
    case Alloc(size, alignment) => alignment < U32 && NoWrap(size, alignment)
    case Dealloc(ptr) => ptr in Headers(t, base)
  }

  ghost function Next(t: seq<Tile>, base: int, len: int, op: Op): (r: seq<Tile>)
    requires HeapInv(t, base, len) && 0 < base && base + len <= U32 && Allowed(t, base, op)
    ensures HeapInv(r, base, len)
  {
    match op
    case Alloc(size, alignment) =>
      AllocateIsFirstFit(t, base, len, size, alignment);
      Allocate(t, base, size, alignment).0
    case Dealloc(ptr) =>
      ReleaseFrees(t, base, len, ptr);
      Release(t, ptr)
  }

  ghost predicate AllowedRun(t: seq<Tile>, base: int, len: int, ops: seq<Op>)
    requires HeapInv(t, base, len) && 0 < base && base + len <= U32
    decreases |ops|
  {
    ops == [] || (Allowed(t, base, ops[0]) && AllowedRun(Next(t, base, len, ops[0]), base, len, ops[1..]))
  }

  ghost function Run(t: seq<Tile>, base: int, len: int, ops: seq<Op>): (r: seq<Tile>)
    requires HeapInv(t, base, len) && 0 < base && base + len <= U32 && AllowedRun(t, base, len, ops)
    ensures HeapInv(r, base, len)
    decreases |ops|
  {
    if ops == [] then t else Run(Next(t, base, len, ops[0]), base, len, ops[1..])
  }

  lemma {:induction false} LiveHasHeader(t: seq<Tile>, base: int)
    ensures forall x :: x in t && x.Live? ==> x.ptr in Headers(t, base)
  {
    if t == [] {
    } else {
      LiveHasHeader(t[1..], base + t[0].len);
      assert t == [t[0]] + t[1..];
    }
  }

  /** heap_init. */
  function Initial(base: int, len: int): (t: seq<Tile>)
    requires len >= FREE_MIN && len % PTR_SIZE == 0
    ensures HeapInv(t, base, len)
  {
    One(Free(len), base);
    [Free(len)]
  }

  /**
   * After heap_init and any run of allocations and frees, in any order, the live and free
   * chunks tile the heap, the free list is sorted with no two chunks touching, and once
   * everything has been freed the free list is the single initial chunk again.
   */
  lemma FreeingEverythingRestoresTheHeap(base: int, len: int, ops: seq<Op>)
    requires 0 < base && base + len <= U32 && len >= FREE_MIN && len % PTR_SIZE == 0
    requires AllowedRun(Initial(base, len), base, len, ops)
    ensures var r := Run(Initial(base, len), base, len, ops); var fl := FreeList(r, base);
      && TilesOk(r, base) && Total(r) == len
      && (forall i :: 0 <= i < |fl| ==> base <= fl[i].base && End(fl[i]) <= base + len && fl[i].len >= FREE_MIN)
      && (forall i, j :: 0 <= i < j < |fl| ==> End(fl[i]) < fl[j].base)
      && (Headers(r, base) == map[] ==> r == Initial(base, len) && fl == [Chunk(base, len)])
  {
    hide Run, AllowedRun, TilesOk, NoAdjacentFree, FreeList, Headers, Total;
    var r := Run(Initial(base, len), base, len, ops);
    FreeListSorted(r, base);
    GapsBetweenFree(r, base);
    if Headers(r, base) == map[] {
      AllFree(r, base, len);
    }
  }

  /** With nothing live, two free tiles would touch. */
  lemma AllFree(t: seq<Tile>, base: int, len: int)
    requires HeapInv(t, base, len) && len >= FREE_MIN && Headers(t, base) == map[]
    ensures t == [Free(len)] && FreeList(t, base) == [Chunk(base, len)]
  {
    hide TilesOk, Headers, Total, FreeList;
    LiveHasHeader(t, base);
    NoTiles(base);
    if |t| >= 2 {
      TwoTilesHaveLive(t);
    } else {
      assert t == [] || t == [t[0]];
      if t != [] {
        assert t[0] in t;
        One(t[0], base);
      }
    }
  }

  lemma NoTiles(base: int)
    ensures Total([]) == 0 && FreeList([], base) == []
  {
  }

  lemma TwoTilesHaveLive(t: seq<Tile>)
    requires NoAdjacentFree(t) && |t| >= 2
    ensures exists x :: x in t && x.Live?
  {
    assert !(t[0].Free? && t[0 + 1].Free?);
    assert t[0] in t && t[1] in t;
  }

  /** Consecutive free-list entries never touch. */
  lemma {:induction false} GapsBetweenFree(t: seq<Tile>, base: int)
    requires TilesOk(t, base) && NoAdjacentFree(t)
    ensures forall i, j :: 0 <= i < j < |FreeList(t, base)| ==> End(FreeList(t, base)[i]) < FreeList(t, base)[j].base
  {
    if t == [] {
    } else {
      var r := t[1..];
      forall i | 0 <= i < |r| - 1
        ensures !(r[i].Free? && r[i+1].Free?)
      {
        assert r[i] == t[i+1] && r[i+1] == t[i+2];
      }
      GapsBetweenFree(r, base + t[0].len);
      if t[0].Free? {
        assert r != [] ==> !r[0].Free?;
        StartsAfter(r, base + t[0].len);
      }
    }
  }

  // ------------------------------------------------------------- the code

  class HeapObject {
    const base: int
    const len: int
    var freeList: seq<Chunk>
    var headers: map<int, Header>
    ghost var tiles: seq<Tile>

    ghost predicate Valid()
      reads this
    {
      && FREE_MIN < base && base + len <= U32
      && HeapInv(tiles, base, len) && (forall x :: x in tiles ==> x.len >= FREE_MIN)
      && freeList == FreeList(tiles, base)
      && headers == Headers(tiles, base)
    }

    /** heap_init over [base, base + len). */
    constructor (base: int, len: int)
      requires FREE_MIN < base && base + len <= U32 && len >= FREE_MIN && len % PTR_SIZE == 0
      ensures this.base == base && this.len == len
      ensures Valid() && tiles == Initial(base, len)
    {
      this.base, this.len := base, len;
      freeList := [];
      headers := map[];
      tiles := [Free(len)];
      new;
      InsertFreeChunk(Chunk(base, len));
      One(Free(len), base);
      HeadersOne(Free(len), base);
    }

    /** heap_insert_free_chunk: the walk, then the two merges. */
    method InsertFreeChunk(chunk: Chunk)
      modifies this`freeList
      ensures freeList == InsertChunk(old(freeList), chunk)
    {
      var c := chunk;
      var i := 0;
      while i < |freeList| && freeList[i].base <= c.base
        invariant 0 <= i <= |freeList|
        invariant forall j :: 0 <= j < i ==> freeList[j].base <= c.base
      {
        i := i + 1;
      }
      PositionAt(freeList, c, i);
      var before, after := freeList[..i], freeList[i..];
      if i > 0 && freeList[i-1].base + freeList[i-1].len == c.base {
        c := Chunk(freeList[i-1].base, freeList[i-1].len + c.len);
        before := freeList[..i-1];
      }
      if after != [] && c.base + c.len == after[0].base {
        c := Chunk(c.base, c.len + after[0].len);
        after := after[1..];
      }
      freeList := before + [c] + after;
    }

    /** heap_alloc; 0 is NULL. */
    method Alloc(size: nat, alignment: nat) returns (ptr: int)
      requires Valid() && alignment < U32 && NoWrap(size, alignment)
      modifies this
      ensures Valid() && (tiles, ptr) == Allocate(old(tiles), base, size, alignment)
    {
      hide FreeList, TilesOk, NoAdjacentFree, Total, Headers, And, RoundUp, Needed, Place, Taken, NoWrap;
      var mask := if alignment == 0 then U32 - 1 else alignment - 1;
      if And(alignment, mask) != 0 {
        return 0;
      }
      var need := Needed(size, alignment);
      ghost var k := FirstFit(tiles, need);
      FreeTileInList(tiles, base, need);
      var j := 0;
      while j < |freeList| && freeList[j].len < need
        invariant 0 <= j <= |freeList|
        invariant k < |tiles| ==> j <= |FreeList(tiles[..k], base)|
      {
        j := j + 1;
      }
      if j == |freeList| {
        return 0;
      }
      var chunk := freeList[j];
      AllocEffect(tiles, base, len, k, size, alignment);
      SplitTestIsExact(tiles, base, len, k, need);
      ptr := Place(chunk.base, alignment);
      var taken := chunk.len;
      if chunk.len > (need + FREE_MIN) % U32 {
        freeList := freeList[..j] + [Chunk(chunk.base + need, chunk.len - need)] + freeList[j+1..];
        taken := need;
      } else {
        assert freeList[..j] + [] == freeList[..j];
        freeList := freeList[..j] + freeList[j+1..];
      }
      headers := headers[ptr := Header(chunk.base, taken)];
      tiles := Taken(tiles, k, need, ptr);
      LensPositive(tiles, base);
    }

    /** heap_free. */
    method Dealloc(ptr: int)
      requires Valid() && (ptr != 0 ==> ptr in headers)
      modifies this
      ensures Valid()
      ensures tiles == if ptr == 0 then old(tiles) else Release(old(tiles), ptr)
    {
      if ptr == 0 {
        return;
      }
      ReleaseFrees(tiles, base, len, ptr);
      var h := headers[ptr];
      InsertFreeChunk(Chunk(h.ptr, h.size));
      headers := headers - {ptr};
      tiles := Release(tiles, ptr);
      LensPositive(tiles, base);
    }
  }
}
