// lib/bio/subdev.c and lib/partition/partition.c: windows onto a device, and the windows
// an MBR partition table describes.
module Partition {
  import opened Basics
  import opened Bytes
  import opened BlockDevice
  import opened CStrings
  import opened Numbers
  import opened Printf

  /** A disk, or a range of blocks of another device. */
  datatype Dev = Disk | Sub(parent: Dev, start: nat, count: nat)

  function Count(dev: Dev, blocks: nat): nat {
    if dev.Disk? then blocks else dev.count
  }

  // ------------------------------------------------------------- the hooks

  /** subdev->offset * block_size, a product of two 32-bit words. */
  function ByteOffset(start: nat, bs: nat): nat {
    Start(start, bs) % U32
  }

  /** bio_read through the hooks of subdev.c, on a disk with contents d. */
  function Read(dev: Dev, d: seq<Byte>, bs: nat, offset: int, len: nat): (r: seq<Byte>)
    ensures |r| <= len
  {
    match dev
    case Disk => ReadAt(d, offset, len)
    case Sub(parent, start, count) =>
      var n := Clipped(Start(count, bs), offset, len);
      if n == 0 then [] else Read(parent, d, bs, offset + ByteOffset(start, bs), n)
  }

  /** bio_write; bio_erase is the same with zeros. */
  function Write(dev: Dev, d: seq<Byte>, bs: nat, offset: int, b: seq<Byte>): (r: seq<Byte>)
    ensures |r| == |d|
  {
    match dev
    case Disk => WriteAt(d, offset, b)
    case Sub(parent, start, count) =>
      var n := Clipped(Start(count, bs), offset, |b|);
      if n == 0 then d else Write(parent, d, bs, offset + ByteOffset(start, bs), b[..n])
  }

  /** bio_read_block through the hooks; no value when the transfer runs past the end of the disk. */
  function ReadBlocks(dev: Dev, d: seq<Byte>, bs: nat, blocks: nat, block: nat, count: nat): Option<seq<Byte>> {
    var n := ClippedBlocks(Count(dev, blocks), block, count);
    if n == 0 then Some([])
    else
      match dev
      case Disk => if block + n > blocks then None else Some(ReadAt(d, Start(block, bs), Start(n, bs)))
      case Sub(parent, start, _) => ReadBlocks(parent, d, bs, blocks, (block + start) % U32, n)
  }

  /** bio_write_block through the hooks, from a buffer that holds all the blocks. */
  function WriteBlocks(dev: Dev, d: seq<Byte>, bs: nat, blocks: nat, block: nat, count: nat,
                       b: seq<Byte>): Option<seq<Byte>>
    requires |b| == Start(count, bs)
  {
    var n := ClippedBlocks(Count(dev, blocks), block, count);
    ClippedPart(Count(dev, blocks), block, count, bs);
    if n == 0 then Some(d)
    else
      match dev
      case Disk => if block + n > blocks then None else Some(WriteAt(d, Start(block, bs), b[..Start(n, bs)]))
      case Sub(parent, start, _) => WriteBlocks(parent, d, bs, blocks, (block + start) % U32, n, b[..Start(n, bs)])
  }

  lemma ClippedPart(have: nat, block: nat, count: nat, bs: nat)
    ensures Start(ClippedBlocks(have, block, count), bs) <= Start(count, bs)
  {
    var n := ClippedBlocks(have, block, count);
    if n == have - block && block <= have && (block + count) % U32 > have {
      assert (block + count) % U32 <= block + count;
    }
    MulMonotone(n, count, bs);
  }

  /** What is transferred: bytes, or whole blocks. */
  datatype Range = ByteRange(offset: int, len: nat) | BlockRange(block: nat, count: nat)

  function From(r: Range, bs: nat): int {
    if r.ByteRange? then r.offset else Start(r.block, bs)
  }

  function Length(r: Range, bs: nat): nat {
    if r.ByteRange? then r.len else Start(r.count, bs)
  }

  /** A read by either hook. */
  function Load(dev: Dev, d: seq<Byte>, bs: nat, blocks: nat, r: Range): Option<seq<Byte>> {
    match r
    case ByteRange(offset, len) => Some(Read(dev, d, bs, offset, len))
    case BlockRange(block, count) => ReadBlocks(dev, d, bs, blocks, block, count)
  }

  /** The disk after a write by either hook. */
  function Store(dev: Dev, d: seq<Byte>, bs: nat, blocks: nat, r: Range, b: seq<Byte>): Option<seq<Byte>>
    requires |b| == Length(r, bs)
  {
    match r
    case ByteRange(offset, _) => Some(Write(dev, d, bs, offset, b))
    case BlockRange(block, count) => WriteBlocks(dev, d, bs, blocks, block, count, b)
  }

  // ------------------------------------------------------------- windows

  /** Each sub-device lies within its parent. */
  predicate Inside(dev: Dev, blocks: nat) {
    dev.Disk? || (Inside(dev.parent, blocks) && dev.start + dev.count <= Count(dev.parent, blocks))
  }

  /** The byte offsets of the sub-devices fit in 32 bits. */
  predicate NoWrap(dev: Dev, bs: nat) {
    dev.Disk? || (NoWrap(dev.parent, bs) && Start(dev.start, bs) < U32)
  }

  function Base(dev: Dev): nat {
    if dev.Disk? then 0 else Base(dev.parent) + dev.start
  }

  function Low(dev: Dev, bs: nat): nat {
    Start(Base(dev), bs)
  }

  function High(dev: Dev, bs: nat, blocks: nat): nat {
    Start(Base(dev) + Count(dev, blocks), bs)
  }

  lemma {:induction false} WindowFits(dev: Dev, bs: nat, blocks: nat)
    requires bs > 0 && Inside(dev, blocks)
    ensures Base(dev) + Count(dev, blocks) <= blocks
    ensures Low(dev, bs) + Start(Count(dev, blocks), bs) == High(dev, bs, blocks) <= Start(blocks, bs)
    ensures dev.Sub? ==> Low(dev, bs) == Low(dev.parent, bs) + Start(dev.start, bs)
    ensures dev.Sub? ==> Start(dev.start, bs) + Start(dev.count, bs) <= Start(Count(dev.parent, blocks), bs)
  {
    hide Start;
    if dev.Disk? {
    } else {
      WindowFits(dev.parent, bs, blocks);
      StartAdds(Base(dev.parent), dev.start, bs);
      StartAdds(dev.start, dev.count, bs);
      StartMonotone(dev.start + dev.count, Count(dev.parent, blocks), bs);
    }
    StartAdds(Base(dev), Count(dev, blocks), bs);
    StartMonotone(Base(dev) + Count(dev, blocks), blocks, bs);
  }

  /** The bytes a sub-device covers. */
  function Window(dev: Dev, d: seq<Byte>, bs: nat, blocks: nat): (w: seq<Byte>)
    requires bs > 0 && Inside(dev, blocks) && |d| == Start(blocks, bs)
    ensures |w| == Start(Count(dev, blocks), bs)
  {
    WindowFits(dev, bs, blocks);
    d[Low(dev, bs)..High(dev, bs, blocks)]
  }

  lemma ReadInWindow(d: seq<Byte>, low: nat, high: nat, s: nat, c: nat, offset: int, len: nat, n: nat)
    requires low + s + c <= high <= |d| && n == Clipped(c, offset, len) > 0
    ensures ReadAt(d[low..high], offset + s, n) == ReadAt(d[low + s..low + s + c], offset, len)
  {
    hide ReadAt;
    ReadIs(d[low..high], offset + s, n, n);
    ReadIs(d[low + s..low + s + c], offset, len, n);
    SliceOfSlice(d, low, high - low, offset + s, n);
    SliceOfSlice(d, low + s, c, offset, n);
  }

  lemma ReadIs(d: seq<Byte>, offset: int, len: nat, n: nat)
    requires n == Clipped(|d|, offset, len) > 0
    ensures 0 <= offset && offset + n <= |d| && ReadAt(d, offset, len) == d[offset..offset + n]
  {
  }

  /** Reading a sub-device, however deeply nested, reads its window. */
  lemma {:induction false} ReadIsShifted(dev: Dev, d: seq<Byte>, bs: nat, blocks: nat, offset: int, len: nat)
    requires bs > 0 && |d| == Start(blocks, bs) && Inside(dev, blocks) && NoWrap(dev, bs)
    ensures Read(dev, d, bs, offset, len) == ReadAt(Window(dev, d, bs, blocks), offset, len)
  {
    hide Start, ReadAt;
    WindowFits(dev, bs, blocks);
    if dev.Disk? {
      StartAdds(0, 0, bs);
      assert d[0..|d|] == d;
    } else {
      var n := Clipped(Start(dev.count, bs), offset, len);
      if n == 0 {
        ReadNothing(Window(dev, d, bs, blocks), offset, len);
      } else {
        WindowFits(dev.parent, bs, blocks);
        SmallMod(Start(dev.start, bs));
        ReadIsShifted(dev.parent, d, bs, blocks, offset + Start(dev.start, bs), n);
        ReadInWindow(d, Low(dev.parent, bs), High(dev.parent, bs, blocks), Start(dev.start, bs), Start(dev.count, bs), offset, len, n);
      }
    }
  }

  lemma SmallMod(n: nat)
    ensures n % U32 == n <==> n < U32
    ensures n % U32 < U32
  {
  }

  lemma SpliceSame(d: seq<Byte>, low: nat, high: nat)
    requires low <= high <= |d|
    ensures Splice(d, low, d[low..high]) == d
  {
    assert d == d[..low] + d[low..high] + d[high..];
  }

  lemma WriteInWindow(d: seq<Byte>, low: nat, high: nat, s: nat, c: nat, offset: int, b: seq<Byte>, n: nat)
    requires low + s + c <= high <= |d| && n == Clipped(c, offset, |b|) > 0
    ensures Splice(d, low, WriteAt(d[low..high], offset + s, b[..n])) ==
      Splice(d, low + s, WriteAt(d[low + s..low + s + c], offset, b))
  {
    hide Splice;
    WriteInRange(d[low..high], offset + s, b[..n]);
    SpliceInside(d, low, high - low, offset + s, b[..n]);
    SpliceInside(d, low + s, c, offset, b[..n]);
  }

  /** Writing a sub-device writes its window and nothing else. */
  lemma {:induction false} WriteIsShifted(dev: Dev, d: seq<Byte>, bs: nat, blocks: nat, offset: int, b: seq<Byte>)
    requires bs > 0 && |d| == Start(blocks, bs) && Inside(dev, blocks) && NoWrap(dev, bs)
    ensures Low(dev, bs) + |Window(dev, d, bs, blocks)| <= |d|
    ensures Write(dev, d, bs, offset, b) == Splice(d, Low(dev, bs), WriteAt(Window(dev, d, bs, blocks), offset, b))
  {
    hide Start, WriteAt, Splice;
    WindowFits(dev, bs, blocks);
    if dev.Disk? {
      StartAdds(0, 0, bs);
      assert d[0..|d|] == d;
      SpliceAll(d, WriteAt(d, offset, b));
    } else {
      var n := Clipped(Start(dev.count, bs), offset, |b|);
      if n == 0 {
        WriteNothing(Window(dev, d, bs, blocks), offset, b);
        SpliceSame(d, Low(dev, bs), High(dev, bs, blocks));
      } else {
        WindowFits(dev.parent, bs, blocks);
        SmallMod(Start(dev.start, bs));
        WriteIsShifted(dev.parent, d, bs, blocks, offset + Start(dev.start, bs), b[..n]);
        WriteInWindow(d, Low(dev.parent, bs), High(dev.parent, bs, blocks), Start(dev.start, bs), Start(dev.count, bs), offset, b, n);
      }
    }
  }

  /**
   * A block read of a sub-device runs past the disk exactly when its sum escapes the clipping; all
   * others read the window.
   */
  lemma {:induction false} BlockReadIsShifted(dev: Dev, d: seq<Byte>, bs: nat, blocks: nat, block: nat, count: nat)
    requires bs > 0 && blocks < U32 && |d| == Start(blocks, bs) && Inside(dev, blocks) && block < U32 && count < U32
    ensures ReadBlocks(dev, d, bs, blocks, block, count) ==
            if ClipEscapes(Count(dev, blocks), block, count) then None
            else Some(ReadAt(Window(dev, d, bs, blocks), Start(block, bs), Start(count, bs)))
  {
    hide Start, ReadAt, Clipped, ClipEscapes, ClippedBlocks;
    WindowFits(dev, bs, blocks);
    var have := Count(dev, blocks);
    var n := ClippedBlocks(have, block, count);
    ClipIsExact(have, block, count);
    ClipInBytes(have, block, count, bs);
    if n == 0 {
      ReadNothing(Window(dev, d, bs, blocks), Start(block, bs), Start(count, bs));
    } else if dev.Disk? {
      StartAdds(0, 0, bs);
      assert d[0..|d|] == d;
      if !ClipEscapes(have, block, count) {
        ReadClipped(d, Start(block, bs), Start(count, bs), Start(n, bs));
      }
    } else {
      WindowFits(dev.parent, bs, blocks);
      SmallMod(block + dev.start);
      EscapesTogether(Count(dev.parent, blocks), dev.start, have, block, count);
      BlockReadIsShifted(dev.parent, d, bs, blocks, block + dev.start, n);
      StartAdds(block, dev.start, bs);
      if !ClipEscapes(have, block, count) {
        ReadInWindow(d, Low(dev.parent, bs), High(dev.parent, bs, blocks), Start(dev.start, bs), Start(dev.count, bs),
                     Start(block, bs), Start(count, bs), Start(n, bs));
      }
    }
  }

  /** A block write that does not escape the clipping writes the window and nothing else. */
  lemma {:induction false} BlockWriteIsShifted(dev: Dev, d: seq<Byte>, bs: nat, blocks: nat, block: nat,
                                               count: nat, b: seq<Byte>)
    requires bs > 0 && blocks < U32 && |d| == Start(blocks, bs) && Inside(dev, blocks) && block < U32 && count < U32
    requires |b| == Start(count, bs)
    ensures Low(dev, bs) + |Window(dev, d, bs, blocks)| <= |d|
    ensures WriteBlocks(dev, d, bs, blocks, block, count, b) ==
            if ClipEscapes(Count(dev, blocks), block, count) then None
            else Some(Splice(d, Low(dev, bs), WriteAt(Window(dev, d, bs, blocks), Start(block, bs), b)))
  {
    hide Start, WriteAt, Splice, Clipped, ClipEscapes, ClippedBlocks;
    WindowFits(dev, bs, blocks);
    var have := Count(dev, blocks);
    var n := ClippedBlocks(have, block, count);
    ClipIsExact(have, block, count);
    ClippedPart(have, block, count, bs);
    ClipInBytes(have, block, count, bs);
    var w := Window(dev, d, bs, blocks);
    if n == 0 {
      WriteNothing(w, Start(block, bs), b);
      SpliceSame(d, Low(dev, bs), High(dev, bs, blocks));
    } else if dev.Disk? {
      StartAdds(0, 0, bs);
      assert d[0..|d|] == d;
      if !ClipEscapes(have, block, count) {
        WriteClipped(d, Start(block, bs), b, Start(n, bs));
        SpliceAll(d, WriteAt(d, Start(block, bs), b));
      }
    } else {
      WindowFits(dev.parent, bs, blocks);
      SmallMod(block + dev.start);
      EscapesTogether(Count(dev.parent, blocks), dev.start, have, block, count);
      BlockWriteIsShifted(dev.parent, d, bs, blocks, block + dev.start, n, b[..Start(n, bs)]);
      StartAdds(block, dev.start, bs);
      if !ClipEscapes(have, block, count) {
        WriteInWindow(d, Low(dev.parent, bs), High(dev.parent, bs, blocks), Start(dev.start, bs), Start(dev.count, bs),
                      Start(block, bs), b, Start(n, bs));
      }
    }
  }

  /** What escapes the clipping of a sub-device escapes that of its parent too, and nothing else it passes on does. */
  lemma EscapesTogether(have: nat, start: nat, inner: nat, block: nat, count: nat)
    requires start + inner <= have < U32 && count < U32
    requires var n := ClippedBlocks(inner, block, count); 0 < n
    ensures var n := ClippedBlocks(inner, block, count);
      block <= inner && n <= count && (ClipEscapes(have, block + start, n) <==> ClipEscapes(inner, block, count))
  {
    var n := ClippedBlocks(inner, block, count);
    ClipIsExact(inner, block, count);
    SumWraps(block, count);
    SumWraps(block + start, n);
  }

  lemma ClipInBytes(have: nat, block: nat, count: nat, bs: nat)
    requires bs > 0 && have < U32 && block < U32 && count < U32
    ensures var n := ClippedBlocks(have, block, count);
      && (n > 0 <==> Start(n, bs) > 0) && (n == 0 ==> Clipped(Start(have, bs), Start(block, bs), Start(count, bs)) == 0)
      && (!ClipEscapes(have, block, count) ==> Start(n, bs) == Clipped(Start(have, bs), Start(block, bs), Start(count, bs)))
  {
    hide Start;
    var n := ClippedBlocks(have, block, count);
    ClipIsExact(have, block, count);
    StartMonotone(have, block, bs);
    StartAdds(block, count, bs);
    StartMonotone(block + count, have, bs);
    StartAdds(0, 0, bs);
    StartMonotone(n, 0, bs);
    StartMonotone(count, 0, bs);
    if block <= have {
      StartAdds(block, have - block, bs);
    }
  }

  lemma WriteClipped(d: seq<Byte>, offset: int, b: seq<Byte>, n: nat)
    requires n == Clipped(|d|, offset, |b|)
    ensures n <= |b| && WriteAt(d, offset, b[..n]) == WriteAt(d, offset, b)
  {
    assert b[..n][..n] == b[..n];
  }

  lemma ReadClipped(d: seq<Byte>, offset: int, len: nat, n: nat)
    requires n == Clipped(|d|, offset, len)
    ensures ReadAt(d, offset, n) == ReadAt(d, offset, len)
  {
  }

  // ------------------------------------------------------------- consequences

  /** A transfer that the hooks take to the right place. */
  predicate Sound(dev: Dev, bs: nat, blocks: nat, r: Range) {
    match r
    case ByteRange(_, _) => NoWrap(dev, bs)
    case BlockRange(block, count) => block < U32 && count < U32 && !ClipEscapes(Count(dev, blocks), block, count)
  }

  /** Reads by either hook read the window. */
  lemma LoadIsShifted(dev: Dev, d: seq<Byte>, bs: nat, blocks: nat, r: Range)
    requires bs > 0 && blocks < U32 && |d| == Start(blocks, bs) && Inside(dev, blocks) && Sound(dev, bs, blocks, r)
    ensures Load(dev, d, bs, blocks, r) == Some(ReadAt(Window(dev, d, bs, blocks), From(r, bs), Length(r, bs)))
  {
    hide Start, Read, ReadBlocks, ReadAt, Window, ClipEscapes;
    match r
    case ByteRange(offset, len) => ReadIsShifted(dev, d, bs, blocks, offset, len);
    case BlockRange(block, count) => BlockReadIsShifted(dev, d, bs, blocks, block, count);
  }

  /** Writes by either hook write the window and nothing else. */
  lemma StoreIsShifted(dev: Dev, d: seq<Byte>, bs: nat, blocks: nat, r: Range, b: seq<Byte>)
    requires bs > 0 && blocks < U32 && |d| == Start(blocks, bs) && Inside(dev, blocks) && Sound(dev, bs, blocks, r)
    requires |b| == Length(r, bs)
    ensures Low(dev, bs) + |Window(dev, d, bs, blocks)| <= |d|
    ensures Store(dev, d, bs, blocks, r, b) ==
      Some(Splice(d, Low(dev, bs), WriteAt(Window(dev, d, bs, blocks), From(r, bs), b)))
  {
    hide Start, Write, WriteBlocks, WriteAt, Window, ClipEscapes, Splice;
    match r
    case ByteRange(offset, _) => WriteIsShifted(dev, d, bs, blocks, offset, b);
    case BlockRange(block, count) => BlockWriteIsShifted(dev, d, bs, blocks, block, count, b);
  }

  /** What is written to a sub-device by one hook is read back from it by either. */
  lemma SubReadAfterWrite(dev: Dev, d: seq<Byte>, bs: nat, blocks: nat, r: Range, b: seq<Byte>, back: Range)
    requires bs > 0 && blocks < U32 && |d| == Start(blocks, bs) && Inside(dev, blocks)
    requires Sound(dev, bs, blocks, r) && Sound(dev, bs, blocks, back) && |b| == Length(r, bs)
    requires From(back, bs) == From(r, bs) && Length(back, bs) == Length(r, bs)
    ensures var e := Store(dev, d, bs, blocks, r, b);
      && e.Some?
      && Load(dev, e.value, bs, blocks, back) == Some(b[..Clipped(Start(Count(dev, blocks), bs), From(r, bs), |b|)])
  {
    hide Start, Load, Store, WriteAt, ReadAt, Splice, Sound, From, Length;
    WindowFits(dev, bs, blocks);
    var w := Window(dev, d, bs, blocks);
    StoreIsShifted(dev, d, bs, blocks, r, b);
    var e := Store(dev, d, bs, blocks, r, b).value;
    SpliceWindow(d, Low(dev, bs), WriteAt(w, From(r, bs), b));
    LoadIsShifted(dev, e, bs, blocks, back);
    ReadAfterWrite(w, From(r, bs), b);
  }

  lemma SpliceWindow(d: seq<Byte>, at: nat, b: seq<Byte>)
    requires at + |b| <= |d|
    ensures Splice(d, at, b)[at..at + |b|] == b
  {
  }

  lemma SpliceApart(d: seq<Byte>, at: nat, b: seq<Byte>, low: nat, high: nat)
    requires at + |b| <= |d| && low <= high <= |d| && (high <= at || at + |b| <= low)
    ensures Splice(d, at, b)[low..high] == d[low..high]
  {
  }

  lemma WindowsApart(a: Dev, b: Dev, bs: nat, blocks: nat)
    requires bs > 0 && Base(a) + Count(a, blocks) <= Base(b)
    ensures High(a, bs, blocks) <= Low(b, bs)
  {
    hide Base, Count;
    StartMonotone(Base(a) + Count(a, blocks), Base(b), bs);
  }

  /** A write to one of two disjoint sub-devices, by either hook, never changes a read of the other, at any nesting. */
  lemma DisjointDevicesAreIsolated(a: Dev, b: Dev, d: seq<Byte>, bs: nat, blocks: nat, r: Range, x: seq<Byte>, q: Range)
    requires bs > 0 && blocks < U32 && |d| == Start(blocks, bs) && Inside(a, blocks) && Inside(b, blocks)
    requires Sound(a, bs, blocks, r) && Sound(b, bs, blocks, q) && |x| == Length(r, bs)
    requires Base(a) + Count(a, blocks) <= Base(b) || Base(b) + Count(b, blocks) <= Base(a)
    ensures var e := Store(a, d, bs, blocks, r, x);
      && e.Some? && |e.value| == |d|
      && Load(b, e.value, bs, blocks, q) == Load(b, d, bs, blocks, q)
  {
    hide Start, Load, Store, WriteAt, ReadAt, Splice, Sound, From, Length, Base, Low, High, Count, Inside;
    WindowFits(a, bs, blocks);
    WindowFits(b, bs, blocks);
    if Base(a) + Count(a, blocks) <= Base(b) {
      WindowsApart(a, b, bs, blocks);
    } else {
      WindowsApart(b, a, bs, blocks);
    }
    StoreIsShifted(a, d, bs, blocks, r, x);
    var w := WriteAt(Window(a, d, bs, blocks), From(r, bs), x);
    SpliceApart(d, Low(a, bs), w, Low(b, bs), High(b, bs, blocks));
    LoadIsShifted(b, Store(a, d, bs, blocks, r, x).value, bs, blocks, q);
    LoadIsShifted(b, d, bs, blocks, q);
  }

  /** A sub-device of a sub-device is the sub-device at the sum of the offsets, for both hooks. */
  lemma NestingAddsOffsets(p: Dev, a: nat, n: nat, b: nat, m: nat, d: seq<Byte>, bs: nat, blocks: nat, r: Range,
                           x: seq<Byte>)
    requires bs > 0 && blocks < U32 && |d| == Start(blocks, bs) && Inside(Sub(Sub(p, a, n), b, m), blocks)
    requires Sound(Sub(Sub(p, a, n), b, m), bs, blocks, r) && Sound(Sub(p, a + b, m), bs, blocks, r)
    requires |x| == Length(r, bs)
    ensures Load(Sub(Sub(p, a, n), b, m), d, bs, blocks, r) == Load(Sub(p, a + b, m), d, bs, blocks, r)
    ensures Store(Sub(Sub(p, a, n), b, m), d, bs, blocks, r, x) == Store(Sub(p, a + b, m), d, bs, blocks, r, x)
  {
    hide Start, Load, Store, WriteAt, ReadAt, Splice, Sound, From, Length;
    var two, one := Sub(Sub(p, a, n), b, m), Sub(p, a + b, m);
    assert Inside(Sub(p, a, n), blocks) && Inside(one, blocks);
    assert Base(two) == Base(one);
    LoadIsShifted(two, d, bs, blocks, r);
    LoadIsShifted(one, d, bs, blocks, r);
    StoreIsShifted(two, d, bs, blocks, r, x);
    StoreIsShifted(one, d, bs, blocks, r, x);
  }

  /** All zeros but for the one byte. */
  function Marked(n: nat, at: nat): (r: seq<Byte>)
    ensures |r| == n
  {
    seq(n, i => if i == at then 1 else 0)
  }

  /** Where on the disk the byte hooks look for the first byte of a device. */
  function Reached(dev: Dev, bs: nat): nat {
    if dev.Disk? then 0 else Reached(dev.parent, bs) + ByteOffset(dev.start, bs)
  }

  /** Never behind the place where it is, and at that place exactly when no offset on the way wraps. */
  lemma {:induction false} ReachedIff(dev: Dev, bs: nat, blocks: nat)
    requires bs > 0 && Inside(dev, blocks)
    ensures Reached(dev, bs) <= Low(dev, bs)
    ensures Reached(dev, bs) == Low(dev, bs) <==> NoWrap(dev, bs)
  {
    hide Start;
    WindowFits(dev, bs, blocks);
    if dev.Disk? {
      StartAdds(0, 0, bs);
    } else {
      ReachedIff(dev.parent, bs, blocks);
      WrapsDown(Start(dev.start, bs));
    }
  }

  lemma WrapsDown(n: nat)
    ensures n % U32 <= n && (n % U32 == n <==> n < U32)
  {
    SmallMod(n);
    if n >= U32 {
      assert n % U32 < U32;
    }
  }

  /** A read of one byte of the device reads the byte that far behind the place reached. */
  lemma {:induction false} ReadOne(dev: Dev, d: seq<Byte>, bs: nat, blocks: nat, at: nat)
    requires bs > 0 && |d| == Start(blocks, bs) && Inside(dev, blocks) && at < Start(Count(dev, blocks), bs)
    ensures at + Reached(dev, bs) < |d| && Read(dev, d, bs, at, 1) == [d[at + Reached(dev, bs)]]
  {
    hide Start;
    WindowFits(dev, bs, blocks);
    if dev.Disk? {
    } else {
      WrapsDown(Start(dev.start, bs));
      ReadOne(dev.parent, d, bs, blocks, at + ByteOffset(dev.start, bs));
    }
  }

  lemma {:induction false} WriteOne(dev: Dev, d: seq<Byte>, bs: nat, blocks: nat, at: nat, x: Byte)
    requires bs > 0 && |d| == Start(blocks, bs) && Inside(dev, blocks) && at < Start(Count(dev, blocks), bs)
    ensures at + Reached(dev, bs) < |d| && Write(dev, d, bs, at, [x]) == d[at + Reached(dev, bs) := x]
  {
    hide Start;
    WindowFits(dev, bs, blocks);
    if dev.Disk? {
      WriteInRange(d, at, [x]);
    } else {
      WrapsDown(Start(dev.start, bs));
      assert [x][..1] == [x];
      WriteOne(dev.parent, d, bs, blocks, at + ByteOffset(dev.start, bs), x);
    }
  }

  /** Every disk contents is read at the right place there. */
  ghost predicate ReadsRight(dev: Dev, bs: nat, blocks: nat, at: nat)
    requires bs > 0 && Inside(dev, blocks)
  {
    forall d: seq<Byte> :: |d| == Start(blocks, bs) ==>
      Read(dev, d, bs, at, 1) == ReadAt(Window(dev, d, bs, blocks), at, 1)
  }

  ghost predicate WritesRight(dev: Dev, bs: nat, blocks: nat, at: nat)
    requires bs > 0 && Inside(dev, blocks)
  {
    forall d: seq<Byte>, x: Byte :: |d| == Start(blocks, bs) ==>
      Written(dev, d, bs, blocks, at, x) == Write(dev, d, bs, at, [x])
  }

  /** The disk with byte at of the device's window replaced. */
  function Written(dev: Dev, d: seq<Byte>, bs: nat, blocks: nat, at: nat, x: Byte): seq<Byte>
    requires bs > 0 && Inside(dev, blocks) && |d| == Start(blocks, bs)
  {
    WindowFits(dev, bs, blocks);
    Splice(d, Low(dev, bs), WriteAt(Window(dev, d, bs, blocks), at, [x]))
  }

  /**
   * Byte access finds a device, however deeply nested, exactly when none of the byte offsets
   * down to the disk wraps; otherwise it is wrong for every byte of the device.
   */
  lemma TranslationIsExact(dev: Dev, bs: nat, blocks: nat, at: nat)
    requires bs > 0 && Inside(dev, blocks) && at < Start(Count(dev, blocks), bs)
    ensures ReadsRight(dev, bs, blocks, at) <==> NoWrap(dev, bs)
    ensures WritesRight(dev, bs, blocks, at) <==> NoWrap(dev, bs)
  {
    hide Start, NoWrap, ReadsRight, WritesRight;
    ReachedIff(dev, bs, blocks);
    ReadsRightIff(dev, bs, blocks, at);
    WritesRightIff(dev, bs, blocks, at);
  }

  lemma ReadsRightIff(dev: Dev, bs: nat, blocks: nat, at: nat)
    requires bs > 0 && Inside(dev, blocks) && at < Start(Count(dev, blocks), bs)
    ensures ReadsRight(dev, bs, blocks, at) <==> Reached(dev, bs) == Low(dev, bs)
  {
    hide Start, Marked, Read, Window, ReadAt, Reached, Low, Count, Inside, NoWrap;
    ReachedIff(dev, bs, blocks);
    var r, l := at + Reached(dev, bs), at + Low(dev, bs);
    forall d: seq<Byte> | |d| == Start(blocks, bs)
      ensures r <= l < |d|
      ensures Read(dev, d, bs, at, 1) == [d[r]] && ReadAt(Window(dev, d, bs, blocks), at, 1) == [d[l]]
    {
      ReadOne(dev, d, bs, blocks, at);
      OneInWindow(dev, d, bs, blocks, at, 0);
    }
    if r != l {
      var d := Marked(Start(blocks, bs), l);
      MarkedAt(Start(blocks, bs), l, r);
      assert Read(dev, d, bs, at, 1) != ReadAt(Window(dev, d, bs, blocks), at, 1);
    }
  }

  lemma WritesRightIff(dev: Dev, bs: nat, blocks: nat, at: nat)
    requires bs > 0 && Inside(dev, blocks) && at < Start(Count(dev, blocks), bs)
    ensures WritesRight(dev, bs, blocks, at) <==> Reached(dev, bs) == Low(dev, bs)
  {
    hide Start, Marked, Write, Written, Reached, Low, Count, Inside, NoWrap;
    ReachedIff(dev, bs, blocks);
    var r, l := at + Reached(dev, bs), at + Low(dev, bs);
    forall d: seq<Byte>, x: Byte | |d| == Start(blocks, bs)
      ensures r <= l < |d|
      ensures Write(dev, d, bs, at, [x]) == d[r := x] && Written(dev, d, bs, blocks, at, x) == d[l := x]
    {
      WriteOne(dev, d, bs, blocks, at, x);
      OneInWindow(dev, d, bs, blocks, at, x);
    }
    if r != l {
      var d := Marked(Start(blocks, bs), l);
      OneInWindow(dev, d, bs, blocks, at, 1);
      MarkedAt(Start(blocks, bs), l, r);
      assert d[r := 1][r] != d[l := 1][r];
      assert Written(dev, d, bs, blocks, at, 1) != Write(dev, d, bs, at, [1]);
    }
  }

  lemma MarkedAt(n: nat, l: nat, r: nat)
    requires r < l < n
    ensures Marked(n, l)[l] == 1 && Marked(n, l)[r] == 0
  {
  }

  lemma OneInWindow(dev: Dev, d: seq<Byte>, bs: nat, blocks: nat, at: nat, x: Byte)
    requires bs > 0 && Inside(dev, blocks) && |d| == Start(blocks, bs) && at < Start(Count(dev, blocks), bs)
    ensures at + Low(dev, bs) < |d| && ReadAt(Window(dev, d, bs, blocks), at, 1) == [d[at + Low(dev, bs)]]
    ensures Written(dev, d, bs, blocks, at, x) == d[at + Low(dev, bs) := x]
  {
    hide Start, Splice, Low, High, Base, Count, Inside;
    WindowFits(dev, bs, blocks);
    var w := Window(dev, d, bs, blocks);
    WriteInRange(w, at, [x]);
    ByteInWindow(d, Low(dev, bs), High(dev, bs, blocks), at, x);
  }

  lemma ByteInWindow(d: seq<Byte>, low: nat, high: nat, at: nat, x: Byte)
    requires low + at < high <= |d|
    ensures d[low..high][at] == d[low + at]
    ensures Splice(d, low, Splice(d[low..high], at, [x])) == d[low + at := x]
  {
    SpliceInside(d, low, high - low, at, [x]);
  }

  // ------------------------------------------------------------- MBR entries

  /** struct mbr_part, without the cylinder addresses. */
  datatype MbrPart = MbrPart(status: Byte, kind: Byte, lbaStart: nat, lbaLength: nat)

  function Le32(b: seq<Byte>, i: nat): (r: nat)
    requires i + 4 <= |b|
    ensures r < U32
  {
    var b0: int, b1: int, b2: int, b3: int := b[i], b[i + 1], b[i + 2], b[i + 3];
    b0 + 0x100 * b1 + 0x1_0000 * b2 + 0x100_0000 * b3
  }

  /** Entry i of the table at byte 446. */
  function Entry(sector: seq<Byte>, i: nat): MbrPart
    requires |sector| >= 512 && i < 4
  {
    var at := 446 + 16 * i;
    MbrPart(sector[at], sector[at + 4], Le32(sector, at + 8), Le32(sector, at + 12))
  }

  predicate Words(p: MbrPart) {
    p.lbaStart < U32 && p.lbaLength < U32
  }

  /** validate_mbr_partition, with its 32-bit sum. */
  predicate Validate(blocks: nat, p: MbrPart) {
    && p.kind != 0 && (p.status == 0x80 || p.status == 0x00)
    && p.lbaStart < blocks && (p.lbaStart + p.lbaLength) % U32 <= blocks
  }

  /** The bounds check of bio_publish_subdevice, where the length is a block count that is divided by the block size. */
  predicate PublishBound(blocks: nat, bs: nat, start: nat, len: nat)
    requires bs > 0
  {
    (start + len / bs) % U32 <= blocks
  }

  /** A validated entry lies on the device exactly when its sum does not wrap; then it is also published. */
  lemma ValidatedFits(blocks: nat, bs: nat, p: MbrPart)
    requires bs > 0 && blocks < U32 && Words(p) && Validate(blocks, p)
    ensures p.lbaStart + p.lbaLength <= blocks <==> p.lbaStart + p.lbaLength < U32
    ensures p.lbaStart + p.lbaLength < U32 ==> PublishBound(blocks, bs, p.lbaStart, p.lbaLength)
  {
    SmallMod(p.lbaStart + p.lbaLength);
    hide Start;
    Divide(p.lbaLength, bs);
    SmallMod(p.lbaStart + BlockOf(p.lbaLength, bs));
  }

  /** What the publishing check measures: the length in bytes, less than a block of which may stick out. */
  lemma PublishBoundMeasuresBytes(blocks: nat, bs: nat, start: nat, len: nat)
    requires bs > 0 && start + len / bs < U32
    ensures PublishBound(blocks, bs, start, len) <==> Start(start, bs) + len < Start(blocks + 1, bs)
  {
    hide Start;
    SmallMod(start + BlockOf(len, bs));
    Divide(len, bs);
    StartAdds(start, BlockOf(len, bs), bs);
    StartAdds(blocks, 1, bs);
    StartMonotone(start + BlockOf(len, bs), blocks, bs);
    StartMonotone(blocks + 1, start + BlockOf(len, bs), bs);
  }

  /** Whatever it accepts lies inside a parent of the given block size, if no sum wraps. */
  ghost predicate BoundSuffices(blocks: nat, bs: nat)
    requires bs > 0
  {
    forall start: nat, len: nat ::
      start < U32 && len < U32 && start + len / bs < U32 && PublishBound(blocks, bs, start, len) ==>
        Inside(Sub(Disk, start, len), blocks)
  }

  lemma InOnes(n: nat, bs: nat)
    requires bs == 1
    ensures n / bs == n
  {
  }

  lemma Quotient(bs: nat)
    requires bs > 1
    ensures 1 / bs == 0
  {
  }

  /** That takes blocks of one byte: the length is a block count, and the check divides it. */
  lemma PublishBoundIsExact(blocks: nat, bs: nat)
    requires bs > 0 && blocks < U32
    ensures BoundSuffices(blocks, bs) <==> bs == 1
  {
    if bs == 1 {
      forall start: nat, len: nat | start + len / bs < U32 && PublishBound(blocks, bs, start, len)
        ensures Inside(Sub(Disk, start, len), blocks)
      {
        InOnes(len, bs);
        SmallMod(start + len);
      }
    } else {
      SmallMod(blocks);
      Quotient(bs);
      assert PublishBound(blocks, bs, blocks, 1) && !Inside(Sub(Disk, blocks, 1), blocks);
    }
  }

  /** A sum that wraps is accepted at any block size. */
  lemma WrappedPublishIsAccepted(blocks: nat, bs: nat)
    requires 0 < bs < U32 && blocks < U32
    ensures PublishBound(blocks, bs, U32 - 1, bs) && !Inside(Sub(Disk, U32 - 1, bs), blocks)
  {
  }

  /** Two validated entries that neither wrap nor overlap give partitions that cannot reach each other. */
  lemma PartitionsAreIsolated(dev: Dev, e: MbrPart, f: MbrPart, d: seq<Byte>, bs: nat, blocks: nat, r: Range,
                              x: seq<Byte>, q: Range)
    requires bs > 0 && blocks < U32 && |d| == Start(blocks, bs) && Inside(dev, blocks)
    requires Words(e) && Validate(Count(dev, blocks), e) && e.lbaStart + e.lbaLength < U32
    requires Words(f) && Validate(Count(dev, blocks), f) && f.lbaStart + f.lbaLength < U32
    requires e.lbaStart + e.lbaLength <= f.lbaStart || f.lbaStart + f.lbaLength <= e.lbaStart
    requires Sound(Sub(dev, e.lbaStart, e.lbaLength), bs, blocks, r)
    requires Sound(Sub(dev, f.lbaStart, f.lbaLength), bs, blocks, q)
    requires |x| == Length(r, bs)
    ensures var a, b := Sub(dev, e.lbaStart, e.lbaLength), Sub(dev, f.lbaStart, f.lbaLength);
      && Inside(a, blocks) && Inside(b, blocks)
      && Store(a, d, bs, blocks, r, x).Some?
      && Load(b, Store(a, d, bs, blocks, r, x).value, bs, blocks, q) == Load(b, d, bs, blocks, q)
  {
    hide Start, Load, Store, Sound, Length;
    WindowFits(dev, bs, blocks);
    ValidatedFits(Count(dev, blocks), bs, e);
    ValidatedFits(Count(dev, blocks), bs, f);
    var a, b := Sub(dev, e.lbaStart, e.lbaLength), Sub(dev, f.lbaStart, f.lbaLength);
    DisjointDevicesAreIsolated(a, b, d, bs, blocks, r, x, q);
  }

  // ------------------------------------------------------------- publishing a table

  datatype Bdev = Bdev(name: string, dev: Dev)

  /** The name of partition i. */
  function PartName(device: string, i: nat): string {
    device + "p" + Notation(i, 10, false)
  }

  /** The format's two fields and the letter between them. */
  lemma PartFormat(va: Args)
    ensures Render("%sp%d", va) ==
            Conversion('s', NO_FLAGS, 0, va(0)) + (['p'] + (Conversion('d', NO_FLAGS, 0, va(1)) + ""))
  {
    hide RenderFrom, Conversion;
    var fmt := "%sp%d";
    PlainField(fmt, 0, va, 0);
    Unfold(fmt, 2, va, 1);
    PlainField(fmt, 3, va, 1);
    RenderEnd(fmt, va, 2);
  }

  lemma JoinName(a: string, b: string)
    ensures a + (['p'] + (b + "")) == a + "p" + b
  {
    assert b + "" == b;
  }

  /** That is what sprintf makes of "%sp%d". */
  lemma PartNameIsRendered(va: Args, device: string, i: nat)
    requires va(0) == Str(device) && NUL !in device && va(1) == Num(i) && i < 0x8000_0000
    ensures Render("%sp%d", va) == PartName(device, i)
  {
    hide Notation, Render, Conversion;
    PartFormat(va);
    NameFields(va, device, i);
    JoinName(device, Notation(i, 10, false));
  }

  lemma NameFields(va: Args, device: string, i: nat)
    requires va(0) == Str(device) && NUL !in device && va(1) == Num(i) && i < 0x8000_0000
    ensures Conversion('s', NO_FLAGS, 0, va(0)) == device
    ensures Conversion('d', NO_FLAGS, 0, va(1)) == Notation(i, 10, false)
  {
    hide Notation, Pad, Conversion, Decimal, SignedArg;
    WholeCString(device);
    CharacterConversions('s', NO_FLAGS, 0, va(0), "");
    PadNothing(NO_FLAGS, device);
    NumberConversions('d', NO_FLAGS, 0, va(1));
    IndexArgument(i);
    PadNothing(NO_FLAGS, Notation(i, 10, false));
  }

  lemma IndexArgument(i: nat)
    requires i < 0x8000_0000
    ensures SignedArg(NO_FLAGS, Num(i)) == i && Decimal(i, Style(true, false, false)) == Notation(i, 10, false)
  {
    hide Notation;
    assert "" + Notation(i, 10, false) == Notation(i, 10, false);
  }

  lemma NamesDiffer(device: string, i: nat, j: nat)
    ensures PartName(device, i) == PartName(device, j) ==> i == j
    ensures PartName(device, i) != device
  {
    var m, n := Notation(i, 10, false), Notation(j, 10, false);
    ValueOfNotation(i, 10, false);
    ValueOfNotation(j, 10, false);
    if PartName(device, i) == PartName(device, j) {
      var k := |device| + 1;
      assert (device + "p" + m)[k..] == m && (device + "p" + n)[k..] == n;
    }
  }

  /** bio_open's search. */
  function Find(t: seq<Bdev>, name: string): (k: nat)
    ensures k <= |t| && (k < |t| ==> t[k].name == name)
    ensures forall j :: 0 <= j < k ==> t[j].name != name
  {
    if t == [] || t[0].name == name then 0 else 1 + Find(t[1..], name)
  }

  function Removed(t: seq<Bdev>, name: string): seq<Bdev> {
    var k := Find(t, name);
    if k == |t| then t else t[..k] + t[k + 1..]
  }

  /** The table without the first device of each of the first n partition names. */
  function Unpublished(t: seq<Bdev>, device: string, n: nat): seq<Bdev> {
    if n == 0 then t else Removed(Unpublished(t, device, n - 1), PartName(device, n - 1))
  }

  /** Entry i is turned into a device. */
  predicate Accepted(blocks: nat, bs: nat, sector: seq<Byte>, i: nat)
    requires bs > 0 && |sector| >= 512 && i < 4
  {
    var p := Entry(sector, i);
    Validate(blocks, p) && PublishBound(blocks, bs, p.lbaStart, p.lbaLength)
  }

  /** The table after the first n entries. */
  function Published(t: seq<Bdev>, device: string, parent: Dev, blocks: nat, bs: nat, sector: seq<Byte>,
                     n: nat): seq<Bdev>
    requires bs > 0 && |sector| >= 512 && n <= 4
  {
    if n == 0 then t
    else
      var u := Published(t, device, parent, blocks, bs, sector, n - 1);
      if Accepted(blocks, bs, sector, n - 1) then
        var p := Entry(sector, n - 1);
        [Bdev(PartName(device, n - 1), Sub(parent, p.lbaStart, p.lbaLength))] + u
      else u
  }

  /** The last validated entry was turned down by the publishing check; that is what the return value shows. */
  predicate LastRefused(blocks: nat, bs: nat, sector: seq<Byte>, n: nat)
    requires bs > 0 && |sector| >= 512 && n <= 4
  {
    n > 0 &&
    if Validate(blocks, Entry(sector, n - 1)) then !Accepted(blocks, bs, sector, n - 1)
    else LastRefused(blocks, bs, sector, n - 1)
  }

  predicate Signature(sector: seq<Byte>)
    requires |sector| >= 512
  {
    sector[510] == 0x55 && sector[511] == 0xaa
  }

  /** Opening an accepted partition by name finds that entry's range. */
  lemma {:induction false} OpenFindsPartition(t: seq<Bdev>, device: string, parent: Dev, blocks: nat, bs: nat,
                                              sector: seq<Byte>, n: nat, i: nat)
    requires bs > 0 && |sector| >= 512 && i < n <= 4 && Accepted(blocks, bs, sector, i)
    ensures var u := Published(t, device, parent, blocks, bs, sector, n); var k := Find(u, PartName(device, i));
      var p := Entry(sector, i);
      k < |u| && u[k].dev == Sub(parent, p.lbaStart, p.lbaLength)
  {
    hide Accepted, Entry;
    var u := Published(t, device, parent, blocks, bs, sector, n);
    if i == n - 1 {
    } else {
      OpenFindsPartition(t, device, parent, blocks, bs, sector, n - 1, i);
      NamesDiffer(device, i, n - 1);
      if Accepted(blocks, bs, sector, n - 1) {
        assert u[1..] == Published(t, device, parent, blocks, bs, sector, n - 1);
      }
    }
  }

  /** Every other name still finds what it found before. */
  lemma {:induction false} OpenFindsOthers(t: seq<Bdev>, device: string, parent: Dev, blocks: nat, bs: nat,
                                           sector: seq<Byte>, n: nat, name: string)
    requires bs > 0 && |sector| >= 512 && n <= 4
    requires forall i :: 0 <= i < n && Accepted(blocks, bs, sector, i) ==> name != PartName(device, i)
    ensures var u := Published(t, device, parent, blocks, bs, sector, n);
      Find(u, name) < |u| <==> Find(t, name) < |t|
    ensures var u := Published(t, device, parent, blocks, bs, sector, n);
      Find(u, name) < |u| && Find(t, name) < |t| ==> u[Find(u, name)] == t[Find(t, name)]
  {
    hide Accepted, Entry, PartName;
    if n == 0 {
    } else {
      OpenFindsOthers(t, device, parent, blocks, bs, sector, n - 1, name);
      if Accepted(blocks, bs, sector, n - 1) {
        var u := Published(t, device, parent, blocks, bs, sector, n);
        assert u[1..] == Published(t, device, parent, blocks, bs, sector, n - 1);
      }
    }
  }

  /**
   * partition_publish on a disk with contents d: the device table afterwards and the value
   * returned; stack is what the sector buffer held before, and still holds where the read
   * comes back short.
   */
  function Republished(t: seq<Bdev>, device: string, blocks: nat, bs: nat, offset: int, d: seq<Byte>,
                       stack: seq<Byte>): (seq<Bdev>, int)
    requires bs > 0 && |stack| >= 512
  {
    var u := Unpublished(t, device, 16);
    var k := Find(u, device);
    if k == |u| || offset < 0 then (u, -1)
    else
      var parent := u[k].dev;
      var sector := Splice(stack, 0, Read(parent, d, bs, offset, 512));
      if !Signature(sector) then (u, 0)
      else
        var v := Published(u, device, parent, Count(parent, blocks), bs, sector, 4);
        (v, if LastRefused(Count(parent, blocks), bs, sector, 4) then -1 else |v| - |u|)
  }

  class DeviceTable {
    const blocks: nat // of the disk under every device
    const bs: nat
    var bdevs: seq<Bdev>

    constructor (blocks: nat, bs: nat, bdevs: seq<Bdev>)
      ensures this.blocks == blocks && this.bs == bs && this.bdevs == bdevs
    {
      this.blocks, this.bs, this.bdevs := blocks, bs, bdevs;
    }

    /** bio_open. */
    method Open(name: string) returns (k: nat)
      ensures k == Find(bdevs, name)
    {
      k := 0;
      while k < |bdevs| && bdevs[k].name != name
        invariant k <= |bdevs| && forall j :: 0 <= j < k ==> bdevs[j].name != name
      {
        k := k + 1;
      }
      FindIs(bdevs, name, k);
    }

    /** partition_unpublish. */
    method PartitionUnpublish(device: string) returns (count: nat)
      modifies this`bdevs
      ensures bdevs == Unpublished(old(bdevs), device, 16) && count == |old(bdevs)| - |bdevs|
    {
      hide PartName, Unpublished, Find;
      count := 0;
      var i := 0;
      ghost var was := bdevs;
      UnpublishStep(was, device, 0);
      while i < 16
        invariant 0 <= i <= 16 && bdevs == Unpublished(was, device, i) && count == |was| - |bdevs|
      {
        UnpublishStep(was, device, i);
        var k := Open(PartName(device, i));
        if k < |bdevs| {
          bdevs := bdevs[..k] + bdevs[k + 1..];
          count := count + 1;
        }
        i := i + 1;
      }
    }

    /** bio_publish_subdevice, for a parent given by name. */
    method PublishSubdevice(parent: string, sub: string, startblock: nat, len: nat) returns (err: int)
      requires bs > 0
      modifies this`bdevs
      ensures var k := Find(old(bdevs), parent);
        if k < |old(bdevs)| && PublishBound(Count(old(bdevs)[k].dev, blocks), bs, startblock, len)
        then err == 0 && bdevs == [Bdev(sub, Sub(old(bdevs)[k].dev, startblock, len))] + old(bdevs)
        else err == -1 && bdevs == old(bdevs)
    {
      var k := Open(parent);
      if k == |bdevs| {
        return -1;
      }
      if !PublishBound(Count(bdevs[k].dev, blocks), bs, startblock, len) {
        return -1;
      }
      bdevs := [Bdev(sub, Sub(bdevs[k].dev, startblock, len))] + bdevs;
      return 0;
    }

    /** partition_publish. */
    method PartitionPublish(device: string, offset: int, d: seq<Byte>, stack: seq<Byte>) returns (r: int)
      requires bs > 0 && |stack| >= 512
      modifies this`bdevs
      ensures (bdevs, r) == Republished(old(bdevs), device, blocks, bs, offset, d, stack)
    {
      hide PartName, Splice, Read, Entry, Validate, PublishBound, Unpublished, Published, LastRefused, Find,
           Signature, Accepted, Count;
      var unpublished := PartitionUnpublish(device);
      ghost var u := bdevs;
      var k := Open(device);
      if k == |bdevs| || offset < 0 {
        return -1;
      }
      var parent := bdevs[k].dev;
      var have := Count(parent, blocks);
      var sector := Splice(stack, 0, Read(parent, d, bs, offset, 512));
      if !Signature(sector) {
        return 0;
      }
      var err := 0;
      var count := 0;
      var i := 0;
      PublishStart(u, device, parent, have, bs, sector);
      while i < 4
        invariant 0 <= i <= 4 && bdevs == Published(u, device, parent, have, bs, sector, i)
        invariant count == |bdevs| - |u| && (err < 0 <==> LastRefused(have, bs, sector, i)) && err >= -1
        invariant var j := Find(bdevs, device); j < |bdevs| && bdevs[j].dev == parent
      {
        PublishNext(u, device, parent, have, bs, sector, i);
        var p := Entry(sector, i);
        if Validate(have, p) {
          err := PublishSubdevice(device, PartName(device, i), p.lbaStart, p.lbaLength);
          if err >= 0 {
            count := count + 1;
          }
        }
        i := i + 1;
      }
      return if err < 0 then err else count;
    }
  }

  lemma UnpublishStep(t: seq<Bdev>, device: string, i: nat)
    ensures Unpublished(t, device, 0) == t
    ensures Unpublished(t, device, i + 1) == Removed(Unpublished(t, device, i), PartName(device, i))
  {
  }

  lemma FindBehind(t: seq<Bdev>, other: string, dev: Dev, name: string)
    requires other != name
    ensures Find([Bdev(other, dev)] + t, name) == 1 + Find(t, name)
  {
    assert ([Bdev(other, dev)] + t)[1..] == t;
  }

  lemma PublishStart(t: seq<Bdev>, device: string, parent: Dev, blocks: nat, bs: nat, sector: seq<Byte>)
    requires bs > 0 && |sector| >= 512
    ensures Published(t, device, parent, blocks, bs, sector, 0) == t && !LastRefused(blocks, bs, sector, 0)
  {
  }

  lemma PublishStep(t: seq<Bdev>, device: string, parent: Dev, blocks: nat, bs: nat, sector: seq<Byte>, i: nat)
    requires bs > 0 && |sector| >= 512 && i < 4
    ensures var u := Published(t, device, parent, blocks, bs, sector, i); var p := Entry(sector, i);
      && Published(t, device, parent, blocks, bs, sector, i + 1) ==
         (if Accepted(blocks, bs, sector, i) then [Bdev(PartName(device, i), Sub(parent, p.lbaStart, p.lbaLength))] + u else u)
      && LastRefused(blocks, bs, sector, i + 1) ==
         (if Validate(blocks, p) then !Accepted(blocks, bs, sector, i) else LastRefused(blocks, bs, sector, i))
  {
    hide Accepted, Validate, Entry;
  }

  /** One entry of the table, in terms of the checks in the code; the device itself stays where it is found. */
  lemma PublishNext(t: seq<Bdev>, device: string, parent: Dev, blocks: nat, bs: nat, sector: seq<Byte>, i: nat)
    requires bs > 0 && |sector| >= 512 && i < 4
    requires var u := Published(t, device, parent, blocks, bs, sector, i);
      Find(u, device) < |u| && u[Find(u, device)].dev == parent
    ensures var u := Published(t, device, parent, blocks, bs, sector, i);
      var v := Published(t, device, parent, blocks, bs, sector, i + 1);
      var p := Entry(sector, i);
      && v == (if Validate(blocks, p) && PublishBound(blocks, bs, p.lbaStart, p.lbaLength)
               then [Bdev(PartName(device, i), Sub(parent, p.lbaStart, p.lbaLength))] + u else u)
      && LastRefused(blocks, bs, sector, i + 1) ==
         (if Validate(blocks, p) then !PublishBound(blocks, bs, p.lbaStart, p.lbaLength) else LastRefused(blocks, bs, sector, i))
      && Find(v, device) < |v| && v[Find(v, device)].dev == parent
  {
    hide Validate, Entry, PublishBound, PartName, Published, LastRefused, Find;
    PublishStep(t, device, parent, blocks, bs, sector, i);
    NamesDiffer(device, i, i);
    var p := Entry(sector, i);
    FindBehind(Published(t, device, parent, blocks, bs, sector, i), PartName(device, i), Sub(parent, p.lbaStart, p.lbaLength), device);
  }

  lemma {:induction false} FindIs(t: seq<Bdev>, name: string, k: nat)
    requires k <= |t| && (forall j :: 0 <= j < k ==> t[j].name != name) && (k < |t| ==> t[k].name == name)
    ensures Find(t, name) == k
  {
    if k == 0 {
    } else {
      FindIs(t[1..], name, k - 1);
    }
  }
}
