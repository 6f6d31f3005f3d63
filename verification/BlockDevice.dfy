// lib/bio/bio.c over the memory device of lib/bio/mem.c: byte ranges on a device that
// moves whole blocks.
module BlockDevice {
  import opened Basics
  import opened Bytes

  // ------------------------------------------------------------- a device as a flat byte array

  /** The part of a transfer that lies on the device. */
  function Clipped(size: nat, offset: int, len: nat): nat {
    if offset < 0 || offset >= size then 0 else if offset + len > size then size - offset else len
  }

  /** It has byte k of the transfer exactly if the transfer has that byte and starts and has it on the device. */
  lemma ClippedIs(size: nat, offset: int, len: nat, k: nat)
    ensures k < Clipped(size, offset, len) <==> k < len && 0 <= offset && offset + k < size
  {
  }

  /** What a read returns. */
  function ReadAt(d: seq<Byte>, offset: int, len: nat): (r: seq<Byte>)
    ensures |r| == Clipped(|d|, offset, len)
  {
    var n := Clipped(|d|, offset, len);
    if n == 0 then [] else d[offset..offset + n]
  }

  /** The device after a write. */
  function WriteAt(d: seq<Byte>, offset: int, b: seq<Byte>): (r: seq<Byte>)
    ensures |r| == |d|
  {
    var n := Clipped(|d|, offset, |b|);
    if n == 0 then d else Splice(d, offset, b[..n])
  }

  /** Byte by byte: a read gives what is on the device, and a write puts what lies on it there. */
  lemma TransferIs(d: seq<Byte>, offset: int, len: nat, b: seq<Byte>, k: nat)
    ensures k < |ReadAt(d, offset, len)| <==> k < len && 0 <= offset && offset + k < |d|
    ensures k < |ReadAt(d, offset, len)| ==> ReadAt(d, offset, len)[k] == d[offset + k]
    ensures k < |d| && offset >= 0 ==>
      WriteAt(d, offset, b)[k] == if offset <= k < offset + |b| then b[k - offset] else d[k]
    ensures offset < 0 ==> WriteAt(d, offset, b) == d
  {
    hide Splice;
    var n := Clipped(|d|, offset, |b|);
    if n > 0 && k < |d| {
      SpliceAt(d, offset, b[..n], k);
    }
  }

  lemma ReadAfterWrite(d: seq<Byte>, offset: int, b: seq<Byte>)
    ensures ReadAt(WriteAt(d, offset, b), offset, |b|) == b[..Clipped(|d|, offset, |b|)]
  {
  }

  /** A write leaves every byte outside its range alone. */
  lemma WriteElsewhere(d: seq<Byte>, offset: int, b: seq<Byte>, k: nat)
    requires k < |d| && !(offset <= k < offset + |b|)
    ensures WriteAt(d, offset, b)[k] == d[k]
  {
  }

  // ------------------------------------------------------------- blocks and bytes

  /** The byte position of a block. */
  function Start(block: nat, bs: nat): nat {
    block * bs
  }

  lemma MulMonotone(x: nat, y: nat, b: nat)
    ensures x <= y ==> x * b <= y * b
  {
  }

  /** Block arithmetic, so that the code below needs no products. */
  lemma StartAdds(block: nat, count: nat, bs: nat)
    ensures Start(block + count, bs) == Start(block, bs) + Start(count, bs)
    ensures Start(1, bs) == bs && Start(0, bs) == 0
  {
  }

  lemma StartMonotone(x: nat, y: nat, bs: nat)
    requires bs > 0
    ensures x <= y <==> Start(x, bs) <= Start(y, bs)
  {
    MulMonotone(x, y, bs);
    MulMonotone(y + 1, x, bs);
    StartAdds(y, 1, bs);
  }

  lemma BlockPositive(count: nat, bs: nat)
    requires bs > 0
    ensures Start(count, bs) > 0 <==> count > 0
  {
  }

  function BlockOf(n: nat, bs: nat): nat
    requires bs > 0
  {
    n / bs
  }

  function BlockRest(n: nat, bs: nat): nat
    requires bs > 0
  {
    n % bs
  }

  lemma Divide(n: nat, bs: nat)
    requires bs > 0
    ensures Start(BlockOf(n, bs), bs) + BlockRest(n, bs) == n && BlockRest(n, bs) < bs && BlockOf(n, bs) <= n
  {
    AtLeast(BlockOf(n, bs), bs);
  }

  lemma AtLeast(q: nat, bs: nat)
    requires bs > 0
    ensures q <= q * bs
  {
  }

  /** The leading partial block of a transfer. */
  lemma Leading(offset: nat, len: nat, bs: nat, blockCount: nat)
    requires bs > 0 && len > 0 && offset + len <= Start(blockCount, bs)
    ensures var block := BlockOf(offset, bs); var r := BlockRest(offset, bs);
      block < blockCount && Start(block, bs) + r == offset && Start(block + 1, bs) == Start(block, bs) + bs && r < bs
  {
    hide Start, BlockOf, BlockRest;
    var block := BlockOf(offset, bs);
    Divide(offset, bs);
    StartMonotone(blockCount, block, bs);
    StartAdds(block, 1, bs);
  }

  /** The whole blocks in the middle. */
  lemma Middle(block: nat, len: nat, bs: nat, blockCount: nat)
    requires bs > 0 && len >= bs && Start(block, bs) + len <= Start(blockCount, bs)
    ensures var count := BlockOf(len, bs); var bytes := Start(count, bs);
      && 0 < bytes <= len < bytes + bs && block + count <= blockCount
      && Start(block + count, bs) == Start(block, bs) + bytes
  {
    hide Start, BlockOf, BlockRest;
    Divide(len, bs);
    StartAdds(block, BlockOf(len, bs), bs);
    StartMonotone(block + BlockOf(len, bs), blockCount, bs);
  }

  /** The partial block at the end. */
  lemma Trailing(block: nat, len: nat, bs: nat, blockCount: nat)
    requires bs > 0 && len > 0 && Start(block, bs) + len <= Start(blockCount, bs)
    ensures block < blockCount
  {
    hide Start, BlockOf, BlockRest;
    StartMonotone(blockCount, block, bs);
  }

  /** A slice grown by the slice behind it. */
  lemma Grow<T>(d: seq<T>, from: nat, n: nat, k: nat)
    requires from + n + k <= |d|
    ensures d[from..from + n] + d[from + n..from + n + k] == d[from..from + n + k]
  {
  }

  /** Changing part of a block and writing the block back changes just that part of the device. */
  lemma SpliceInside<T>(d: seq<T>, at: nat, n: nat, r: nat, x: seq<T>)
    requires at + n <= |d| && r + |x| <= n
    ensures Splice(d, at, Splice(d[at..at + n], r, x)) == Splice(d, at + r, x)
  {
  }

  lemma SpliceAll<T>(d: seq<T>, b: seq<T>)
    requires |b| == |d|
    ensures Splice(d, 0, b) == b
  {
    assert d[..0] + b + d[|b|..] == b;
  }

  lemma SliceOfSlice<T>(d: seq<T>, at: nat, n: nat, r: nat, k: nat)
    requires at + n <= |d| && r + k <= n
    ensures d[at..at + n][r..r + k] == d[at + r..at + r + k]
  {
    var x, z := d[at..at + n], d[at + r..at + r + k];
    var y := x[r..r + k];
    forall i | 0 <= i < k
      ensures y[i] == z[i]
    {
      assert y[i] == x[r + i] == d[at + (r + i)];
    }
    assert y == z;
  }

  lemma SpliceNothing<T>(d: seq<T>, at: nat)
    requires at <= |d|
    ensures Splice(d, at, []) == d
  {
  }

  lemma SpliceFront<T>(d: seq<T>, n: nat, at: nat, b: seq<T>)
    requires at + |b| <= n <= |d|
    ensures Splice(d, at, b)[..n] == Splice(d[..n], at, b) && Splice(d, at, b)[n..] == d[n..]
  {
    var mid, last := d[at + |b|..n], d[n..];
    assert d[..n][..at] == d[..at] && d[..n][at + |b|..] == mid;
    assert d[at + |b|..] == mid + last;
    var front := d[..at] + b + mid;
    assert Splice(d, at, b) == front + last && |front| == n;
  }

  // ------------------------------------------------------------- whole blocks

  /** The count bio_read_block and bio_write_block pass on, with their 32-bit sum. */
  function ClippedBlocks(have: nat, block: nat, count: nat): nat {
    if block > have then 0 else if (block + count) % U32 > have then have - block else count
  }

  /** The sum wraps to a block on the device, so the transfer is not cut at its end. */
  predicate ClipEscapes(have: nat, block: nat, count: nat) {
    block <= have < block + count && (block + count) % U32 <= have
  }

  lemma SumWraps(block: nat, count: nat)
    requires block < U32 && count < U32
    ensures (block + count) % U32 == if block + count < U32 then block + count else block + count - U32
  {
  }

  /** Every other transfer ends where the device does, and one that escapes runs past it. */
  lemma ClipIsExact(have: nat, block: nat, count: nat)
    requires have < U32 && block < U32 && count < U32
    ensures var n := ClippedBlocks(have, block, count);
      if ClipEscapes(have, block, count) then n == count > have - block && block + count >= U32
      else n == if block > have then 0 else if block + count > have then have - block else count
    ensures block + count < U32 ==> !ClipEscapes(have, block, count)
  {
    SumWraps(block, count);
  }

  // ------------------------------------------------------------- transfers in pieces

  /** The first n bytes of a read from offset are in the buffer, which otherwise is as it was. */
  ghost predicate Got(buf: seq<Byte>, had: seq<Byte>, d: seq<Byte>, offset: nat, n: nat) {
    n <= |had| && offset + n <= |d| && buf == Splice(had, 0, d[offset..offset + n])
  }

  lemma GotNothing(had: seq<Byte>, d: seq<Byte>, offset: nat)
    requires offset <= |d|
    ensures Got(had, had, d, offset, 0)
  {
    assert d[offset..offset] == [];
    SpliceNothing(had, 0);
  }

  lemma GotMore(buf: seq<Byte>, had: seq<Byte>, d: seq<Byte>, offset: nat, n: nat, k: nat)
    requires Got(buf, had, d, offset, n) && n + k <= |had| && offset + n + k <= |d|
    ensures |buf| == |had| && Got(Splice(buf, n, d[offset + n..offset + n + k]), had, d, offset, n + k)
  {
    SpliceTwice(had, 0, d[offset..offset + n], d[offset + n..offset + n + k]);
    Grow(d, offset, n, k);
  }

  /** The first n bytes of b are on the device from offset on, which otherwise is as it was. */
  ghost predicate Put(d: seq<Byte>, was: seq<Byte>, b: seq<Byte>, offset: nat, n: nat) {
    n <= |b| && offset + n <= |was| && d == Splice(was, offset, b[..n])
  }

  lemma PutNothing(was: seq<Byte>, b: seq<Byte>, offset: nat)
    requires offset <= |was|
    ensures Put(was, was, b, offset, 0)
  {
    assert b[..0] == [];
    SpliceNothing(was, offset);
  }

  lemma PutMore(d: seq<Byte>, was: seq<Byte>, b: seq<Byte>, offset: nat, n: nat, k: nat)
    requires Put(d, was, b, offset, n) && n + k <= |b| && offset + n + k <= |was|
    ensures |d| == |was| && Put(Splice(d, offset + n, b[n..n + k]), was, b, offset, n + k)
  {
    SpliceTwice(was, offset, b[..n], b[n..n + k]);
    assert b[..n] + b[n..n + k] == b[..n + k];
  }

  lemma GotAll(buf: seq<Byte>, had: seq<Byte>, d: seq<Byte>, offset: nat, n: nat)
    requires Got(buf, had, d, offset, n)
    ensures n <= |had| && offset + n <= |d| && buf == Splice(had, 0, d[offset..offset + n])
  {
  }

  lemma PutAll(d: seq<Byte>, was: seq<Byte>, b: seq<Byte>, offset: nat, n: nat)
    requires Put(d, was, b, offset, n)
    ensures n <= |b| && offset + n <= |was| && d == Splice(was, offset, b[..n])
  {
  }

  /** A splice into the device's part of the memory is a write. */
  lemma WriteInFront(d: seq<Byte>, size: nat, offset: int, b: seq<Byte>, n: nat)
    requires size <= |d| && n == Clipped(size, offset, |b|) > 0
    ensures Splice(d, offset, b[..n])[..size] == WriteAt(d[..size], offset, b)
    ensures Splice(d, offset, b[..n])[size..] == d[size..]
  {
    hide Splice;
    SpliceFront(d, size, offset, b[..n]);
  }

  lemma ReadInFront(d: seq<Byte>, size: nat, offset: int, len: nat, n: nat)
    requires size <= |d| && n == Clipped(size, offset, len) > 0
    ensures ReadAt(d[..size], offset, len) == d[offset..offset + n]
  {
    SliceOfSlice(d, 0, size, offset, n);
  }

  // ------------------------------------------------------------- the device

  class Device {
    const blockSize: nat
    const blockCount: nat
    const ownHooks: bool // the driver has its own byte-wise read and write
    const data: array<Byte>

    function Size(): nat {
      Start(blockCount, blockSize)
    }

    /** Everything on the device is addressed in 32 bits. */
    predicate Valid() {
      blockSize > 0 && blockCount < U32 && Size() <= data.Length && Size() < 0x8000_0000
    }

    ghost function Contents(): seq<Byte>
      reads data
      requires Valid()
    {
      data[..Size()]
    }

    /** create_membdev; a driver without its own hooks gets those of bio_initialize_bdev. */
    constructor (ptr: array<Byte>, bs: nat, ownHooks: bool)
      requires bs > 0 && ptr.Length < 0x8000_0000
      ensures Valid() && data == ptr && blockSize == bs && this.ownHooks == ownHooks
      ensures Size() <= ptr.Length < Size() + bs
    {
      hide Start, BlockOf, BlockRest;
      Divide(ptr.Length, bs);
      blockSize := bs;
      blockCount := BlockOf(ptr.Length, bs);
      this.ownHooks := ownHooks;
      data := ptr;
    }

    lemma BlocksOnDevice(block: nat, count: nat)
      requires Valid() && block + count <= blockCount
      ensures Start(block, blockSize) + Start(count, blockSize) <= Size()
    {
      hide Start;
      StartAdds(block, count, blockSize);
      StartMonotone(block + count, blockCount, blockSize);
    }

    /** bio_read_block, with mem_bdev_read_block behind it. */
    method ReadBlock(buf: array<Byte>, at: nat, block: nat, count: nat) returns (n: nat)
      requires Valid() && buf != data && at + Start(ClippedBlocks(blockCount, block, count), blockSize) <= buf.Length
      requires block < U32 && count < U32 && !ClipEscapes(blockCount, block, count)
      modifies buf
      ensures n == Start(ClippedBlocks(blockCount, block, count), blockSize)
      ensures n > 0 ==> Start(block, blockSize) + n <= Size()
      ensures buf[..] == if n == 0 then old(buf[..])
                         else Splice(old(buf[..]), at, data[Start(block, blockSize)..Start(block, blockSize) + n])
    {
      hide Start, Splice;
      StartAdds(0, 0, blockSize);
      ClipIsExact(blockCount, block, count);
      if block > blockCount || count == 0 {
        return 0;
      }
      var c := count;
      if (block + count) % U32 > blockCount {
        c := blockCount - block;
      }
      BlocksOnDevice(block, c);
      n := Start(c, blockSize);
      var from := Start(block, blockSize);
      ghost var had := buf[..];
      Memcpy(buf, at, data[from..from + n]);
      if n == 0 {
        SpliceNothing(had, at);
        assert data[from..from + n] == [];
      }
    }

    /** bio_write_block, with mem_bdev_write_block behind it. */
    method WriteBlock(buf: array<Byte>, at: nat, block: nat, count: nat) returns (n: nat)
      requires Valid() && buf != data && at + Start(ClippedBlocks(blockCount, block, count), blockSize) <= buf.Length
      requires block < U32 && count < U32 && !ClipEscapes(blockCount, block, count)
      modifies data
      ensures n == Start(ClippedBlocks(blockCount, block, count), blockSize)
      ensures n > 0 ==> Start(block, blockSize) + n <= Size()
      ensures data[..] == if n == 0 then old(data[..]) else Splice(old(data[..]), Start(block, blockSize), buf[at..at + n])
    {
      hide Start, Splice;
      StartAdds(0, 0, blockSize);
      ClipIsExact(blockCount, block, count);
      if block > blockCount || count == 0 {
        return 0;
      }
      var c := count;
      if (block + count) % U32 > blockCount {
        c := blockCount - block;
      }
      BlocksOnDevice(block, c);
      n := Start(c, blockSize);
      ghost var was := data[..];
      Memcpy(data, Start(block, blockSize), buf[at..at + n]);
      if n == 0 {
        SpliceNothing(was, Start(block, blockSize));
        assert buf[at..at + n] == [];
      }
    }

    /** One whole block into a buffer of its size. */
    method LoadBlock(temp: array<Byte>, block: nat)
      requires Valid() && temp != data && temp.Length == blockSize && block < blockCount
      modifies temp
      ensures Start(block, blockSize) + blockSize <= Size()
      ensures temp[..] == data[Start(block, blockSize)..Start(block, blockSize) + blockSize]
    {
      hide Start;
      BlocksOnDevice(block, 1);
      StartAdds(0, 1, blockSize);
      WholeClip(block, 1);
      ghost var n := ReadBlock(temp, 0, block, 1);
      SpliceAll(old(temp[..]), data[Start(block, blockSize)..Start(block, blockSize) + blockSize]);
    }

    /** A partial transfer by way of temp: k bytes from r on in the block. */
    method ReadPart(buf: array<Byte>, done: nat, temp: array<Byte>, block: nat, r: nat, k: nat,
                    ghost had: seq<Byte>, ghost offset: nat)
      requires Valid() && buf != data && temp != data && buf != temp && temp.Length == blockSize && block < blockCount
      requires r + k <= blockSize && done + k <= buf.Length && Start(block, blockSize) + r == offset + done
      requires Got(buf[..], had, data[..], offset, done)
      modifies buf, temp
      ensures Got(buf[..], had, data[..], offset, done + k)
    {
      hide Start, Splice, Got;
      LoadBlock(temp, block);
      GotAll(buf[..], had, data[..], offset, done);
      SliceOfSlice(data[..], Start(block, blockSize), blockSize, r, k);
      GotMore(buf[..], had, data[..], offset, done, k);
      Memcpy(buf, done, temp[r..r + k]);
    }

    /** The whole blocks of a transfer, straight into the buffer. */
    method ReadWhole(buf: array<Byte>, done: nat, block: nat, count: nat, ghost had: seq<Byte>, ghost offset: nat)
      requires Valid() && buf != data && block + count <= blockCount && count > 0
      requires done + Start(count, blockSize) <= buf.Length && Start(block, blockSize) == offset + done
      requires Got(buf[..], had, data[..], offset, done)
      modifies buf
      ensures Got(buf[..], had, data[..], offset, done + Start(count, blockSize))
    {
      hide Start, Splice, Got, ClippedBlocks, ClipEscapes;
      WholeClip(block, count);
      BlocksOnDevice(block, count);
      BlockPositive(count, blockSize);
      GotAll(buf[..], had, data[..], offset, done);
      GotMore(buf[..], had, data[..], offset, done, Start(count, blockSize));
      ghost var n := ReadBlock(buf, done, block, count);
    }

    /** bio_default_read, on block hooks that succeed; bio_read does not pass on empty transfers. */
    method DefaultRead(buf: array<Byte>, offset: nat, length: nat) returns (bytesRead: nat)
      requires Valid() && buf != data && 0 < length <= buf.Length && offset + length <= Size()
      modifies buf
      ensures bytesRead == length
      ensures buf[..] == Splice(old(buf[..]), 0, data[offset..offset + length])
    {
      hide Splice, ClippedBlocks, ClipEscapes, Got, Start, BlockOf, BlockRest;
      ghost var had := buf[..];
      GotNothing(had, data[..], offset);
      var len := length;
      var bs := blockSize;
      bytesRead := 0;
      var temp := new Byte[bs];
      var block := BlockOf(offset, bs);
      var blockOffset := BlockRest(offset, bs);
      Leading(offset, len, bs, blockCount);
      if blockOffset != 0 {
        var tocopy := if bs - blockOffset < len then bs - blockOffset else len;
        ReadPart(buf, 0, temp, block, blockOffset, tocopy, had, offset);
        len := len - tocopy;
        bytesRead := tocopy;
        block := block + 1;
      }
      if len >= bs {
        Middle(block, len, bs, blockCount);
        var count := BlockOf(len, bs);
        var bytes := Start(count, bs);
        ReadWhole(buf, bytesRead, block, count, had, offset);
        len := len - bytes;
        bytesRead := bytesRead + bytes;
        block := block + count;
      }
      if len > 0 {
        Trailing(block, len, bs, blockCount);
        ReadPart(buf, bytesRead, temp, block, 0, len, had, offset);
        bytesRead := bytesRead + len;
      }
      GotAll(buf[..], had, data[..], offset, bytesRead);
    }

    lemma WholeClip(block: nat, count: nat)
      requires block + count <= blockCount < U32
      ensures ClippedBlocks(blockCount, block, count) == count && !ClipEscapes(blockCount, block, count)
    {
      ClipIsExact(blockCount, block, count);
    }

    /** A partial write: load the block, change k bytes from r on, and write it back. */
    method WritePart(buf: array<Byte>, done: nat, temp: array<Byte>, block: nat, r: nat, k: nat,
                     ghost was: seq<Byte>, ghost offset: nat)
      requires Valid() && buf != data && temp != data && buf != temp && temp.Length == blockSize && block < blockCount
      requires r + k <= blockSize && done + k <= buf.Length && Start(block, blockSize) + r == offset + done
      requires Put(data[..], was, buf[..], offset, done)
      modifies data, temp
      ensures Put(data[..], was, buf[..], offset, done + k)
    {
      hide Start, Splice, Put;
      LoadBlock(temp, block);
      PutAll(data[..], was, buf[..], offset, done);
      SpliceInside(data[..], Start(block, blockSize), blockSize, r, buf[done..done + k]);
      PutMore(data[..], was, buf[..], offset, done, k);
      Memcpy(temp, r, buf[done..done + k]);
      WholeClip(block, 1);
      StartAdds(0, 1, blockSize);
      ghost var n := WriteBlock(temp, 0, block, 1);
      assert temp[0..0 + n] == temp[..];
    }

    method WriteWhole(buf: array<Byte>, done: nat, block: nat, count: nat, ghost was: seq<Byte>, ghost offset: nat)
      requires Valid() && buf != data && block + count <= blockCount && count > 0
      requires done + Start(count, blockSize) <= buf.Length && Start(block, blockSize) == offset + done
      requires Put(data[..], was, buf[..], offset, done)
      modifies data
      ensures Put(data[..], was, buf[..], offset, done + Start(count, blockSize))
    {
      hide Start, Splice, Put, ClippedBlocks, ClipEscapes;
      WholeClip(block, count);
      BlocksOnDevice(block, count);
      BlockPositive(count, blockSize);
      PutAll(data[..], was, buf[..], offset, done);
      PutMore(data[..], was, buf[..], offset, done, Start(count, blockSize));
      ghost var n := WriteBlock(buf, done, block, count);
    }

    /** bio_default_write. */
    method DefaultWrite(buf: array<Byte>, offset: nat, length: nat) returns (bytesWritten: nat)
      requires Valid() && buf != data && 0 < length <= buf.Length && offset + length <= Size()
      modifies data
      ensures bytesWritten == length
      ensures data[..] == Splice(old(data[..]), offset, buf[..length])
    {
      hide Splice, ClippedBlocks, ClipEscapes, Put, Start, BlockOf, BlockRest;
      ghost var was := data[..];
      PutNothing(was, buf[..], offset);
      var len := length;
      var bs := blockSize;
      bytesWritten := 0;
      var temp := new Byte[bs];
      var block := BlockOf(offset, bs);
      var blockOffset := BlockRest(offset, bs);
      Leading(offset, len, bs, blockCount);
      if blockOffset != 0 {
        var tocopy := if bs - blockOffset < len then bs - blockOffset else len;
        WritePart(buf, 0, temp, block, blockOffset, tocopy, was, offset);
        len := len - tocopy;
        bytesWritten := tocopy;
        block := block + 1;
      }
      if len >= bs {
        Middle(block, len, bs, blockCount);
        var count := BlockOf(len, bs);
        var bytes := Start(count, bs);
        WriteWhole(buf, bytesWritten, block, count, was, offset);
        len := len - bytes;
        bytesWritten := bytesWritten + bytes;
        block := block + count;
      }
      if len > 0 {
        Trailing(block, len, bs, blockCount);
        WritePart(buf, bytesWritten, temp, block, 0, len, was, offset);
        bytesWritten := bytesWritten + len;
      }
      PutAll(data[..], was, buf[..], offset, bytesWritten);
      assert buf[..][..length] == buf[..length];
    }

    /** mem_bdev_read. */
    method MemRead(buf: array<Byte>, offset: nat, len: nat) returns (r: nat)
      requires Valid() && buf != data && len <= buf.Length && offset + len <= Size()
      modifies buf
      ensures r == len && buf[..] == Splice(old(buf[..]), 0, data[offset..offset + len])
    {
      Memcpy(buf, 0, data[offset..offset + len]);
      r := len;
    }

    /** mem_bdev_write. */
    method MemWrite(buf: array<Byte>, offset: nat, len: nat) returns (r: nat)
      requires Valid() && buf != data && len <= buf.Length && offset + len <= Size()
      modifies data
      ensures r == len && data[..] == Splice(old(data[..]), offset, buf[..len])
    {
      Memcpy(data, offset, buf[..len]);
      r := len;
    }

    /** bio_read: whichever hooks the driver has, the clipped slice of the device. */
    method Read(buf: array<Byte>, offset: int, length: nat) returns (r: int)
      requires Valid() && buf != data && Clipped(Size(), offset, length) <= buf.Length
      modifies buf
      ensures r == if offset < 0 then -1 else Clipped(Size(), offset, length)
      ensures buf[..] == Splice(old(buf[..]), 0, ReadAt(Contents(), offset, length))
    {
      hide Splice, Start, ReadAt;
      ghost var had := buf[..];
      var len := length;
      if offset < 0 || offset >= Size() || len == 0 {
        ReadNothing(Contents(), offset, length);
        SpliceNothing(had, 0);
        return if offset < 0 then -1 else 0;
      }
      if offset + len > Size() {
        len := Size() - offset;
      }
      ReadInFront(data[..], Size(), offset, length, len);
      if ownHooks {
        r := MemRead(buf, offset, len);
      } else {
        r := DefaultRead(buf, offset, len);
      }
    }

    /** bio_write. */
    method Write(buf: array<Byte>, offset: int, length: nat) returns (r: int)
      requires Valid() && buf != data && length <= buf.Length
      modifies data
      ensures r == if offset < 0 then -1 else Clipped(Size(), offset, length)
      ensures Contents() == WriteAt(old(Contents()), offset, buf[..length])
      ensures data[Size()..] == old(data[Size()..])
    {
      hide Splice, Start, WriteAt;
      var len := length;
      if offset < 0 || offset >= Size() || len == 0 {
        WriteNothing(Contents(), offset, buf[..length]);
        return if offset < 0 then -1 else 0;
      }
      if offset + len > Size() {
        len := Size() - offset;
      }
      WriteInFront(data[..], Size(), offset, buf[..length], len);
      assert buf[..length][..len] == buf[..len];
      if ownHooks {
        r := MemWrite(buf, offset, len);
      } else {
        r := DefaultWrite(buf, offset, len);
      }
    }

    /** bio_erase, with bio_default_erase behind it. */
    method Erase(offset: int, length: nat) returns (r: int)
      requires Valid()
      modifies data
      ensures r == if offset < 0 then -1 else Clipped(Size(), offset, length)
      ensures Contents() == WriteAt(old(Contents()), offset, Zeros(length))
      ensures data[Size()..] == old(data[Size()..])
    {
      hide Splice, Start, WriteAt, Zeros;
      var len := length;
      ZerosPrefix(length, 0);
      if offset < 0 || offset >= Size() || len == 0 {
        WriteNothing(Contents(), offset, Zeros(length));
        return if offset < 0 then -1 else 0;
      }
      if offset + len > Size() {
        len := Size() - offset;
      }
      ghost var was := Contents();
      DefaultErase(offset, len);
      ErasedIsWritten(was, offset, length, len);
      r := len;
    }

    /** bio_default_erase: zeros, a buffer of them at a time. */
    method DefaultErase(offset: nat, length: nat)
      requires Valid() && offset + length <= Size()
      modifies data
      ensures Contents() == Splice(old(Contents()), offset, Zeros(length))
      ensures data[Size()..] == old(data[Size()..])
    {
      hide Splice, Start, WriteAt, Zeros;
      var zeroBuf := new Byte[4096](_ => 0);
      ghost var was := Contents();
      var remaining := length;
      var pos := offset;
      ZerosPrefix(0, 0);
      SpliceNothing(was, offset);
      while remaining > 0
        invariant 0 <= remaining <= length && pos + remaining == offset + length
        invariant Contents() == Splice(was, offset, Zeros(pos - offset))
        invariant data[Size()..] == old(data[Size()..])
        invariant fresh(zeroBuf) && forall k :: 0 <= k < 4096 ==> zeroBuf[k] == 0
      {
        var towrite := if remaining < 4096 then remaining else 4096;
        EraseMore(was, offset, pos - offset, towrite);
        IsZeros(zeroBuf[..towrite]);
        WriteInRange(Contents(), pos, zeroBuf[..towrite]);
        var written := Write(zeroBuf, pos, towrite);
        pos := pos + written;
        remaining := remaining - written;
      }
    }
  }

  lemma ReadNothing(d: seq<Byte>, offset: int, len: nat)
    requires Clipped(|d|, offset, len) == 0
    ensures ReadAt(d, offset, len) == []
  {
  }

  lemma WriteNothing(d: seq<Byte>, offset: int, b: seq<Byte>)
    requires Clipped(|d|, offset, |b|) == 0
    ensures WriteAt(d, offset, b) == d
  {
  }

  lemma WriteInRange(d: seq<Byte>, offset: nat, b: seq<Byte>)
    requires offset + |b| <= |d|
    ensures WriteAt(d, offset, b) == Splice(d, offset, b)
  {
    SpliceNothing(d, offset);
    assert b[..|b|] == b;
    assert b == [] ==> Splice(d, offset, b) == d;
  }

  lemma ZerosPrefix(n: nat, k: nat)
    requires k <= n
    ensures |Zeros(n)| == n && Zeros(n)[..k] == Zeros(k) && Zeros(0) == []
  {
  }

  lemma IsZeros(b: seq<Byte>)
    requires forall k :: 0 <= k < |b| ==> b[k] == 0
    ensures b == Zeros(|b|)
  {
  }

  lemma EraseMore(was: seq<Byte>, offset: nat, n: nat, k: nat)
    requires offset + n + k <= |was|
    ensures |Zeros(n)| == n && |Zeros(k)| == k && |Zeros(n + k)| == n + k
    ensures Splice(Splice(was, offset, Zeros(n)), offset + n, Zeros(k)) == Splice(was, offset, Zeros(n + k))
  {
    hide Splice;
    assert Zeros(n) + Zeros(k) == Zeros(n + k);
    SpliceTwice(was, offset, Zeros(n), Zeros(k));
  }

  lemma ErasedIsWritten(was: seq<Byte>, offset: nat, length: nat, len: nat)
    requires len == Clipped(|was|, offset, length) > 0
    ensures |Zeros(len)| == len && Splice(was, offset, Zeros(len)) == WriteAt(was, offset, Zeros(length))
  {
    ZerosPrefix(length, len);
  }
}
