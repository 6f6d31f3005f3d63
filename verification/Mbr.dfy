// lib/partition/partition.c from the disk's side: the bytes of a partition table, and what publishing it opens.
module Mbr {
  import opened Basics
  import opened Bytes
  import opened BlockDevice
  import opened Numbers
  import opened Partition

  // ------------------------------------------------------------- bytes of an entry

  /** A 32-bit word, low byte first. */
  function WordBytes(n: nat): (r: seq<Byte>)
    requires n < U32
    ensures |r| == 4
  {
    [n % 0x100, n / 0x100 % 0x100, n / 0x1_0000 % 0x100, n / 0x100_0000]
  }

  lemma WordReadsBack(n: nat, s: seq<Byte>, i: nat)
    requires n < U32 && i + 4 <= |s| && s[i..i + 4] == WordBytes(n)
    ensures Le32(s, i) == n
  {
    var w := s[i..i + 4];
    assert w[0] == s[i] && w[1] == s[i + 1] && w[2] == s[i + 2] && w[3] == s[i + 3];
    BytesAddUp(n);
  }

  lemma BytesAddUp(n: nat)
    requires n < U32
    ensures n == n % 0x100 + 0x100 * (n / 0x100 % 0x100) + 0x1_0000 * (n / 0x1_0000 % 0x100)
                 + 0x100_0000 * (n / 0x100_0000)
  {
    var a := n / 0x100;
    var b := a / 0x100;
    assert n / 0x1_0000 == b && n / 0x100_0000 == b / 0x100;
  }

  /** The sixteen bytes of a table entry; first and last are the cylinder addresses, which nothing reads. */
  function EntryBytes(p: MbrPart, first: seq<Byte>, last: seq<Byte>): (r: seq<Byte>)
    requires Words(p) && |first| == 3 && |last| == 3
    ensures |r| == 16
  {
    [p.status] + first + [p.kind] + last + WordBytes(p.lbaStart) + WordBytes(p.lbaLength)
  }

  /** Reading an entry undoes writing it, for all values of its fields. */
  lemma EntryReadsBack(sector: seq<Byte>, i: nat, p: MbrPart, first: seq<Byte>, last: seq<Byte>)
    requires |sector| >= 512 && i < 4 && Words(p) && |first| == 3 && |last| == 3
    requires sector[446 + 16 * i..462 + 16 * i] == EntryBytes(p, first, last)
    ensures Entry(sector, i) == p
  {
    hide Le32, WordBytes;
    var at := 446 + 16 * i;
    var e := EntryBytes(p, first, last);
    assert e[0] == p.status && e[4] == p.kind;
    assert e[8..12] == WordBytes(p.lbaStart) && e[12..16] == WordBytes(p.lbaLength);
    forall k | 0 <= k < 16
      ensures sector[at + k] == e[k]
    {
      assert sector[at..at + 16][k] == e[k];
    }
    assert sector[at + 8..at + 12] == e[8..12] && sector[at + 12..at + 16] == e[12..16];
    WordReadsBack(p.lbaStart, sector, at + 8);
    WordReadsBack(p.lbaLength, sector, at + 12);
  }

  // ------------------------------------------------------------- what is published

  /**
   * Which entries become devices: those of a type, with a status of 0 or 0x80, that start
   * on the device, end on it as 32 bits can tell, and pass the publishing check.
   */
  lemma AcceptedIff(blocks: nat, bs: nat, sector: seq<Byte>, i: nat, p: MbrPart, first: seq<Byte>, last: seq<Byte>)
    requires bs > 0 && |sector| >= 512 && i < 4 && Words(p) && |first| == 3 && |last| == 3
    requires sector[446 + 16 * i..462 + 16 * i] == EntryBytes(p, first, last)
    ensures Accepted(blocks, bs, sector, i) <==>
      && p.kind != 0 && (p.status == 0 || p.status == 0x80) && p.lbaStart < blocks
      && (p.lbaStart + p.lbaLength) % U32 <= blocks && (p.lbaStart + p.lbaLength / bs) % U32 <= blocks
  {
    hide Entry, EntryBytes;
    EntryReadsBack(sector, i, p, first, last);
  }

  /** The number of accepted entries among the first n. */
  function AcceptedCount(blocks: nat, bs: nat, sector: seq<Byte>, n: nat): nat
    requires bs > 0 && |sector| >= 512 && n <= 4
  {
    if n == 0 then 0
    else AcceptedCount(blocks, bs, sector, n - 1) + if Accepted(blocks, bs, sector, n - 1) then 1 else 0
  }

  lemma {:induction false} OneDeviceEach(t: seq<Bdev>, device: string, parent: Dev, blocks: nat, bs: nat,
                                         sector: seq<Byte>, n: nat)
    requires bs > 0 && |sector| >= 512 && n <= 4
    ensures |Published(t, device, parent, blocks, bs, sector, n)| == |t| + AcceptedCount(blocks, bs, sector, n)
  {
    hide Accepted, Entry, PartName;
    if n == 0 {
    } else {
      OneDeviceEach(t, device, parent, blocks, bs, sector, n - 1);
    }
  }

  /** What the return value of -1 means: the last entry that passed the validation failed the publishing check. */
  lemma {:induction false} LastRefusedIff(blocks: nat, bs: nat, sector: seq<Byte>, n: nat)
    requires bs > 0 && |sector| >= 512 && n <= 4
    ensures LastRefused(blocks, bs, sector, n) <==>
      exists i :: 0 <= i < n && Validate(blocks, Entry(sector, i)) && !Accepted(blocks, bs, sector, i)
        && forall j :: i < j < n ==> !Validate(blocks, Entry(sector, j))
  {
    hide Validate, Accepted, Entry;
    if n == 0 {
    } else {
      LastRefusedIff(blocks, bs, sector, n - 1);
      if LastRefused(blocks, bs, sector, n) && !Validate(blocks, Entry(sector, n - 1)) {
        var i :| 0 <= i < n - 1 && Validate(blocks, Entry(sector, i)) && !Accepted(blocks, bs, sector, i)
          && forall j :: i < j < n - 1 ==> !Validate(blocks, Entry(sector, j));
        assert forall j :: i < j < n ==> !Validate(blocks, Entry(sector, j));
      }
    }
  }

  // ------------------------------------------------------------- what is unpublished

  lemma RemovedNext(t: seq<Bdev>, name: string)
    requires t != []
    ensures Removed(t, name) == if t[0].name == name then t[1..] else [t[0]] + Removed(t[1..], name)
  {
    var k := Find(t, name);
    if t[0].name != name && k < |t| {
      assert t[..k] == [t[0]] + t[1..][..k - 1] && t[k + 1..] == t[1..][k..];
    }
  }

  /** What a name finds, seen from the front of the table. */
  lemma FindNext(x: Bdev, t: seq<Bdev>, name: string)
    ensures Find([x] + t, name) == if x.name == name then 0 else 1 + Find(t, name)
  {
    assert ([x] + t)[1..] == t;
  }

  /** Both tables hold the name or neither does, and they find the same device for it. */
  ghost predicate SameFor(t: seq<Bdev>, u: seq<Bdev>, name: string) {
    var i, j := Find(t, name), Find(u, name);
    (i < |t| <==> j < |u|) && (i < |t| && j < |u| ==> t[i] == u[j])
  }

  lemma SameInFront(x: Bdev, t: seq<Bdev>, u: seq<Bdev>, name: string)
    requires SameFor(t, u, name)
    ensures SameFor([x] + t, [x] + u, name)
  {
    hide Find;
    FindNext(x, t, name);
    FindNext(x, u, name);
  }

  /** Taking out one name leaves what every other name finds. */
  lemma {:induction false} RemovedLeaves(t: seq<Bdev>, name: string, other: string)
    requires other != name
    ensures SameFor(t, Removed(t, name), other)
  {
    hide Find, SameFor, Removed;
    if t == [] {
      NothingRemoved(name, other);
    } else {
      RemovedNext(t, name);
      assert t == [t[0]] + t[1..];
      if t[0].name == name {
        FoundBehind(t[0], t[1..], other);
      } else {
        RemovedLeaves(t[1..], name, other);
        SameInFront(t[0], t[1..], Removed(t[1..], name), other);
      }
    }
  }

  lemma NothingRemoved(name: string, other: string)
    ensures SameFor([], Removed([], name), other)
  {
  }

  lemma FoundBehind(x: Bdev, t: seq<Bdev>, other: string)
    requires x.name != other
    ensures SameFor([x] + t, t, other)
  {
    hide Find;
    FindNext(x, t, other);
  }

  /** No name stands twice in the table. */
  ghost predicate NamedOnce(t: seq<Bdev>) {
    forall i, j :: 0 <= i < j < |t| ==> t[i].name != t[j].name
  }

  lemma RemovedIsGone(t: seq<Bdev>, name: string)
    requires NamedOnce(t)
    ensures var r := Removed(t, name); NamedOnce(r) && Find(r, name) == |r|
  {
    var k := Find(t, name);
    var r := Removed(t, name);
    if k < |t| {
      forall j | 0 <= j < |r|
        ensures r[j] == t[if j < k then j else j + 1] && r[j].name != name
      {
      }
    }
  }

  /** partition_unpublish leaves what every other name finds. */
  lemma {:induction false} UnpublishedLeaves(t: seq<Bdev>, device: string, n: nat, name: string)
    requires forall i :: 0 <= i < n ==> name != PartName(device, i)
    ensures SameFor(t, Unpublished(t, device, n), name)
  {
    hide PartName, Removed;
    if n == 0 {
    } else {
      UnpublishedLeaves(t, device, n - 1, name);
      RemovedLeaves(Unpublished(t, device, n - 1), PartName(device, n - 1), name);
    }
  }

  /** In a table without duplicate names it takes out each of the partition names. */
  lemma {:induction false} UnpublishedAreGone(t: seq<Bdev>, device: string, n: nat, i: nat)
    requires NamedOnce(t) && i < n
    ensures var u := Unpublished(t, device, n); NamedOnce(u) && Find(u, PartName(device, i)) == |u|
  {
    hide PartName, Removed, NamedOnce;
    UnpublishedOnce(t, device, n - 1);
    RemovedIsGone(Unpublished(t, device, n - 1), PartName(device, n - 1));
    if i < n - 1 {
      UnpublishedAreGone(t, device, n - 1, i);
      NamesDiffer(device, i, n - 1);
      RemovedLeaves(Unpublished(t, device, n - 1), PartName(device, n - 1), PartName(device, i));
    }
  }

  lemma {:induction false} UnpublishedOnce(t: seq<Bdev>, device: string, n: nat)
    requires NamedOnce(t)
    ensures NamedOnce(Unpublished(t, device, n))
  {
    hide PartName, Removed, NamedOnce;
    if n == 0 {
    } else {
      UnpublishedOnce(t, device, n - 1);
      RemovedIsGone(Unpublished(t, device, n - 1), PartName(device, n - 1));
    }
  }

  // ------------------------------------------------------------- from the disk to the device

  /** The device a name finds, in a table that holds it. */
  function Named(t: seq<Bdev>, name: string): Dev
    requires Find(t, name) < |t|
  {
    t[Find(t, name)].dev
  }

  /** The publishing code finds the device of that name as it was before it unpublished anything. */
  lemma ParentStays(t: seq<Bdev>, device: string)
    requires Find(t, device) < |t|
    ensures var u := Unpublished(t, device, 16); Find(u, device) < |u| && Named(u, device) == Named(t, device)
  {
    hide Unpublished;
    forall i | 0 <= i < 16
      ensures device != PartName(device, i)
    {
      NamesDiffer(device, i, i);
    }
    UnpublishedLeaves(t, device, 16, device);
  }

  /** The sector read through the byte hook is the one in the device's window. */
  lemma SectorIsRead(dev: Dev, d: seq<Byte>, bs: nat, blocks: nat, offset: nat, stack: seq<Byte>)
    requires bs > 0 && |d| == Start(blocks, bs) && Inside(dev, blocks) && NoWrap(dev, bs) && |stack| >= 512
    requires offset + 512 <= |Window(dev, d, bs, blocks)|
    ensures |Read(dev, d, bs, offset, 512)| == 512
    ensures Splice(stack, 0, Read(dev, d, bs, offset, 512))[..512] == Window(dev, d, bs, blocks)[offset..offset + 512]
  {
    hide Window, Read, NoWrap, Inside, Start;
    ReadIsShifted(dev, d, bs, blocks, offset, 512);
  }

  /** A sector that ends in the signature and holds entry p at place i. */
  ghost predicate HoldsEntry(sector: seq<Byte>, i: nat, p: MbrPart) {
    && |sector| == 512 && sector[510] == 0x55 && sector[511] == 0xaa && i < 4 && Words(p)
    && exists first: seq<Byte>, last: seq<Byte> ::
         |first| == 3 && |last| == 3 && sector[446 + 16 * i..462 + 16 * i] == EntryBytes(p, first, last)
  }

  lemma EntryInBuffer(buf: seq<Byte>, i: nat, p: MbrPart)
    requires |buf| >= 512 && HoldsEntry(buf[..512], i, p)
    ensures Signature(buf) && Entry(buf, i) == p
  {
    var first: seq<Byte>, last: seq<Byte> :|
      |first| == 3 && |last| == 3 && buf[..512][446 + 16 * i..462 + 16 * i] == EntryBytes(p, first, last);
    assert buf[..512][446 + 16 * i..462 + 16 * i] == buf[446 + 16 * i..462 + 16 * i];
    assert buf[..512][510] == buf[510] && buf[..512][511] == buf[511];
    EntryReadsBack(buf, i, p, first, last);
  }

  /**
   * What a disk describes can be opened: for a signed sector with an entry that passes both
   * checks, the name made of the device's name, the letter p and the number of the entry
   * finds the entry's range once the table has been published.
   */
  lemma PublishedPartitionOpens(t: seq<Bdev>, device: string, blocks: nat, bs: nat, offset: nat, d: seq<Byte>,
                                stack: seq<Byte>, i: nat, p: MbrPart)
    requires bs > 0 && |d| == Start(blocks, bs) && |stack| >= 512 && Find(t, device) < |t|
    requires var dev := Named(t, device);
      && Inside(dev, blocks) && NoWrap(dev, bs) && offset + 512 <= |Window(dev, d, bs, blocks)|
      && HoldsEntry(Window(dev, d, bs, blocks)[offset..offset + 512], i, p)
    requires var have := Count(Named(t, device), blocks);
      && p.kind != 0 && (p.status == 0 || p.status == 0x80) && p.lbaStart < have
      && (p.lbaStart + p.lbaLength) % U32 <= have && (p.lbaStart + p.lbaLength / bs) % U32 <= have
    ensures var v := Republished(t, device, blocks, bs, offset, d, stack).0;
      var name := device + "p" + Notation(i, 10, false);
      Find(v, name) < |v| && Named(v, name) == Sub(Named(t, device), p.lbaStart, p.lbaLength)
  {
    hide Read, Splice, Window, Inside, NoWrap, HoldsEntry, Entry, Signature, Unpublished, Published, LastRefused, Find,
         Start;
    ParentStays(t, device);
    var u, dev := Unpublished(t, device, 16), Named(t, device);
    SectorIsRead(dev, d, bs, blocks, offset, stack);
    var sector := Splice(stack, 0, Read(dev, d, bs, offset, 512));
    EntryInBuffer(sector, i, p);
    assert i < 4 by {
      EntryPlace(sector[..512], i, p);
    }
    OpenFindsPartition(u, device, dev, Count(dev, blocks), bs, sector, 4, i);
  }

  lemma EntryPlace(sector: seq<Byte>, i: nat, p: MbrPart)
    requires HoldsEntry(sector, i, p)
    ensures i < 4
  {
  }

  /** Without the signature nothing is published. */
  lemma UnsignedPublishesNothing(t: seq<Bdev>, device: string, blocks: nat, bs: nat, offset: nat, d: seq<Byte>,
                                 stack: seq<Byte>)
    requires bs > 0 && |d| == Start(blocks, bs) && |stack| >= 512 && Find(t, device) < |t|
    requires var dev := Named(t, device);
      && Inside(dev, blocks) && NoWrap(dev, bs) && offset + 512 <= |Window(dev, d, bs, blocks)|
      && Window(dev, d, bs, blocks)[offset + 510..offset + 512] != [0x55, 0xaa]
    ensures Republished(t, device, blocks, bs, offset, d, stack) == (Unpublished(t, device, 16), 0)
  {
    hide Read, Splice, Window, Inside, NoWrap, Unpublished, Published, LastRefused, Find, Start;
    ParentStays(t, device);
    var dev := Named(t, device);
    SectorIsRead(dev, d, bs, blocks, offset, stack);
    var sector := Splice(stack, 0, Read(dev, d, bs, offset, 512));
    var w := Window(dev, d, bs, blocks);
    assert sector[..512][510..512] == w[offset..offset + 512][510..512] == w[offset + 510..offset + 512];
    assert sector[..512][510..512] == [sector[510], sector[511]];
  }
}
