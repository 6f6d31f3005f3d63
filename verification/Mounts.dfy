// The mount table of lib/fs/fs.c.
module Mounts {
  import opened CStrings
  import opened Path

  const NO_ERROR: int := 0
  const ERR_NOT_FOUND: int := -2
  const ERR_BAD_PATH: int := -18
  const ERR_ALREADY_MOUNTED: int := -19

  /** struct fs_mount; id stands for its address. */
  datatype Mount = Mount(path: string, id: nat, refs: int)

  /** The table, newest mount first; the mount each open file holds; the mounts not unmounted yet. */
  datatype Fs = Fs(mounts: seq<Mount>, files: multiset<nat>, held: set<nat>)

  /** What a path is looked up as: cut to the local buffer and normalised. */
  function Key(path: string): string {
    Normal(if |path| < 512 then path else path[..511])
  }

  /** Of a path only the first 511 characters count, and all of a shorter one. */
  lemma KeyCuts(p: string, rest: string)
    ensures |p| <= 511 ==> Key(p) == Normal(p)
    ensures |p| == 511 ==> Key(p + rest) == Key(p)
  {
    assert (p + rest)[..|p|] == p;
    assert rest == "" ==> p + rest == p;
  }

  // ------------------------------------------------------------- the table and the lookup

  /** The first entry whose path the given one starts with. */
  function FindMount(t: seq<Mount>, p: string): (k: nat)
    ensures k <= |t| && (k < |t| ==> t[k].path <= p)
    ensures forall j :: 0 <= j < k ==> !(t[j].path <= p)
  {
    if t == [] || t[0].path <= p then 0 else 1 + FindMount(t[1..], p)
  }

  function Index(t: seq<Mount>, id: nat): (k: nat)
    ensures k <= |t| && (k < |t| ==> t[k].id == id)
    ensures forall j :: 0 <= j < k ==> t[j].id != id
  {
    if t == [] || t[0].id == id then 0 else 1 + Index(t[1..], id)
  }

  predicate HasId(t: seq<Mount>, id: nat) {
    exists m :: m in t && m.id == id
  }

  predicate Apart(newer: Mount, older: Mount) {
    newer.id != older.id && !(older.path <= newer.path)
  }

  /** No older entry's path is a prefix of a newer one's. */
  ghost predicate TableInv(t: seq<Mount>) {
    && (forall m :: m in t ==> m.refs >= 1 && m.path != "" && m.path[0] == '/')
    && (forall i, j :: 0 <= i < j < |t| ==> Apart(t[i], t[j]))
  }

  /** Of two prefixes of one string the shorter is a prefix of the longer. */
  lemma PrefixesNest(a: string, b: string, p: string)
    requires a <= p && b <= p && |b| <= |a|
    ensures b <= a
  {
    assert a == p[..|a|] && b == p[..|b|];
  }

  /** The first match is the one shortest mounted prefix of the path, wherever else matches are in the table. */
  lemma FirstMatchIsShortest(t: seq<Mount>, p: string, j: nat)
    requires TableInv(t) && j < |t| && t[j].path <= p
    ensures var k := FindMount(t, p); k <= j && (k != j ==> |t[k].path| < |t[j].path|)
  {
    var k := FindMount(t, p);
    if k < j && |t[j].path| <= |t[k].path| {
      PrefixesNest(t[k].path, t[j].path, p);
    }
  }

  // ------------------------------------------------------------- the operations

  datatype Op =
    | MountAt(path: string, id: nat, device: bool, hook: int)
    | Unmount(path: string)
    | Open(path: string, hook: int)
    | Close(id: nat, hook: int)

  /** mount's error code: the path, the table, the device and the driver's hook, in that order. */
  function MountError(t: seq<Mount>, path: string, device: bool, hook: int): int {
    var p := Key(path);
    if p == "" || p[0] != '/' then ERR_BAD_PATH
    else if FindMount(t, p) < |t| then ERR_ALREADY_MOUNTED
    else if !device then ERR_NOT_FOUND
    else if hook < 0 then hook
    else NO_ERROR
  }

  /** What mounting comes to: each test in turn, and success when all are passed. */
  lemma MountErrorIs(t: seq<Mount>, path: string, device: bool, hook: int)
    ensures var absolute := Key(path) != "" && Key(path)[0] == '/';
      var covered := exists m :: m in t && m.path <= Key(path);
      var e := MountError(t, path, device, hook);
      && (!absolute ==> e == ERR_BAD_PATH)
      && (absolute && covered ==> e == ERR_ALREADY_MOUNTED)
      && (absolute && !covered && !device ==> e == ERR_NOT_FOUND)
      && (absolute && !covered && device && hook < 0 ==> e == hook)
      && (e == NO_ERROR <==> absolute && !covered && device && hook >= 0)
  {
    hide Key;
    var k := FindMount(t, Key(path));
    assert k < |t| ==> t[k] in t;
  }

  /** put_mount. */
  function Put(t: seq<Mount>, k: nat): seq<Mount>
    requires k < |t|
  {
    if t[k].refs == 1 then t[..k] + t[k + 1..] else t[k := t[k].(refs := t[k].refs - 1)]
  }

  function Get(t: seq<Mount>, k: nat): seq<Mount>
    requires k < |t|
  {
    t[k := t[k].(refs := t[k].refs + 1)]
  }

  function After(f: Fs, op: Op): Fs {
    match op
    case MountAt(path, id, device, hook) =>
      if MountError(f.mounts, path, device, hook) != NO_ERROR then f
      else f.(mounts := [Mount(Key(path), id, 1)] + f.mounts, held := f.held + {id})
    case Unmount(path) =>
      var k := FindMount(f.mounts, Key(path));
      if k == |f.mounts| then f
      else f.(mounts := Put(f.mounts, k), held := f.held - {f.mounts[k].id})
    case Open(path, hook) =>
      var k := FindMount(f.mounts, Key(path));
      if k == |f.mounts| || hook < 0 then f
      else f.(mounts := Get(f.mounts, k), files := f.files + multiset{f.mounts[k].id})
    case Close(id, hook) =>
      var k := Index(f.mounts, id);
      if hook < 0 || k == |f.mounts| then f
      else f.(mounts := Put(f.mounts, k), files := f.files - multiset{id})
  }

  /** New mounts get an address not in use, and files are closed while their mount is there. */
  predicate Allowed(f: Fs, op: Op) {
    match op
    case MountAt(_, id, _, _) => !HasId(f.mounts, id) && id !in f.files && id !in f.held
    case Close(id, _) => id in f.files && HasId(f.mounts, id)
    case _ => true
  }

  /** No mount is unmounted a second time while open files keep it in the table. */
  predicate Balanced(f: Fs, op: Op) {
    op.Unmount? ==>
      var k := FindMount(f.mounts, Key(op.path));
      k < |f.mounts| ==> f.mounts[k].id in f.held
  }

  /** The root normalises to the empty path, so nothing can be mounted on it. */
  lemma RootCannotBeMounted(t: seq<Mount>, path: string, device: bool, hook: int)
    requires forall c :: c in path ==> c == '/'
    ensures MountError(t, path, device, hook) == ERR_BAD_PATH
  {
    var cut := if |path| < 512 then path else path[..511];
    assert forall c :: c in cut ==> c in path;
    SlashesNormaliseToNothing(cut);
  }

  /** A path is refused as mounted exactly when it extends a mounted path, be it in the middle of a field. */
  lemma AlreadyMountedIff(t: seq<Mount>, path: string, device: bool, hook: int)
    requires Key(path) != "" && Key(path)[0] == '/' && hook != ERR_ALREADY_MOUNTED
    ensures MountError(t, path, device, hook) == ERR_ALREADY_MOUNTED <==> exists m :: m in t && m.path <= Key(path)
  {
    hide Key;
    var k := FindMount(t, Key(path));
    assert k < |t| ==> t[k] in t;
  }

  lemma {:induction false} SlashesNormaliseToNothing(path: string)
    requires forall c :: c in path ==> c == '/'
    ensures Normal(path) == ""
  {
    if path != "" {
      assert path[0] in path && forall c :: c in path[1..] ==> c in path;
      SlashFields(path[1..], [""]);
    }
  }

  lemma {:induction false} SlashFields(s: string, stack: seq<string>)
    requires forall c :: c in s ==> c == '/'
    ensures Fold(stack, Split(s)) == stack
  {
    if s == "" {
    } else {
      assert s[0] in s && forall c :: c in s[1..] ==> c in s;
      SlashFields(s[1..], stack);
      assert ([""] + Split(s[1..]))[1..] == Split(s[1..]);
    }
  }

  // ------------------------------------------------------------- what every operation keeps

  lemma PutKeeps(t: seq<Mount>, k: nat)
    requires TableInv(t) && k < |t|
    ensures TableInv(Put(t, k))
  {
    var r := Put(t, k);
    assert t[k] in t;
    forall i | 0 <= i < |r|
      ensures r[i].refs >= 1 && r[i].path != "" && r[i].path[0] == '/'
    {
      var j := if t[k].refs == 1 && i >= k then i + 1 else i;
      assert t[j] in t && r[i].path == t[j].path;
    }
  }

  lemma GetKeeps(t: seq<Mount>, k: nat)
    requires TableInv(t) && k < |t|
    ensures TableInv(Get(t, k))
  {
    var r := Get(t, k);
    forall i | 0 <= i < |r|
      ensures r[i].refs >= 1 && r[i].path != "" && r[i].path[0] == '/'
    {
      assert t[i] in t;
    }
  }

  lemma MountKeeps(t: seq<Mount>, p: string, id: nat)
    requires TableInv(t) && p != "" && p[0] == '/' && FindMount(t, p) == |t| && !HasId(t, id)
    ensures TableInv([Mount(p, id, 1)] + t)
  {
    hide FindMount, Apart, HasId;
    var r := [Mount(p, id, 1)] + t;
    assert forall m :: m in r ==> m == r[0] || m in t;
    forall i, j | 0 <= i < j < |r|
      ensures Apart(r[i], r[j])
    {
      InFront(r[0], t, i);
      InFront(r[0], t, j);
      if i == 0 {
        NewPath(t, p, id, j - 1);
      }
    }
  }

  lemma InFront<T>(x: T, t: seq<T>, i: nat)
    requires i <= |t|
    ensures ([x] + t)[i] == if i == 0 then x else t[i - 1]
  {
  }

  lemma NewPath(t: seq<Mount>, p: string, id: nat, j: nat)
    requires FindMount(t, p) == |t| && !HasId(t, id) && j < |t|
    ensures Apart(Mount(p, id, 1), t[j])
  {
    assert t[j] in t;
  }

  lemma StepKeepsTable(f: Fs, op: Op)
    requires TableInv(f.mounts) && Allowed(f, op)
    ensures TableInv(After(f, op).mounts)
  {
    hide Put, Get, Key;
    match op
    case MountAt(path, id, device, hook) =>
      if MountError(f.mounts, path, device, hook) == NO_ERROR {
        MountKeeps(f.mounts, Key(path), id);
      }
    case Unmount(path) =>
      var k := FindMount(f.mounts, Key(path));
      if k < |f.mounts| {
        PutKeeps(f.mounts, k);
      }
    case Open(path, hook) =>
      var k := FindMount(f.mounts, Key(path));
      if k < |f.mounts| {
        GetKeeps(f.mounts, k);
      }
    case Close(id, hook) =>
      var k := Index(f.mounts, id);
      if k < |f.mounts| {
        PutKeeps(f.mounts, k);
      }
  }

  predicate AllowedRun(f: Fs, ops: seq<Op>, balanced: bool)
    decreases |ops|
  {
    ops == [] || (
      && Allowed(f, ops[0]) && (balanced ==> Balanced(f, ops[0]))
      && AllowedRun(After(f, ops[0]), ops[1..], balanced))
  }

  function Run(f: Fs, ops: seq<Op>): Fs
    decreases |ops|
  {
    if ops == [] then f else Run(After(f, ops[0]), ops[1..])
  }

  const EMPTY := Fs([], multiset{}, {})

  lemma {:induction false} RunKeepsTable(f: Fs, ops: seq<Op>)
    requires TableInv(f.mounts) && AllowedRun(f, ops, false)
    ensures TableInv(Run(f, ops).mounts)
    decreases |ops|
  {
    if ops == [] {
    } else {
      StepKeepsTable(f, ops[0]);
      RunKeepsTable(After(f, ops[0]), ops[1..]);
    }
  }

  /** After any run of mounts, unmounts, opens and closes, a lookup finds the shortest mounted prefix. */
  lemma LookupsAfterAnyRun(ops: seq<Op>, p: string, m: Mount)
    requires AllowedRun(EMPTY, ops, false)
    requires m in Run(EMPTY, ops).mounts && m.path <= p
    ensures var t := Run(EMPTY, ops).mounts; var k := FindMount(t, p);
      && TableInv(t) && k < |t| && t[k].path <= p
      && (t[k] == m || |t[k].path| < |m.path|)
  {
    RunKeepsTable(EMPTY, ops);
    var t := Run(EMPTY, ops).mounts;
    var j :| 0 <= j < |t| && t[j] == m;
    FirstMatchIsShortest(t, p, j);
  }

  // ------------------------------------------------------------- reference counts

  /** A mount's count is one for itself until it is unmounted, and one for each open file. */
  ghost predicate RefInv(f: Fs) {
    && (forall m :: m in f.mounts ==> m.refs == (if m.id in f.held then 1 else 0) + f.files[m.id])
    && (forall id :: id in f.files || id in f.held ==> HasId(f.mounts, id))
  }

  /** An entry after put_mount was there before, with the same count unless it is the one put. */
  lemma PutMember(t: seq<Mount>, k: nat, m: Mount)
    requires TableInv(t) && k < |t| && m in Put(t, k)
    ensures m.id != t[k].id ==> m in t
    ensures m.id == t[k].id ==> t[k].refs > 1 && m == t[k].(refs := t[k].refs - 1)
  {
    var r := Put(t, k);
    var i :| 0 <= i < |r| && r[i] == m;
    var j := if t[k].refs == 1 && i >= k then i + 1 else i;
    assert j != k ==> t[j] == m && t[j].id != t[k].id && t[j] in t;
  }

  lemma PutHas(t: seq<Mount>, k: nat, id: nat)
    requires k < |t| && HasId(t, id) && !(id == t[k].id && t[k].refs == 1)
    ensures HasId(Put(t, k), id)
  {
    var r := Put(t, k);
    var m :| m in t && m.id == id;
    var j :| 0 <= j < |t| && t[j] == m;
    var i := if t[k].refs == 1 && j > k then j - 1 else j;
    assert r[i].id == id && r[i] in r;
  }

  lemma GetMember(t: seq<Mount>, k: nat, m: Mount)
    requires TableInv(t) && k < |t| && m in Get(t, k)
    ensures m.id != t[k].id ==> m in t
    ensures m.id == t[k].id ==> m == t[k].(refs := t[k].refs + 1)
  {
    var r := Get(t, k);
    var i :| 0 <= i < |r| && r[i] == m;
    assert i != k ==> t[i] == m && t[i].id != t[k].id;
  }

  lemma GetHas(t: seq<Mount>, k: nat, id: nat)
    requires k < |t| && HasId(t, id)
    ensures HasId(Get(t, k), id)
  {
    var r := Get(t, k);
    var m :| m in t && m.id == id;
    var j :| 0 <= j < |t| && t[j] == m;
    assert r[j].id == id && r[j] in r;
  }

  /** Dropping a mount's own reference, or one file's. */
  lemma PutKeepsRefs(f: Fs, k: nat, g: Fs)
    requires TableInv(f.mounts) && RefInv(f) && k < |f.mounts|
    requires g.mounts == Put(f.mounts, k)
    requires var id := f.mounts[k].id;
      || (id in f.held && g.held == f.held - {id} && g.files == f.files)
      || (id in f.files && g.held == f.held && g.files == f.files - multiset{id})
    ensures RefInv(g)
  {
    hide Put, HasId, TableInv;
    var own := f.mounts[k];
    assert own in f.mounts;
    forall m | m in g.mounts
      ensures m.refs == (if m.id in g.held then 1 else 0) + g.files[m.id]
    {
      PutMember(f.mounts, k, m);
    }
    forall id | id in g.files || id in g.held
      ensures HasId(g.mounts, id)
    {
      PutHas(f.mounts, k, id);
    }
  }

  lemma OpenKeepsRefs(f: Fs, k: nat, g: Fs)
    requires TableInv(f.mounts) && RefInv(f) && k < |f.mounts|
    requires g == f.(mounts := Get(f.mounts, k), files := f.files + multiset{f.mounts[k].id})
    ensures RefInv(g)
  {
    hide Get, HasId, TableInv;
    assert f.mounts[k] in f.mounts;
    forall m | m in g.mounts
      ensures m.refs == (if m.id in g.held then 1 else 0) + g.files[m.id]
    {
      GetMember(f.mounts, k, m);
    }
    HasSelf(f.mounts, k);
    forall id | id in g.files || id in g.held
      ensures HasId(g.mounts, id)
    {
      GetHas(f.mounts, k, id);
    }
  }

  lemma HasSelf(t: seq<Mount>, k: nat)
    requires k < |t|
    ensures HasId(t, t[k].id)
  {
    assert t[k] in t;
  }

  lemma MountKeepsRefs(f: Fs, p: string, id: nat)
    requires RefInv(f) && !HasId(f.mounts, id) && id !in f.files && id !in f.held
    ensures RefInv(f.(mounts := [Mount(p, id, 1)] + f.mounts, held := f.held + {id}))
  {
    var r := [Mount(p, id, 1)] + f.mounts;
    assert r[0] in r;
    assert forall m :: m in f.mounts ==> m in r && m.id != id;
    assert forall m :: m in r ==> m == r[0] || m in f.mounts;
  }

  lemma IndexHas(t: seq<Mount>, id: nat)
    requires HasId(t, id)
    ensures Index(t, id) < |t|
  {
  }

  /** An unmount of a mount that only open files keep leaves its count one short, or drops the mount. */
  lemma UnbalancedBreaksRefs(f: Fs, k: nat, g: Fs)
    requires TableInv(f.mounts) && RefInv(f) && k < |f.mounts| && f.mounts[k].id !in f.held
    requires g == f.(mounts := Put(f.mounts, k), held := f.held - {f.mounts[k].id})
    ensures !RefInv(g)
  {
    hide Put, TableInv;
    var own := f.mounts[k];
    assert own in f.mounts;
    forall m | m in g.mounts && m.id == own.id
      ensures m.refs < g.files[m.id]
    {
      PutMember(f.mounts, k, m);
    }
    PositiveRefs(f.mounts, k);
  }

  lemma PositiveRefs(t: seq<Mount>, k: nat)
    requires TableInv(t) && k < |t|
    ensures t[k].refs >= 1
  {
    assert t[k] in t;
  }

  /** The counts survive every operation but an unmount of what is unmounted already. */
  lemma StepKeepsRefs(f: Fs, op: Op)
    requires TableInv(f.mounts) && RefInv(f) && Allowed(f, op)
    ensures RefInv(After(f, op)) <==> Balanced(f, op)
  {
    hide Put, Get, Key, RefInv, TableInv, HasId;
    match op
    case MountAt(path, id, device, hook) =>
      if MountError(f.mounts, path, device, hook) == NO_ERROR {
        MountKeepsRefs(f, Key(path), id);
      }
    case Unmount(path) =>
      var k := FindMount(f.mounts, Key(path));
      if k < |f.mounts| {
        if f.mounts[k].id in f.held {
          PutKeepsRefs(f, k, After(f, op));
        } else {
          UnbalancedBreaksRefs(f, k, After(f, op));
        }
      }
    case Open(path, hook) =>
      var k := FindMount(f.mounts, Key(path));
      if k < |f.mounts| && hook >= 0 {
        OpenKeepsRefs(f, k, After(f, op));
      }
    case Close(id, hook) =>
      IndexHas(f.mounts, id);
      if hook >= 0 {
        PutKeepsRefs(f, Index(f.mounts, id), After(f, op));
      }
  }

  lemma {:induction false} RunKeepsRefs(f: Fs, ops: seq<Op>)
    requires TableInv(f.mounts) && RefInv(f) && AllowedRun(f, ops, true)
    ensures TableInv(Run(f, ops).mounts) && RefInv(Run(f, ops))
    decreases |ops|
  {
    if ops == [] {
    } else {
      StepKeepsTable(f, ops[0]);
      StepKeepsRefs(f, ops[0]);
      RunKeepsRefs(After(f, ops[0]), ops[1..]);
    }
  }

  ghost predicate CountsThroughout(f: Fs, ops: seq<Op>)
    decreases |ops|
  {
    RefInv(f) && (ops == [] || CountsThroughout(After(f, ops[0]), ops[1..]))
  }

  /** The counts are right at every point of a run exactly when no mount in it is unmounted twice. */
  lemma {:induction false} CountsIffBalanced(f: Fs, ops: seq<Op>)
    requires TableInv(f.mounts) && RefInv(f) && AllowedRun(f, ops, false)
    ensures CountsThroughout(f, ops) <==> AllowedRun(f, ops, true)
    decreases |ops|
  {
    hide TableInv, RefInv, Allowed, Balanced, After;
    if ops == [] {
    } else {
      StepKeepsTable(f, ops[0]);
      StepKeepsRefs(f, ops[0]);
      var g := After(f, ops[0]);
      if RefInv(g) {
        CountsIffBalanced(g, ops[1..]);
      } else {
        CountsNow(g, ops[1..]);
      }
    }
  }

  lemma CountsNow(f: Fs, ops: seq<Op>)
    requires !RefInv(f)
    ensures !CountsThroughout(f, ops)
  {
    hide RefInv;
  }

  /**
   * While no mount is unmounted twice, every open file's mount stays in the table, with a count
   * that covers the file.
   */
  lemma OpenFilesKeepTheirMount(ops: seq<Op>, id: nat)
    requires AllowedRun(EMPTY, ops, true) && id in Run(EMPTY, ops).files
    ensures HasId(Run(EMPTY, ops).mounts, id)
    ensures forall m :: m in Run(EMPTY, ops).mounts && m.id == id ==> m.refs >= Run(EMPTY, ops).files[id]
  {
    RunKeepsRefs(EMPTY, ops);
  }

  ghost predicate FilesHaveMounts(f: Fs) {
    forall id :: id in f.files ==> HasId(f.mounts, id)
  }

  /** An operation that drops the last reference to a mount on which a file stays open. */
  predicate TakesMount(f: Fs, op: Op) {
    match op
    case Unmount(path) =>
      var k := FindMount(f.mounts, Key(path));
      k < |f.mounts| && f.mounts[k].refs == 1 && f.mounts[k].id in f.files
    case Close(id, hook) =>
      var k := Index(f.mounts, id);
      hook >= 0 && k < |f.mounts| && f.mounts[k].refs == 1 && f.files[id] > 1
    case _ => false
  }

  /** From any state in which every open file has its mount, these operations take one away, and no others do. */
  lemma FilesLoseMountIff(f: Fs, op: Op)
    requires TableInv(f.mounts) && FilesHaveMounts(f) && Allowed(f, op)
    ensures FilesHaveMounts(After(f, op)) <==> !TakesMount(f, op)
  {
    hide Put, Key, Get, TableInv, HasId;
    match op
    case MountAt(path, id, device, hook) =>
      if MountError(f.mounts, path, device, hook) == NO_ERROR {
        MountHas(f, Key(path), id);
      }
    case Unmount(path) =>
      var k := FindMount(f.mounts, Key(path));
      if k < |f.mounts| {
        PutTakes(f, k, After(f, op));
      }
    case Open(path, hook) =>
      var k := FindMount(f.mounts, Key(path));
      if k < |f.mounts| && hook >= 0 {
        HasSelf(f.mounts, k);
        forall id | id in After(f, op).files
          ensures HasId(After(f, op).mounts, id)
        {
          GetHas(f.mounts, k, id);
        }
      }
    case Close(id, hook) =>
      IndexHas(f.mounts, id);
      if hook >= 0 {
        PutTakes(f, Index(f.mounts, id), After(f, op));
      }
  }

  lemma MountHas(f: Fs, p: string, id: nat)
    requires FilesHaveMounts(f)
    ensures FilesHaveMounts(f.(mounts := [Mount(p, id, 1)] + f.mounts, held := f.held + {id}))
  {
    assert forall m :: m in f.mounts ==> m in [Mount(p, id, 1)] + f.mounts;
  }

  lemma PutTakes(f: Fs, k: nat, g: Fs)
    requires TableInv(f.mounts) && FilesHaveMounts(f) && k < |f.mounts|
    requires g.mounts == Put(f.mounts, k) && forall id :: id in g.files ==> id in f.files
    ensures FilesHaveMounts(g) <==> !(f.mounts[k].refs == 1 && f.mounts[k].id in g.files)
  {
    hide Put, TableInv;
    var own := f.mounts[k];
    if own.refs == 1 && own.id in g.files {
      forall m | m in g.mounts
        ensures m.id != own.id
      {
        PutMember(f.mounts, k, m);
      }
      assert !HasId(g.mounts, own.id);
    } else {
      forall id | id in g.files
        ensures HasId(g.mounts, id)
      {
        PutHas(f.mounts, k, id);
      }
    }
  }

  ghost predicate FilesHaveMountsThroughout(f: Fs, ops: seq<Op>)
    decreases |ops|
  {
    FilesHaveMounts(f) && (ops == [] || FilesHaveMountsThroughout(After(f, ops[0]), ops[1..]))
  }

  predicate NeverTakes(f: Fs, ops: seq<Op>)
    decreases |ops|
  {
    ops == [] || (!TakesMount(f, ops[0]) && NeverTakes(After(f, ops[0]), ops[1..]))
  }

  /**
   * Over any run, balanced or not, open files have their mounts at every point exactly when no
   * such operation is in it.
   */
  lemma {:induction false} FilesHaveMountsIff(f: Fs, ops: seq<Op>)
    requires TableInv(f.mounts) && FilesHaveMounts(f) && AllowedRun(f, ops, false)
    ensures FilesHaveMountsThroughout(f, ops) <==> NeverTakes(f, ops)
    decreases |ops|
  {
    hide TableInv, FilesHaveMounts, Allowed, TakesMount, After;
    if ops == [] {
    } else {
      StepKeepsTable(f, ops[0]);
      FilesLoseMountIff(f, ops[0]);
      if !TakesMount(f, ops[0]) {
        FilesHaveMountsIff(After(f, ops[0]), ops[1..]);
      } else {
        LostNow(After(f, ops[0]), ops[1..]);
      }
    }
  }

  lemma LostNow(f: Fs, ops: seq<Op>)
    requires !FilesHaveMounts(f)
    ensures !FilesHaveMountsThroughout(f, ops)
  {
    hide FilesHaveMounts;
  }

  /** As long as the counts are right it takes a second unmount with just one file open on the mount. */
  lemma TakenFromRightCounts(f: Fs, op: Op)
    requires TableInv(f.mounts) && RefInv(f) && Allowed(f, op)
    ensures TakesMount(f, op) <==>
      op.Unmount? &&
      var k := FindMount(f.mounts, Key(op.path));
      k < |f.mounts| && f.mounts[k].id !in f.held && f.files[f.mounts[k].id] == 1
  {
    hide Key, TableInv, HasId;
    assert forall k :: 0 <= k < |f.mounts| ==> f.mounts[k] in f.mounts;
  }

  /** One mount with so many references and files open, unmounted or not. */
  function Lone(p: string, id: nat, refs: int, files: nat, held: set<nat>): Fs {
    Fs([Mount(p, id, refs)], multiset{}[id := files], held)
  }

  lemma LoneOpen(p: string, id: nat, n: nat)
    ensures var f := Lone(Key(p), id, n + 1, n, {id}); var o := Open(p, 0);
      FilesHaveMounts(f) && Allowed(f, o) && After(f, o) == Lone(Key(p), id, n + 2, n + 1, {id})
  {
    hide Key;
    HasSelf(Lone(Key(p), id, n + 1, n, {id}).mounts, 0);
  }

  lemma LoneUnmount(p: string, id: nat, refs: int, held: set<nat>)
    requires refs > 1 && held <= {id}
    ensures var f := Lone(Key(p), id, refs, 2, held); var u := Unmount(p);
      FilesHaveMounts(f) && Allowed(f, u) && After(f, u) == Lone(Key(p), id, refs - 1, 2, {})
  {
    hide Key;
    HasSelf(Lone(Key(p), id, refs, 2, held).mounts, 0);
  }

  lemma LoneClose(p: string, id: nat)
    ensures var f := Lone(p, id, 1, 2, {}); var z := Close(id, 0);
      FilesHaveMounts(f) && Allowed(f, z) && TakesMount(f, z)
  {
    HasSelf(Lone(p, id, 1, 2, {}).mounts, 0);
  }

  lemma LoneMount(p: string, id: nat)
    requires Key(p) != "" && Key(p)[0] == '/'
    ensures var a := MountAt(p, id, true, 0);
      FilesHaveMounts(EMPTY) && Allowed(EMPTY, a) && After(EMPTY, a) == Lone(Key(p), id, 1, 0, {id})
  {
    hide Key;
  }

  /** With two files open, two unmounts leave both; the close of the first then takes the mount from the second. */
  lemma CloseTakesTheMount(p: string, id: nat)
    requires Key(p) != "" && Key(p)[0] == '/'
    ensures var ops := [MountAt(p, id, true, 0), Open(p, 0), Open(p, 0), Unmount(p), Unmount(p)];
      && FilesHaveMountsThroughout(EMPTY, ops)
      && AllowedRun(EMPTY, ops + [Close(id, 0)], false)
      && TakesMount(Run(EMPTY, ops), Close(id, 0))
  {
    hide Key, Run, FilesHaveMountsThroughout, AllowedRun, After, Allowed, TakesMount, FilesHaveMounts, Lone;
    var a, o, u, z := MountAt(p, id, true, 0), Open(p, 0), Unmount(p), Close(id, 0);
    LoneMount(p, id);
    LoneOpen(p, id, 0);
    LoneOpen(p, id, 1);
    LoneUnmount(p, id, 3, {id});
    LoneUnmount(p, id, 2, {});
    LoneClose(Key(p), id);
    var f1, f2, f3 := After(EMPTY, a), After(After(EMPTY, a), o), After(After(After(EMPTY, a), o), o);
    var f4 := After(f3, u);
    var f5 := After(f4, u);
    Nothing(f5);
    Unroll(f4, u, []);
    Unroll(f3, u, [u]);
    Unroll(f2, o, [u, u]);
    Unroll(f1, o, [o, u, u]);
    Unroll(EMPTY, a, [o, o, u, u]);
    Nothing(After(f5, z));
    AllowedUnroll(f5, z, []);
    AllowedUnroll(f4, u, [z]);
    AllowedUnroll(f3, u, [u, z]);
    AllowedUnroll(f2, o, [u, u, z]);
    AllowedUnroll(f1, o, [o, u, u, z]);
    AllowedUnroll(EMPTY, a, [o, o, u, u, z]);
    assert [u] + [] == [u] && [u] + [u] == [u, u] && [o] + [u, u] == [o, u, u];
    assert [o] + [o, u, u] == [o, o, u, u] && [a] + [o, o, u, u] == [a, o, o, u, u];
    assert [z] + [] == [z] && [u] + [z] == [u, z] && [u] + [u, z] == [u, u, z];
    assert [o] + [u, u, z] == [o, u, u, z] && [o] + [o, u, u, z] == [o, o, u, u, z];
    assert [a] + [o, o, u, u, z] == [a, o, o, u, u] + [z];
  }

  lemma Nothing(f: Fs)
    ensures Run(f, []) == f && AllowedRun(f, [], false) && (FilesHaveMounts(f) <==> FilesHaveMountsThroughout(f, []))
  {
  }

  lemma Unroll(f: Fs, op: Op, ops: seq<Op>)
    ensures Run(f, [op] + ops) == Run(After(f, op), ops)
    ensures FilesHaveMountsThroughout(f, [op] + ops) <==>
      FilesHaveMounts(f) && FilesHaveMountsThroughout(After(f, op), ops)
  {
    hide After, FilesHaveMounts;
    assert ([op] + ops)[1..] == ops;
  }

  lemma AllowedUnroll(f: Fs, op: Op, ops: seq<Op>)
    ensures AllowedRun(f, [op] + ops, false) <==> Allowed(f, op) && AllowedRun(After(f, op), ops, false)
  {
    hide After, Allowed;
    assert ([op] + ops)[1..] == ops;
  }

  // ------------------------------------------------------------- the code

  /** strlcpy into a buffer of size bytes. */
  method Strlcpy(dst: array<char>, src: string, size: nat)
    requires 0 < size <= dst.Length && NUL !in src
    modifies dst
    ensures CString(dst[..]) == (if |src| < size then src else src[..size - 1]) && NUL in dst[..]
  {
    var i := 0;
    while i < size - 1 && i < |src|
      invariant 0 <= i <= size - 1 && i <= |src| && dst[..i] == src[..i]
    {
      dst[i] := src[i];
      i := i + 1;
    }
    assert dst[..i] == src[..i];
    dst[i] := NUL;
    assert dst[..i] == src[..i] && dst[..][i] == NUL;
    CStringIs(dst[..], src[..i]);
    assert |src| < size ==> src[..i] == src;
  }

  /** The first two statements of every operation that takes a path. */
  method Normalized(path: string) returns (p: string)
    requires NUL !in path
    ensures p == Key(path)
  {
    var temppath := new char[512];
    Strlcpy(temppath, path, 512);
    NormalizePath(temppath);
    p := CString(temppath[..]);
  }

  class FileSystem {
    var mounts: seq<Mount>
    ghost var files: multiset<nat>
    ghost var held: set<nat>

    ghost function Abs(): Fs
      reads this
    {
      Fs(mounts, files, held)
    }

    ghost predicate Valid()
      reads this
    {
      TableInv(mounts)
    }

    /** fs_init. */
    constructor ()
      ensures Valid() && Abs() == EMPTY
    {
      mounts, files, held := [], multiset{}, {};
    }

    /** find_mount: the position in the list, and the path behind the mount's. */
    method FindMountEntry(path: string) returns (k: nat, trimmed: string)
      ensures k == FindMount(mounts, path)
      ensures k < |mounts| ==> mounts[k].path + trimmed == path
    {
      k := 0;
      trimmed := "";
      while k < |mounts|
        invariant 0 <= k <= |mounts| && forall j :: 0 <= j < k ==> !(mounts[j].path <= path)
      {
        var mountpathlen := |mounts[k].path|;
        if |path| >= mountpathlen && path[..mountpathlen] == mounts[k].path {
          trimmed := path[mountpathlen..];
          FindMountIs(mounts, path, k);
          return;
        }
        k := k + 1;
      }
      FindMountIs(mounts, path, k);
    }

    /** mount, with an address for the new entry, whether the device opens, and what the driver's hook returns. */
    method MountFs(path: string, id: nat, device: bool, hook: int) returns (err: int)
      requires Valid() && NUL !in path && Allowed(Abs(), MountAt(path, id, device, hook))
      modifies this
      ensures Valid() && Abs() == After(old(Abs()), MountAt(path, id, device, hook))
      ensures err == MountError(old(mounts), path, device, hook)
    {
      hide Key, TableInv, HasId;
      StepKeepsTable(Abs(), MountAt(path, id, device, hook));
      var temppath := Normalized(path);
      if temppath == "" || temppath[0] != '/' {
        return ERR_BAD_PATH;
      }
      var k, trimmed := FindMountEntry(temppath);
      if k < |mounts| {
        return ERR_ALREADY_MOUNTED;
      }
      if !device {
        return ERR_NOT_FOUND;
      }
      if hook < 0 {
        return hook;
      }
      mounts := [Mount(temppath, id, 1)] + mounts;
      held := held + {id};
      return NO_ERROR;
    }

    method PutMount(k: nat)
      requires k < |mounts|
      modifies this`mounts
      ensures mounts == Put(old(mounts), k)
    {
      mounts := mounts[k := mounts[k].(refs := mounts[k].refs - 1)];
      if mounts[k].refs == 0 {
        mounts := mounts[..k] + mounts[k + 1..];
      }
    }

    /** fs_unmount. */
    method UnmountFs(path: string) returns (err: int)
      requires Valid() && NUL !in path
      modifies this
      ensures Valid() && Abs() == After(old(Abs()), Unmount(path))
      ensures err == if old(FindMount(mounts, Key(path)) == |mounts|) then ERR_NOT_FOUND else NO_ERROR
    {
      hide Key, TableInv, Put;
      StepKeepsTable(Abs(), Unmount(path));
      var temppath := Normalized(path);
      var k, trimmed := FindMountEntry(temppath);
      if k == |mounts| {
        return ERR_NOT_FOUND;
      }
      held := held - {mounts[k].id};
      PutMount(k);
      return NO_ERROR;
    }

    /**
     * fs_open_file, with what the driver's hook returns for the path behind the mount's; the
     * handle names the mount.
     */
    method OpenFile(path: string, hook: int) returns (err: int, handle: nat, newpath: string)
      requires Valid() && NUL !in path
      modifies this
      ensures Valid() && Abs() == After(old(Abs()), Open(path, hook))
      ensures var k := old(FindMount(mounts, Key(path)));
        if k == |old(mounts)| then err == ERR_NOT_FOUND
        else
          && old(mounts)[k].path + newpath == Key(path)
          && (if hook < 0 then err == hook else err == NO_ERROR && handle == old(mounts)[k].id && handle in files)
    {
      hide Key, TableInv;
      StepKeepsTable(Abs(), Open(path, hook));
      handle, newpath := 0, "";
      var temppath := Normalized(path);
      var k, trimmed := FindMountEntry(temppath);
      if k == |mounts| {
        return ERR_NOT_FOUND, 0, "";
      }
      newpath := trimmed;
      if hook < 0 {
        return hook, 0, newpath;
      }
      handle := mounts[k].id;
      mounts := mounts[k := mounts[k].(refs := mounts[k].refs + 1)];
      files := files + multiset{handle};
      return NO_ERROR, handle, newpath;
    }

    /** fs_close_file. */
    method CloseFile(handle: nat, hook: int) returns (err: int)
      requires Valid() && Allowed(Abs(), Close(handle, hook))
      modifies this
      ensures Valid() && Abs() == After(old(Abs()), Close(handle, hook))
      ensures err == if hook < 0 then hook else NO_ERROR
    {
      hide TableInv, Put;
      StepKeepsTable(Abs(), Close(handle, hook));
      IndexHas(mounts, handle);
      if hook < 0 {
        return hook;
      }
      PutMount(Index(mounts, handle));
      files := files - multiset{handle};
      return NO_ERROR;
    }
  }

  lemma {:induction false} FindMountIs(t: seq<Mount>, p: string, k: nat)
    requires k <= |t| && (forall j :: 0 <= j < k ==> !(t[j].path <= p)) && (k < |t| ==> t[k].path <= p)
    ensures FindMount(t, p) == k
  {
    if k == 0 {
    } else {
      FindMountIs(t[1..], p, k - 1);
    }
  }
}
