// Bytes in memory: overwriting a range, and the copying primitives of the C library.
module Bytes {
  type Byte = b: int | 0 <= b < 256

  function Zeros(n: nat): (r: seq<Byte>)
    ensures |r| == n
  {
    seq(n, _ => 0)
  }

  /** s with the bytes from at on replaced by b. */
  function Splice<T>(s: seq<T>, at: nat, b: seq<T>): (r: seq<T>)
    requires at + |b| <= |s|
    ensures |r| == |s|
  {
    s[..at] + b + s[at + |b|..]
  }

  lemma SpliceAt<T>(s: seq<T>, at: nat, b: seq<T>, k: nat)
    requires at + |b| <= |s| && k < |s|
    ensures Splice(s, at, b)[k] == if at <= k < at + |b| then b[k - at] else s[k]
  {
  }

  lemma SpliceNext<T>(s: seq<T>, at: nat, b: seq<T>, x: T)
    requires at + |b| < |s|
    ensures Splice(s, at, b)[at + |b| := x] == Splice(s, at, b + [x])
  {
  }

  /** Two splices side by side are one. */
  lemma SpliceTwice<T>(s: seq<T>, at: nat, b: seq<T>, c: seq<T>)
    requires at + |b| + |c| <= |s|
    ensures Splice(Splice(s, at, b), at + |b|, c) == Splice(s, at, b + c)
  {
  }

  /** memcpy. */
  method Memcpy<T>(dst: array<T>, at: nat, src: seq<T>)
    requires at + |src| <= dst.Length
    modifies dst
    ensures dst[..] == Splice(old(dst[..]), at, src)
  {
    ghost var was := dst[..];
    var i := 0;
    while i < |src|
      invariant 0 <= i <= |src|
      invariant dst[..] == Splice(was, at, src[..i])
    {
      SpliceNext(was, at, src[..i], src[i]);
      assert src[..i] + [src[i]] == src[..i + 1];
      dst[at + i] := src[i];
      i := i + 1;
    }
    assert src[..|src|] == src;
  }
}
