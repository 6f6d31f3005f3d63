// What several components need: absent values, word sizes, and sequences without duplicates.
module Basics {
  datatype Option<+T> = None | Some(value: T)

  const U32: nat := 0x1_0000_0000 // 2 to the 32
  const U64: nat := 0x1_0000_0000_0000_0000 // 2 to the 64

  ghost predicate Distinct<T>(s: seq<T>) {
    forall i, j :: 0 <= i < j < |s| ==> s[i] != s[j]
  }

  function RemoveAt<T>(l: seq<T>, i: nat): (r: seq<T>)
    requires i < |l|
    ensures |r| == |l| - 1
  {
    l[..i] + l[i+1..]
  }
}
