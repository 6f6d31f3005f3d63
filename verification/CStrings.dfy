// NUL-terminated strings.
module CStrings {
  const NUL: char := '\0'

  /** The characters of a C string that starts at the beginning of s: those before the first NUL. */
  function CString(s: seq<char>): (r: string)
    ensures |r| <= |s| && r == s[..|r|] && NUL !in r
    ensures |r| < |s| ==> s[|r|] == NUL
  {
    if s == [] || s[0] == NUL then [] else [s[0]] + CString(s[1..])
  }

  lemma {:induction false} CStringIs(s: seq<char>, r: string)
    requires |r| < |s| && s[..|r|] == r && s[|r|] == NUL && NUL !in r
    ensures CString(s) == r
  {
    if r == [] {
    } else {
      assert s[0] == r[0] && s[1..][..|r| - 1] == r[1..];
      CStringIs(s[1..], r[1..]);
    }
  }

  lemma {:induction false} WholeCString(s: string)
    requires NUL !in s
    ensures CString(s) == s
  {
    if s == [] {
    } else {
      WholeCString(s[1..]);
    }
  }

  /** Characters of a C string: NUL past the end. */
  function At(s: string, i: nat): char {
    if i < |s| then s[i] else NUL
  }
}
