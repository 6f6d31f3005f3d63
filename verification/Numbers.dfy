// The number renderers of lib/libc/printf.c and the parsers of lib/libc/atoi.c.
module Numbers {
  import opened Basics
  import opened CStrings

  // ------------------------------------------------------------- notation in a base

  function Digit(d: nat, caps: bool): (c: char)
    requires d < 16
    ensures c != NUL
  {
    if d < 10 then '0' + d as char
    else if caps then 'A' + (d - 10) as char
    else 'a' + (d - 10) as char
  }

  /** The two tables of hexadecimal digits. */
  lemma DigitTable(d: nat)
    requires d < 16
    ensures Digit(d, false) == "0123456789abcdef"[d]
    ensures Digit(d, true) == "0123456789ABCDEF"[d]
  {
  }

  lemma MultiplyMonotone(b: nat, x: nat, y: nat)
    ensures x >= y ==> b * x >= b * y
  {
  }

  lemma DivideSmaller(n: nat, b: nat)
    requires b >= 2
    ensures 0 <= n / b && (n > 0 ==> n / b < n)
  {
    var q := n / b;
    assert q * 2 <= q * b by { MultiplyMonotone(q, b, 2); }
    assert n == q * b + n % b;
  }

  /** n in the given base, most significant digit first, without leading zeros. */
  function Notation(n: nat, base: nat, caps: bool): (r: string)
    requires 2 <= base <= 16
    ensures |r| > 0 && NUL !in r
  {
    DivideSmaller(n, base);
    if n < base then [Digit(n, caps)] else Notation(n / base, base, caps) + [Digit(n % base, caps)]
  }

  function Power(b: nat, k: nat): (r: nat)
    ensures b > 0 ==> r > 0
  {
    if k == 0 then 1 else b * Power(b, k - 1)
  }

  lemma {:induction false} NotationLength(n: nat, base: nat, caps: bool, k: nat)
    requires 2 <= base <= 16 && k > 0 && n < Power(base, k)
    ensures |Notation(n, base, caps)| <= k
  {
    hide Notation, Power;
    NotationGrows(n, base, caps);
    if n < base {
    } else {
      QuotientBelow(n, base, k);
      NotationLength(n / base, base, caps, k - 1);
    }
  }

  lemma NotationGrows(n: nat, base: nat, caps: bool)
    requires 2 <= base <= 16
    ensures |Notation(n, base, caps)| == if n < base then 1 else |Notation(n / base, base, caps)| + 1
  {
    hide Digit;
  }

  lemma NotationOne(n: nat, base: nat, caps: bool)
    requires 2 <= base <= 16 && n < base
    ensures Notation(n, base, caps) == [Digit(n, caps)]
  {
  }

  lemma DecimalDigit(d: nat)
    requires d < 10
    ensures Digit(d, false) == '0' + d as char
  {
  }

  lemma PowerStep(b: nat, k: nat)
    requires k > 0
    ensures Power(b, k) == b * Power(b, k - 1)
  {
  }

  lemma PowerOne(b: nat)
    ensures Power(b, 1) == b && Power(b, 0) == 1
  {
    assert Power(b, 1) == b * Power(b, 0);
  }

  lemma DivideBound(n: nat, b: nat, p: nat)
    requires b > 0 && n < b * p
    ensures n / b < p
  {
    MultiplyMonotone(b, n / b, p);
  }

  lemma QuotientBelow(n: nat, base: nat, k: nat)
    requires base > 0 && k > 0 && base <= n < Power(base, k)
    ensures k > 1 && n / base < Power(base, k - 1)
  {
    hide Power;
    PowerOne(base);
    PowerStep(base, k);
    DivideBound(n, base, Power(base, k - 1));
  }

  lemma {:induction false} PowerAdd(b: nat, j: nat, k: nat)
    ensures Power(b, j + k) == Power(b, j) * Power(b, k)
  {
    if j == 0 {
    } else {
      PowerAdd(b, j - 1, k);
    }
  }

  lemma SixtyFourBits()
    ensures U64 < Power(10, 20) && U64 == Power(16, 16)
  {
    assert Power(10, 5) == 100000;
    PowerAdd(10, 5, 5);
    PowerAdd(10, 10, 10);
    assert Power(16, 4) == 65536;
    PowerAdd(16, 4, 4);
    PowerAdd(16, 8, 8);
  }

  // ------------------------------------------------------------- rendering

  /** The flags the two renderers look at. */
  datatype Style = Style(isSigned: bool, showSign: bool, caps: bool)

  /** The value a 64-bit word holds in two's complement. */
  function AsSigned(n: nat): int
    requires n < U64
  {
    if n < U64 / 2 then n else n - U64
  }

  /** The word that holds an integer. */
  function Word(z: int): nat
    requires -(U64 / 2) <= z < U64 / 2
  {
    if z < 0 then z + U64 else z
  }

  function Abs(z: int): nat {
    if z < 0 then -z else z
  }

  /** What longlong_to_string leaves in its buffer. */
  function Decimal(n: nat, style: Style): (r: string)
    requires n < U64
    ensures NUL !in r
  {
    var z := if style.isSigned then AsSigned(n) else n;
    (if z < 0 then "-" else if style.showSign then "+" else "") + Notation(Abs(z), 10, false)
  }

  function Hex(u: nat, caps: bool): string {
    Notation(u, 16, caps)
  }

  /** One more digit in front. */
  lemma DigitInFront(n: nat, base: nat, caps: bool, rest: string)
    requires 2 <= base <= 16 && n >= base
    ensures Notation(n, base, caps) + rest == Notation(n / base, base, caps) + ([Digit(n % base, caps)] + rest)
  {
  }

  /** buf[--pos] = c. */
  method Push(buf: array<char>, pos: nat, c: char, len: nat) returns (p: nat)
    requires 0 < pos <= len <= buf.Length
    modifies buf
    ensures p == pos - 1 && buf[p..len] == [c] + old(buf[pos..len]) && buf[len..] == old(buf[len..])
  {
    p := pos - 1;
    buf[p] := c;
  }

  /** longlong_to_string: digits go in from the end of the buffer. */
  method LonglongToString(buf: array<char>, n: nat, len: nat, style: Style) returns (pos: nat)
    requires n < U64 && 22 <= len <= buf.Length
    modifies buf
    ensures pos < len && CString(buf[pos..len]) == Decimal(n, style) && pos + |Decimal(n, style)| + 1 == len
    ensures buf[len..] == old(buf[len..])
  {
    hide Notation, Power, Digit, CString;
    var m: nat := n;
    var negative := false;
    if style.isSigned && m >= U64 / 2 {
      negative := true;
      m := U64 - m;
    }
    ghost var digits := Notation(m, 10, false);
    SixtyFourBits();
    NotationLength(m, 10, false, 20);
    pos := Push(buf, len, NUL, len);
    while m >= 10
      invariant |Notation(m, 10, false)| <= pos < len
      invariant Notation(m, 10, false) + buf[pos..len] == digits + [NUL]
      invariant buf[len..] == old(buf[len..])
    {
      DigitInFront(m, 10, false, buf[pos..len]);
      NotationGrows(m, 10, false);
      DecimalDigit(m % 10);
      pos := Push(buf, pos, '0' + (m % 10) as char, len);
      m := m / 10;
    }
    NotationOne(m, 10, false);
    DecimalDigit(m);
    pos := Push(buf, pos, '0' + m as char, len);
    assert buf[pos..len] == digits + [NUL];
    if negative {
      pos := Push(buf, pos, '-', len);
    } else if style.showSign {
      pos := Push(buf, pos, '+', len);
    }
    assert buf[pos..len] == Decimal(n, style) + [NUL];
    CStringIs(buf[pos..len], Decimal(n, style));
  }

  /** longlong_to_hexstring. */
  method LonglongToHexstring(buf: array<char>, u: nat, len: nat, caps: bool) returns (pos: nat)
    requires u < U64 && 17 <= len <= buf.Length
    modifies buf
    ensures pos < len && CString(buf[pos..len]) == Hex(u, caps) && pos + |Hex(u, caps)| + 1 == len
    ensures buf[len..] == old(buf[len..])
  {
    hide Notation, Power, Digit, CString;
    ghost var digits := Notation(u, 16, caps);
    SixtyFourBits();
    NotationLength(u, 16, caps, 16);
    pos := Push(buf, len, NUL, len);
    var m: nat := u;
    var first := true;
    while first || m != 0
      invariant first ==> m == u
      invariant (if m == 0 && !first then 0 else |Notation(m, 16, caps)|) <= pos < len
      invariant (if m == 0 && !first then [] else Notation(m, 16, caps)) + buf[pos..len] == digits + [NUL]
      invariant buf[len..] == old(buf[len..])
      decreases m, first
    {
      NotationGrows(m, 16, caps);
      if m >= 16 {
        DigitInFront(m, 16, caps, buf[pos..len]);
      } else {
        NotationOne(m, 16, caps);
      }
      var digit := m % 16;
      m := m / 16;
      pos := Push(buf, pos, Digit(digit, caps), len);
      first := false;
    }
    assert buf[pos..len] == digits + [NUL];
    CStringIs(buf[pos..len], digits);
  }

  // ------------------------------------------------------------- parsing

  /** Two's complement in 32 bits. */
  function Wrap32(z: int): (r: int)
    ensures -0x8000_0000 <= r < 0x8000_0000 && (r - z) % U32 == 0
  {
    var u := z % U32;
    if u < U32 / 2 then u else u - U32
  }

  predicate IsDigit(c: char) {
    '0' <= c <= '9'
  }

  predicate IsXDigit(c: char) {
    IsDigit(c) || 'a' <= c <= 'f' || 'A' <= c <= 'F'
  }

  function HexVal(c: char): nat {
    if IsDigit(c) then (c - '0') as nat
    else if 'a' <= c <= 'f' then (c - 'a') as nat + 10
    else if 'A' <= c <= 'F' then (c - 'A') as nat + 10
    else 0
  }

  /** The inverse of Digit. */
  lemma DigitValue(d: nat, caps: bool)
    requires d < 16
    ensures HexVal(Digit(d, caps)) == d && IsXDigit(Digit(d, caps)) && (d < 10 ==> IsDigit(Digit(d, caps)))
  {
  }

  /** How many characters from the start the parser's digit test accepts. */
  function Run(s: string, hex: bool): (k: nat)
    ensures k <= |s|
    ensures forall j :: 0 <= j < k ==> s[j] != NUL && if hex then IsXDigit(s[j]) else IsDigit(s[j])
    ensures k < |s| ==> s[k] == NUL || !(if hex then IsXDigit(s[k]) else IsDigit(s[k]))
  {
    if s != [] && s[0] != NUL && (if hex then IsXDigit(s[0]) else IsDigit(s[0])) then 1 + Run(s[1..], hex) else 0
  }

  /** The number a run of digits denotes. */
  function Value(digits: string, base: nat): nat {
    if digits == [] then 0 else Value(digits[..|digits| - 1], base) * base + HexVal(digits[|digits| - 1])
  }

  predicate HexPrefix(s: string) {
    |s| >= 2 && s[0] == '0' && s[1] == 'x'
  }

  /** What atol computes, as a number. */
  function Parse(s: string): int {
    if HexPrefix(s) then Value(s[2..][..Run(s[2..], true)], 16)
    else if s != [] && s[0] == '-' then -(Value(s[1..][..Run(s[1..], false)], 10) as int)
    else Value(s[..Run(s, false)], 10)
  }

  /** What atoul computes, as a number: no sign is read. */
  function ParseUnsigned(s: string): nat {
    if HexPrefix(s) then Value(s[2..][..Run(s[2..], true)], 16) else Value(s[..Run(s, false)], 10)
  }

  /** Reducing after each digit, or once at the end, comes to the same. */
  lemma WrapStep(v: int, w: int, base: nat, d: nat)
    requires v == Wrap32(w)
    ensures Wrap32(v * base + d) == Wrap32(w * base + d)
  {
    var k := (v - w) / U32;
    assert v == w + U32 * k;
    assert v * base + d == w * base + d + U32 * (k * base);
    ModShift(w * base + d, k * base);
  }

  lemma ModShift(z: int, k: int)
    ensures (z + U32 * k) % U32 == z % U32
  {
  }

  lemma WrapNegate(v: int, w: int)
    requires v == Wrap32(w)
    ensures Wrap32(-v) == Wrap32(-w)
  {
    var k := (v - w) / U32;
    assert -v == -w + U32 * (-k);
    ModShift(-w, -k);
  }

  predicate Accepts(c: char, hex: bool) {
    c != NUL && if hex then IsXDigit(c) else IsDigit(c)
  }

  lemma {:induction false} RunIs(s: string, hex: bool, k: nat)
    requires k <= |s| && (forall j :: 0 <= j < k ==> Accepts(s[j], hex)) && !Accepts(At(s, k), hex)
    ensures Run(s, hex) == k
  {
    if k == 0 {
    } else {
      assert At(s[1..], k - 1) == At(s, k);
      RunIs(s[1..], hex, k - 1);
    }
  }

  /** The digit loop both parsers share, from position start. */
  method Digits(num: string, start: nat, hex: bool, isSigned: bool) returns (value: int)
    requires start <= |num|
    ensures var v := Value(num[start..][..Run(num[start..], hex)], if hex then 16 else 10);
      value == if isSigned then Wrap32(v) else v % U32
  {
    ghost var s := num[start..];
    var base := if hex then 16 else 10;
    var i := start;
    value := 0;
    while i < |num| && Accepts(num[i], hex)
      invariant start <= i <= |num|
      invariant forall j :: 0 <= j < i - start ==> Accepts(s[j], hex)
      invariant var v := Value(s[..i - start], base); value == if isSigned then Wrap32(v) else v % U32
    {
      ghost var v := Value(s[..i - start], base);
      assert s[..i - start + 1][..i - start] == s[..i - start];
      var d := HexVal(num[i]);
      if isSigned {
        WrapStep(value, v, base, d);
        value := Wrap32(value * base + d);
      } else {
        ReduceStep(v, base, d);
        value := (value * base + d) % U32;
      }
      i := i + 1;
    }
    RunIs(s, hex, i - start);
  }

  lemma ReduceStep(w: nat, base: nat, d: nat)
    ensures ((w % U32) * base + d) % U32 == (w * base + d) % U32
  {
    assert w == w % U32 + U32 * (w / U32);
    assert w * base + d == (w % U32) * base + d + U32 * ((w / U32) * base);
    ModShift((w % U32) * base + d, (w / U32) * base);
  }

  /** atol, with signed overflow taken as two's complement. */
  method Atol(num: string) returns (value: int)
    ensures value == Wrap32(Parse(num))
  {
    var neg := false;
    if At(num, 0) == '0' && At(num, 1) == 'x' {
      value := Digits(num, 2, true, true);
    } else {
      var start := 0;
      if At(num, 0) == '-' {
        neg := true;
        start := 1;
      }
      value := Digits(num, start, false, true);
      assert num[0..] == num;
    }
    if neg {
      WrapNegate(value, -Parse(num));
      value := Wrap32(-value);
    }
  }

  /** atoul. */
  method Atoul(num: string) returns (value: nat)
    ensures value == ParseUnsigned(num) % U32
  {
    if At(num, 0) == '0' && At(num, 1) == 'x' {
      value := Digits(num, 2, true, false);
    } else {
      value := Digits(num, 0, false, false);
      assert num[0..] == num;
    }
  }

  // ------------------------------------------------------------- printing and parsing undo each other

  lemma NotationStep(n: nat, base: nat, caps: bool)
    requires 2 <= base <= 16
    ensures Notation(n, base, caps) ==
      if n < base then [Digit(n, caps)] else Notation(n / base, base, caps) + [Digit(n % base, caps)]
  {
  }

  lemma ValueNext(q: string, c: char, base: nat)
    ensures Value(q + [c], base) == Value(q, base) * base + HexVal(c) && Value([], base) == 0
  {
    assert (q + [c])[..|q|] == q;
  }

  lemma {:induction false} ValueOfNotation(n: nat, base: nat, caps: bool)
    requires base == 10 || base == 16
    ensures Value(Notation(n, base, caps), base) == n
    ensures forall j :: 0 <= j < |Notation(n, base, caps)| ==> Accepts(Notation(n, base, caps)[j], base == 16)
  {
    hide Notation, Value, Digit;
    NotationStep(n, base, caps);
    if n < base {
      DigitValue(n, caps);
      ValueNext([], Digit(n, caps), base);
      assert [] + [Digit(n, caps)] == [Digit(n, caps)];
    } else {
      DivideSmaller(n, base);
      ValueOfNotation(n / base, base, caps);
      DigitValue(n % base, caps);
      ValueNext(Notation(n / base, base, caps), Digit(n % base, caps), base);
    }
  }

  lemma ReadBack(n: nat, base: nat, caps: bool)
    requires base == 10 || base == 16
    ensures var s := Notation(n, base, caps); Value(s[..Run(s, base == 16)], base) == n
  {
    var s := Notation(n, base, caps);
    ValueOfNotation(n, base, caps);
    RunIs(s, base == 16, |s|);
    assert s[..|s|] == s;
  }

  lemma {:induction false} DecimalDigits(n: nat, j: nat)
    requires j < |Notation(n, 10, false)|
    ensures IsDigit(Notation(n, 10, false)[j])
  {
    ValueOfNotation(n, 10, false);
    assert Accepts(Notation(n, 10, false)[j], false);
  }

  lemma NoPrefix(n: nat)
    ensures !HexPrefix(Notation(n, 10, false)) && Notation(n, 10, false)[0] != '-'
  {
    var s := Notation(n, 10, false);
    DecimalDigits(n, 0);
    if |s| >= 2 {
      DecimalDigits(n, 1);
    }
  }

  /**
   * atol undoes a signed decimal rendering exactly when no plus sign was asked for, or none was
   * printed that matters.
   */
  lemma ParseOfDecimal(z: int, showSign: bool)
    requires -(U64 / 2) <= z < U64 / 2
    ensures Parse(Decimal(Word(z), Style(true, showSign, false))) == if showSign && z > 0 then 0 else z
  {
    var s := Notation(Abs(z), 10, false);
    ReadBack(Abs(z), 10, false);
    NoPrefix(Abs(z));
    var r := Decimal(Word(z), Style(true, showSign, false));
    if z < 0 {
      assert r == "-" + s && r[1..] == s;
    } else if showSign {
      assert r == "+" + s;
      RunIs(r, false, 0);
      assert r[..0] == [];
    } else {
      assert r == s;
    }
  }

  lemma Wrap32Fits(z: int)
    ensures Wrap32(z) == z <==> -0x8000_0000 <= z < 0x8000_0000
  {
  }

  /** The round trip through atol holds for exactly the numbers a 32-bit long can hold. */
  lemma AtolUndoesDecimal(z: int)
    requires -(U64 / 2) <= z < U64 / 2
    ensures Wrap32(Parse(Decimal(Word(z), Style(true, false, false)))) == z <==> -0x8000_0000 <= z < 0x8000_0000
  {
    ParseOfDecimal(z, false);
    Wrap32Fits(z);
  }

  /** atoul reads "0x" and the hexadecimal digits back, in either case of digits, for every 32-bit number. */
  lemma AtoulUndoesHex(u: nat, caps: bool)
    ensures ParseUnsigned("0x" + Hex(u, caps)) == u
    ensures ParseUnsigned("0x" + Hex(u, caps)) % U32 == u <==> u < U32
  {
    ReadBack(u, 16, caps);
    var r := "0x" + Hex(u, caps);
    assert r[2..] == Hex(u, caps);
  }

  /** atol reads them as the two's complement of that number, so as itself below half the range. */
  lemma AtolUndoesHex(u: nat, caps: bool)
    ensures Parse("0x" + Hex(u, caps)) == u
    ensures Wrap32(Parse("0x" + Hex(u, caps))) == u <==> u < 0x8000_0000
  {
    ReadBack(u, 16, caps);
    var r := "0x" + Hex(u, caps);
    assert r[2..] == Hex(u, caps);
    Wrap32Fits(u);
  }

  /** But not behind the upper-case prefix that the alternate form of an upper-case conversion prints. */
  lemma AtoulStopsAtCapitalPrefix(digits: string)
    ensures ParseUnsigned("0X" + digits) == 0
  {
    var r := "0X" + digits;
    assert r[0] == '0' && r[1] == 'X';
    RunIs(r, false, 1);
    assert r[..1] == "0" && "0"[..0] == "";
  }

  lemma AtoulUndoesDecimal(u: nat)
    requires u < U64
    ensures ParseUnsigned(Decimal(u, Style(false, false, false))) == u
  {
    ReadBack(u, 10, false);
    NoPrefix(u);
    assert Decimal(u, Style(false, false, false)) == Notation(u, 10, false);
  }
}
