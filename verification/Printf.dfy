// vsnprintf of lib/libc/printf.c: a bounded writer for an unbounded rendering.
module Printf {
  import opened Basics
  import opened CStrings
  import opened Numbers

  // ------------------------------------------------------------- the unbounded rendering

  /** The format flags, one for each bit the source defines; the signed flag is set by the conversion itself. */
  datatype Flags = Flags(
    long: bool, longLong: bool, half: bool, halfHalf: bool, sizeT: bool,
    alt: bool, caps: bool, showSign: bool, left: bool, leadZero: bool)

  const NO_FLAGS := Flags(false, false, false, false, false, false, false, false, false, false)

  /** What one va_arg reads: the bits of an integer, or a string pointer. */
  datatype Arg = Num(bits: nat) | Null | Str(text: string)

  type Args = nat -> Arg

  predicate IsModifier(c: char) {
    IsDigit(c) || c in ".-+#lhz"
  }

  function Flagged(f: Flags, c: char): Flags {
    match c
    case '-' => f.(left := true)
    case '+' => f.(showSign := true)
    case '#' => f.(alt := true)
    case 'l' => f.(longLong := f.longLong || f.long, long := true)
    case 'h' => f.(halfHalf := f.halfHalf || f.half, half := true)
    case 'z' => f.(sizeT := true)
    case _ => f
  }

  /** One modifier character; the number wraps as an unsigned int does. */
  function Modify(f: Flags, width: nat, c: char): (Flags, nat) {
    if IsDigit(c) then
      var f1 := if c == '0' && width == 0 then f.(leadZero := true) else f;
      (f1, (width * 10 + HexVal(c)) % U32)
    else (Flagged(f, c), width)
  }

  /** The range of the integer type a conversion reads: long is 32 bits wide. */
  function Modulus(f: Flags): nat {
    if f.longLong then U64
    else if f.long then U32
    else if f.halfHalf then 0x100
    else if f.half then 0x1_0000
    else U32
  }

  function Bits(a: Arg): nat {
    if a.Num? then a.bits else 0
  }

  function UnsignedArg(f: Flags, a: Arg): (n: nat)
    ensures n < Modulus(f) <= U64
  {
    Bits(a) % Modulus(f)
  }

  /** Sign extension to 64 bits. */
  function SignedArg(f: Flags, a: Arg): (n: nat)
    ensures n < U64
  {
    var u := UnsignedArg(f, a);
    if u < Modulus(f) / 2 then u else u + (U64 - Modulus(f))
  }

  /** The C string behind a pointer. */
  function Text(a: Arg): string {
    if a.Str? then CString(a.text) else "<null>"
  }

  function Repeat(c: char, n: nat): (r: string)
    ensures |r| == n && forall i :: 0 <= i < n ==> r[i] == c
  {
    seq(n, _ => c)
  }

  /** Justification: spaces behind, or spaces or zeros in front, up to the width. */
  function Pad(f: Flags, width: nat, s: string): (r: string)
    ensures |r| == if width > |s| then width else |s|
    ensures if f.left then s <= r else r[|r| - |s|..] == s
    ensures forall j :: 0 <= j < |r| && (if f.left then j >= |s| else j < |r| - |s|) ==>
      r[j] == if f.leadZero && !f.left then '0' else ' '
  {
    var n := if width > |s| then width - |s| else 0;
    if f.left then s + Repeat(' ', n) else Repeat(if f.leadZero then '0' else ' ', n) + s
  }

  predicate TakesArg(c: char) {
    c in "csdiDuUpxXn"
  }

  /** The characters one conversion produces; those of the alternate hexadecimal prefix are not counted in the width. */
  function Conversion(c: char, f: Flags, width: nat, a: Arg): string {
    match c
    case '%' => "%"
    case 'c' => [(Bits(a) % 0x100) as char]
    case 's' => Pad(f, width, Text(a))
    case 'd' => Pad(f, width, Decimal(SignedArg(f, a), Style(true, f.showSign, f.caps)))
    case 'i' => Pad(f, width, Decimal(SignedArg(f, a), Style(true, f.showSign, f.caps)))
    case 'D' => Pad(f, width, Decimal(SignedArg(f.(long := true), a), Style(true, f.showSign, f.caps)))
    case 'u' => Pad(f, width, Decimal(UnsignedArg(f, a), Style(false, f.showSign, f.caps)))
    case 'U' => Pad(f, width, Decimal(UnsignedArg(f.(long := true), a), Style(false, f.showSign, f.caps)))
    case 'x' => HexConversion(f, width, a)
    case 'X' => HexConversion(f.(caps := true), width, a)
    case 'p' => HexConversion(f.(long := true, alt := true), width, a)
    case 'n' => ""
    case _ => ['%', c]
  }

  function HexConversion(f: Flags, width: nat, a: Arg): string {
    (if f.alt then (if f.caps then "0X" else "0x") else "") + Pad(f, width, Hex(UnsignedArg(f, a), f.caps))
  }

  /** Everything the format renders from position i on, with arguments from the ap-th on. */
  function RenderFrom(fmt: string, i: nat, va: Args, ap: nat): string
    requires i <= |fmt|
    decreases |fmt| - i
  {
    if i == |fmt| then ""
    else if fmt[i] != '%' then [fmt[i]] + RenderFrom(fmt, i + 1, va, ap)
    else Field(fmt, i + 1, NO_FLAGS, 0, va, ap)
  }

  /** The same, in the middle of a field. */
  function Field(fmt: string, i: nat, f: Flags, width: nat, va: Args, ap: nat): string
    requires i <= |fmt|
    decreases |fmt| - i
  {
    if i == |fmt| then ""
    else if IsModifier(fmt[i]) then
      var (f1, width1) := Modify(f, width, fmt[i]);
      Field(fmt, i + 1, f1, width1, va, ap)
    else
      Conversion(fmt[i], f, width, va(ap)) + RenderFrom(fmt, i + 1, va, if TakesArg(fmt[i]) then ap + 1 else ap)
  }

  function Render(fmt: string, va: Args): string {
    RenderFrom(fmt, 0, va, 0)
  }

  // ------------------------------------------------------------- the counts %n stores

  /**
   * A store of %n: the argument that points to the integer, the range that the integer keeps of
   * the count, and the count.
   */
  datatype Store = Store(arg: nat, modulus: nat, count: int)

  /** The stores from position i on, each of the number of characters rendered before it, of total ones in all. */
  function StoresFrom(fmt: string, i: nat, va: Args, ap: nat, total: nat): seq<Store>
    requires i <= |fmt|
    decreases |fmt| - i
  {
    if i == |fmt| then []
    else if fmt[i] != '%' then StoresFrom(fmt, i + 1, va, ap, total)
    else FieldStores(fmt, i + 1, NO_FLAGS, 0, va, ap, total)
  }

  function FieldStores(fmt: string, i: nat, f: Flags, width: nat, va: Args, ap: nat, total: nat): seq<Store>
    requires i <= |fmt|
    decreases |fmt| - i
  {
    if i == |fmt| then []
    else if IsModifier(fmt[i]) then
      var (f1, width1) := Modify(f, width, fmt[i]);
      FieldStores(fmt, i + 1, f1, width1, va, ap, total)
    else
      var rest := StoresFrom(fmt, i + 1, va, if TakesArg(fmt[i]) then ap + 1 else ap, total);
      if fmt[i] == 'n' then [Store(ap, Modulus(f), total - |RenderFrom(fmt, i + 1, va, ap + 1)|)] + rest else rest
  }

  function Stores(fmt: string, va: Args): seq<Store> {
    StoresFrom(fmt, 0, va, 0, |Render(fmt, va)|)
  }

  /** Output gets that far before it stops at the bound. */
  predicate Reached(len: nat, count: int) {
    len < 2 || count + 1 < len
  }

  lemma UnfoldStores(fmt: string, i: nat, va: Args, ap: nat, total: nat)
    requires i < |fmt|
    ensures StoresFrom(fmt, i, va, ap, total) ==
            if fmt[i] != '%' then StoresFrom(fmt, i + 1, va, ap, total) else FieldStores(fmt, i + 1, NO_FLAGS, 0, va, ap, total)
  {
  }

  lemma UnfoldFieldStores(fmt: string, i: nat, f: Flags, width: nat, va: Args, ap: nat, total: nat)
    requires i <= |fmt|
    ensures i == |fmt| ==> FieldStores(fmt, i, f, width, va, ap, total) == []
    ensures i < |fmt| && IsModifier(fmt[i]) ==>
      var m := Modify(f, width, fmt[i]); FieldStores(fmt, i, f, width, va, ap, total) == FieldStores(fmt, i + 1, m.0, m.1, va, ap, total)
    ensures i < |fmt| && !IsModifier(fmt[i]) ==>
      var rest := StoresFrom(fmt, i + 1, va, if TakesArg(fmt[i]) then ap + 1 else ap, total);
      FieldStores(fmt, i, f, width, va, ap, total) ==
      if fmt[i] == 'n' then [Store(ap, Modulus(f), total - |RenderFrom(fmt, i + 1, va, ap + 1)|)] + rest else rest
  {
    hide Modify, RenderFrom, StoresFrom, Modulus;
  }

  /** No store from position i on has a count below what is rendered before i. */
  lemma {:induction false} LaterCounts(fmt: string, i: nat, va: Args, ap: nat, total: nat)
    requires i <= |fmt|
    ensures forall s :: s in StoresFrom(fmt, i, va, ap, total) ==> s.count >= total - |RenderFrom(fmt, i, va, ap)|
    decreases |fmt| - i
  {
    hide Conversion, Modulus, RenderFrom, StoresFrom, FieldStores, Field;
    if i == |fmt| {
      NoStores(fmt, va, ap, total);
    } else {
      Unfold(fmt, i, va, ap);
      UnfoldStores(fmt, i, va, ap, total);
      if fmt[i] != '%' {
        LaterCounts(fmt, i + 1, va, ap, total);
      } else {
        LaterFieldCounts(fmt, i + 1, NO_FLAGS, 0, va, ap, total);
      }
    }
  }

  lemma {:induction false} LaterFieldCounts(fmt: string, i: nat, f: Flags, width: nat, va: Args, ap: nat, total: nat)
    requires i <= |fmt|
    ensures forall s :: s in FieldStores(fmt, i, f, width, va, ap, total) ==>
      s.count >= total - |Field(fmt, i, f, width, va, ap)|
    decreases |fmt| - i
  {
    hide Conversion, Modulus, RenderFrom, StoresFrom, FieldStores, Field, Modify;
    UnfoldField(fmt, i, f, width, va, ap);
    UnfoldFieldStores(fmt, i, f, width, va, ap, total);
    if i == |fmt| {
    } else if IsModifier(fmt[i]) {
      var m := Modify(f, width, fmt[i]);
      LaterFieldCounts(fmt, i + 1, m.0, m.1, va, ap, total);
    } else {
      LaterCounts(fmt, i + 1, va, if TakesArg(fmt[i]) then ap + 1 else ap, total);
    }
  }

  lemma NoStores(fmt: string, va: Args, ap: nat, total: nat)
    ensures StoresFrom(fmt, |fmt|, va, ap, total) == []
  {
  }

  // ------------------------------------------------------------- the bound

  /**
   * How many characters are stored before the terminator.  The test against the bound
   * comes after each character, so it can only stop the output for bounds of two or more.
   */
  function Stored(len: nat, rendered: string): (k: nat)
    ensures k <= |rendered|
  {
    if len >= 2 && |rendered| > len - 1 then len - 1 else |rendered|
  }

  /**
   * The call stays within len bytes exactly for bounds of two or more, or when a bound of one
   * meets an empty rendering.
   */
  lemma BoundIsHonoured(len: nat, rendered: string)
    ensures Stored(len, rendered) + 1 <= len <==> len >= 2 || (len == 1 && rendered == "")
  {
  }

  /** Output is out so far and rest is to come. */
  ghost predicate Going(out: string, rest: string, r: string, len: nat) {
    r == out + rest && (len >= 2 ==> |out| + 1 < len)
  }

  /** Output stopped at the bound. */
  ghost predicate Stopped(out: string, r: string, len: nat) {
    |out| + 1 == len && len >= 2 && out <= r
  }

  lemma GoingStep(out: string, c: char, rest: string, r: string, len: nat)
    requires Going(out, [c] + rest, r, len)
    ensures |out| < Stored(len, r)
    ensures if |out| + 2 == len then Stopped(out + [c], r, len) else Going(out + [c], rest, r, len)
  {
    assert out + ([c] + rest) == out + [c] + rest;
  }

  lemma GoingLength(out: string, rest: string, r: string, len: nat)
    requires Going(out, rest, r, len)
    ensures |out| + |rest| == |r| && Reached(len, |out|)
  {
  }

  /** OUTPUT_CHAR. */
  method OutputChar(str: array<char>, len: nat, written: nat, c: char, ghost rest: string, ghost r: string)
    returns (w: nat, full: bool)
    requires written <= str.Length && Going(str[..written], [c] + rest, r, len) && Stored(len, r) < str.Length
    modifies str
    ensures written <= w < str.Length && (forall k :: w <= k < str.Length ==> str[k] == old(str[k]))
    ensures if full then Stopped(str[..w], r, len) else Going(str[..w], rest, r, len)
    ensures w + |rest| <= |r|
  {
    hide Going, Stopped;
    GoingLength(str[..written], [c] + rest, r, len);
    GoingStep(str[..written], c, rest, r, len);
    ghost var out := str[..written];
    str[written] := c;
    w := written + 1;
    assert str[..w] == out + [c];
    full := w + 1 == len;
  }

  /** The loops that output a string. */
  method OutputText(str: array<char>, len: nat, written: nat, s: string, ghost rest: string, ghost r: string)
    returns (w: nat, full: bool)
    requires written < str.Length && Going(str[..written], s + rest, r, len) && Stored(len, r) < str.Length
    modifies str
    ensures written <= w < str.Length && (forall k :: w <= k < str.Length ==> str[k] == old(str[k]))
    ensures if full then Stopped(str[..w], r, len) else Going(str[..w], rest, r, len)
    ensures w + |rest| <= |r|
  {
    hide Going, Stopped;
    w, full := written, false;
    var i := 0;
    assert s[0..] == s;
    GoingLength(str[..written], s + rest, r, len);
    while i < |s| && !full
      invariant 0 <= i <= |s| && written <= w < str.Length && w + |s| - i + |rest| <= |r|
      invariant forall k :: w <= k < str.Length ==> str[k] == old(str[k])
      invariant if full then Stopped(str[..w], r, len) else Going(str[..w], s[i..] + rest, r, len)
    {
      assert s[i..] + rest == [s[i]] + (s[i + 1..] + rest);
      w, full := OutputChar(str, len, w, s[i], s[i + 1..] + rest, r);
      i := i + 1;
    }
    assert !full ==> s[i..] + rest == rest;
  }

  /** The loops that output padding. */
  method OutputPad(str: array<char>, len: nat, written: nat, c: char, from: nat, to: nat, ghost rest: string,
                   ghost r: string)
    returns (w: nat, full: bool)
    requires written < str.Length && Stored(len, r) < str.Length
    requires Going(str[..written], Repeat(c, if from > to then from - to else 0) + rest, r, len)
    modifies str
    ensures written <= w < str.Length && (forall k :: w <= k < str.Length ==> str[k] == old(str[k]))
    ensures if full then Stopped(str[..w], r, len) else Going(str[..w], rest, r, len)
    ensures w + |rest| <= |r|
  {
    hide Going, Stopped, Repeat;
    w, full := written, false;
    var formatNum := from;
    GoingLength(str[..written], Repeat(c, if from > to then from - to else 0) + rest, r, len);
    while formatNum > to && !full
      invariant written <= w < str.Length && w + (if formatNum > to then formatNum - to else 0) + |rest| <= |r|
      invariant forall k :: w <= k < str.Length ==> str[k] == old(str[k])
      invariant if full then Stopped(str[..w], r, len)
                else Going(str[..w], Repeat(c, if formatNum > to then formatNum - to else 0) + rest, r, len)
    {
      ghost var n := formatNum - to;
      assert Repeat(c, n) + rest == [c] + (Repeat(c, n - 1) + rest);
      w, full := OutputChar(str, len, w, c, Repeat(c, n - 1) + rest, r);
      formatNum := formatNum - 1;
    }
    assert !full ==> Repeat(c, 0) + rest == rest;
  }

  lemma PadSplits(f: Flags, width: nat, s: string, rest: string)
    ensures f.left ==> Pad(f, width, s) + rest == s + (Repeat(' ', if width > |s| then width - |s| else 0) + rest)
    ensures !f.left ==>
      Pad(f, width, s) + rest == Repeat(if f.leadZero then '0' else ' ', if width > |s| then width - |s| else 0) + (s + rest)
  {
  }

  /** The shared output code. */
  method OutputString(str: array<char>, len: nat, written: nat, f: Flags, width: nat, s: string,
                      ghost rest: string, ghost r: string)
    returns (w: nat, full: bool)
    requires written < str.Length && Going(str[..written], Pad(f, width, s) + rest, r, len)
    requires Stored(len, r) < str.Length
    modifies str
    ensures written <= w < str.Length && (forall k :: w <= k < str.Length ==> str[k] == old(str[k]))
    ensures if full then Stopped(str[..w], r, len) else Going(str[..w], rest, r, len)
    ensures w + |rest| <= |r|
  {
    hide Going, Stopped, Pad, Repeat;
    ghost var n := if width > |s| then width - |s| else 0;
    PadSplits(f, width, s, rest);
    if f.left {
      w, full := OutputText(str, len, written, s, Repeat(' ', n) + rest, r);
      if full {
        return;
      }
      w, full := OutputPad(str, len, w, ' ', width, |s|, rest, r);
    } else {
      w, full := OutputPad(str, len, written, if f.leadZero then '0' else ' ', width, |s|, s + rest, r);
      if full {
        return;
      }
      w, full := OutputText(str, len, w, s, rest, r);
    }
  }

  // ------------------------------------------------------------- the conversions

  /** The integer conversions in decimal. */
  method ConvertDecimal(str: array<char>, len: nat, written: nat, n: nat, style: Style, f: Flags, width: nat,
                        numBuffer: array<char>, ghost rest: string, ghost r: string)
    returns (w: nat, full: bool)
    requires n < U64 && numBuffer.Length == 32 && numBuffer != str
    requires written < str.Length && Stored(len, r) < str.Length
    requires Going(str[..written], Pad(f, width, Decimal(n, style)) + rest, r, len)
    modifies str, numBuffer
    ensures written <= w < str.Length && (forall k :: w <= k < str.Length ==> str[k] == old(str[k]))
    ensures if full then Stopped(str[..w], r, len) else Going(str[..w], rest, r, len)
    ensures w + |rest| <= |r|
  {
    hide Going, Stopped, Pad, Decimal;
    var pos := LonglongToString(numBuffer, n, 32, style);
    w, full := OutputString(str, len, written, f, width, CString(numBuffer[pos..32]), rest, r);
  }

  /** The integer conversions in hexadecimal. */
  method ConvertHex(str: array<char>, len: nat, written: nat, a: Arg, f: Flags, width: nat,
                    numBuffer: array<char>, ghost rest: string, ghost r: string)
    returns (w: nat, full: bool)
    requires numBuffer.Length == 32 && numBuffer != str
    requires written < str.Length && Stored(len, r) < str.Length
    requires Going(str[..written], HexConversion(f, width, a) + rest, r, len)
    modifies str, numBuffer
    ensures written <= w < str.Length && (forall k :: w <= k < str.Length ==> str[k] == old(str[k]))
    ensures if full then Stopped(str[..w], r, len) else Going(str[..w], rest, r, len)
    ensures w + |rest| <= |r|
  {
    hide Going, Stopped, Pad, Hex;
    var n := UnsignedArg(f, a);
    var pos := LonglongToHexstring(numBuffer, n, 32, f.caps);
    w, full := written, false;
    var x := if f.caps then 'X' else 'x';
    ghost var body := Pad(f, width, Hex(n, f.caps)) + rest;
    HexSplits(f, width, a, rest);
    if f.alt {
      w, full := OutputChar(str, len, w, '0', [x] + body, r);
      if full {
        return;
      }
      w, full := OutputChar(str, len, w, x, body, r);
      if full {
        return;
      }
    }
    w, full := OutputString(str, len, w, f, width, CString(numBuffer[pos..32]), rest, r);
  }

  lemma HexSplits(f: Flags, width: nat, a: Arg, rest: string)
    ensures var body := Pad(f, width, Hex(UnsignedArg(f, a), f.caps)) + rest;
      HexConversion(f, width, a) + rest ==
      if f.alt then ['0'] + ([if f.caps then 'X' else 'x'] + body) else body
  {
    hide Pad, Hex, UnsignedArg;
    var p := Pad(f, width, Hex(UnsignedArg(f, a), f.caps));
    if f.alt {
      assert HexConversion(f, width, a) == ['0'] + [if f.caps then 'X' else 'x'] + p;
    } else {
      assert HexConversion(f, width, a) == p;
    }
  }

  lemma CharacterConversions(c: char, f: Flags, width: nat, a: Arg, rest: string)
    ensures c == '%' ==> Conversion(c, f, width, a) + rest == ['%'] + rest
    ensures c == 'c' ==> Conversion(c, f, width, a) + rest == [(Bits(a) % 0x100) as char] + rest
    ensures c == 's' ==> Conversion(c, f, width, a) == Pad(f, width, Text(a))
    ensures c == 'n' ==> Conversion(c, f, width, a) + rest == rest
    ensures c != '%' && !TakesArg(c) ==> Conversion(c, f, width, a) + rest == ['%'] + ([c] + rest)
  {
    hide Pad, Bits, Text, Decimal, HexConversion, SignedArg, UnsignedArg;
    if c != '%' && !TakesArg(c) {
      assert ['%', c] == ['%'] + [c];
    }
  }

  lemma NumberConversions(c: char, f: Flags, width: nat, a: Arg)
    ensures c == 'd' || c == 'i' ==>
      Conversion(c, f, width, a) == Pad(f, width, Decimal(SignedArg(f, a), Style(true, f.showSign, f.caps)))
    ensures c == 'D' ==>
      Conversion(c, f, width, a) ==
        Pad(f, width, Decimal(SignedArg(f.(long := true), a), Style(true, f.showSign, f.caps)))
    ensures c == 'u' ==>
      Conversion(c, f, width, a) == Pad(f, width, Decimal(UnsignedArg(f, a), Style(false, f.showSign, f.caps)))
    ensures c == 'U' ==>
      Conversion(c, f, width, a) ==
        Pad(f, width, Decimal(UnsignedArg(f.(long := true), a), Style(false, f.showSign, f.caps)))
    ensures c == 'x' ==> Conversion(c, f, width, a) == HexConversion(f, width, a)
    ensures c == 'X' ==> Conversion(c, f, width, a) == HexConversion(f.(caps := true), width, a)
    ensures c == 'p' ==> Conversion(c, f, width, a) == HexConversion(f.(long := true, alt := true), width, a)
  {
    hide Pad, Decimal, HexConversion, SignedArg, UnsignedArg;
  }

  /** The switch over the conversion character. */
  method Convert(str: array<char>, len: nat, written: nat, c: char, f: Flags, width: nat, a: Arg,
                 numBuffer: array<char>, ghost rest: string, ghost r: string)
    returns (w: nat, full: bool)
    requires numBuffer.Length == 32 && numBuffer != str
    requires written < str.Length && Stored(len, r) < str.Length
    requires Going(str[..written], Conversion(c, f, width, a) + rest, r, len)
    modifies str, numBuffer
    ensures written <= w < str.Length && (forall k :: w <= k < str.Length ==> str[k] == old(str[k]))
    ensures if full then Stopped(str[..w], r, len) else Going(str[..w], rest, r, len)
    ensures w + |rest| <= |r|
  {
    hide Going, Stopped, Conversion, Pad, Decimal, HexConversion, SignedArg, UnsignedArg, Bits, Text;
    CharacterConversions(c, f, width, a, rest);
    NumberConversions(c, f, width, a);
    w, full := written, false;
    match c {
      case '%' =>
        w, full := OutputChar(str, len, w, '%', rest, r);
      case 'c' =>
        w, full := OutputChar(str, len, w, (Bits(a) % 0x100) as char, rest, r);
      case 's' =>
        w, full := OutputString(str, len, w, f, width, Text(a), rest, r);
      case 'd' =>
        w, full := ConvertDecimal(str, len, w, SignedArg(f, a), Style(true, f.showSign, f.caps), f, width, numBuffer, rest, r);
      case 'i' =>
        w, full := ConvertDecimal(str, len, w, SignedArg(f, a), Style(true, f.showSign, f.caps), f, width, numBuffer, rest, r);
      case 'D' =>
        var n := SignedArg(f.(long := true), a);
        w, full := ConvertDecimal(str, len, w, n, Style(true, f.showSign, f.caps), f, width, numBuffer, rest, r);
      case 'u' =>
        w, full := ConvertDecimal(str, len, w, UnsignedArg(f, a), Style(false, f.showSign, f.caps), f, width, numBuffer, rest, r);
      case 'U' =>
        var n := UnsignedArg(f.(long := true), a);
        w, full := ConvertDecimal(str, len, w, n, Style(false, f.showSign, f.caps), f, width, numBuffer, rest, r);
      case 'x' =>
        w, full := ConvertHex(str, len, w, a, f, width, numBuffer, rest, r);
      case 'X' =>
        w, full := ConvertHex(str, len, w, a, f.(caps := true), width, numBuffer, rest, r);
      case 'p' =>
        w, full := ConvertHex(str, len, w, a, f.(long := true, alt := true), width, numBuffer, rest, r);
      case 'n' =>
        GoingLength(str[..written], rest, r, len);
      case _ =>
        w, full := OutputChar(str, len, w, '%', [c] + rest, r);
        if full {
          return;
        }
        w, full := OutputChar(str, len, w, c, rest, r);
    }
  }

  /** The loop over the modifiers of a directive. */
  method ReadModifiers(fmt: string, start: nat, ghost va: Args, ghost ap: nat, ghost total: nat)
    returns (i: nat, flags: Flags, formatNum: nat)
    requires start <= |fmt|
    ensures start <= i <= |fmt| && (i < |fmt| ==> !IsModifier(fmt[i]))
    ensures Field(fmt, start, NO_FLAGS, 0, va, ap) == Field(fmt, i, flags, formatNum, va, ap)
    ensures FieldStores(fmt, start, NO_FLAGS, 0, va, ap, total) == FieldStores(fmt, i, flags, formatNum, va, ap, total)
  {
    hide Field, FieldStores, Modify, IsModifier, Conversion, RenderFrom, StoresFrom, Modulus;
    i, flags, formatNum := start, NO_FLAGS, 0;
    while i < |fmt| && IsModifier(fmt[i])
      invariant start <= i <= |fmt|
      invariant Field(fmt, start, NO_FLAGS, 0, va, ap) == Field(fmt, i, flags, formatNum, va, ap)
      invariant FieldStores(fmt, start, NO_FLAGS, 0, va, ap, total) == FieldStores(fmt, i, flags, formatNum, va, ap, total)
    {
      UnfoldField(fmt, i, flags, formatNum, va, ap);
      UnfoldFieldStores(fmt, i, flags, formatNum, va, ap, total);
      var m := Modify(flags, formatNum, fmt[i]);
      flags, formatNum := m.0, m.1;
      i := i + 1;
    }
  }

  /** What follows a percent sign: a conversion, or nothing where the format ends first. */
  method OutputDirective(str: array<char>, len: nat, written: nat, fmt: string, start: nat, va: Args, ap: nat,
                         numBuffer: array<char>, ghost done: seq<Store>, ghost r: string)
    returns (w: nat, full: bool, i: nat, ap': nat, more: seq<Store>)
    requires start <= |fmt| && numBuffer.Length == 32 && numBuffer != str
    requires written < str.Length && Stored(len, r) < str.Length
    requires Going(str[..written], Field(fmt, start, NO_FLAGS, 0, va, ap), r, len)
    modifies str, numBuffer
    ensures start <= i <= |fmt| && written <= w < str.Length
    ensures forall k :: w <= k < str.Length ==> str[k] == old(str[k])
    ensures if full then Stopped(str[..w], r, len) else Going(str[..w], RenderFrom(fmt, i, va, ap'), r, len)
    ensures w + |RenderFrom(fmt, i, va, ap')| <= |r|
    ensures done + FieldStores(fmt, start, NO_FLAGS, 0, va, ap, |r|) == (done + more) + StoresFrom(fmt, i, va, ap', |r|)
    ensures forall s :: s in more ==> Reached(len, s.count)
  {
    hide Going, Stopped, Conversion, RenderFrom, Field, Modify, Flagged, Stored, StoresFrom, FieldStores, Modulus,
         Reached, Render, Stores, IsModifier, TakesArg;
    var flags, formatNum;
    i, flags, formatNum := ReadModifiers(fmt, start, va, ap, |r|);
    w, full, ap', more := written, false, ap, [];
    UnfoldField(fmt, i, flags, formatNum, va, ap);
    UnfoldFieldStores(fmt, i, flags, formatNum, va, ap, |r|);
    GoingLength(str[..written], Field(fmt, i, flags, formatNum, va, ap), r, len);
    if i == |fmt| {
      RenderEnd(fmt, va, ap);
      NoStores(fmt, va, ap, |r|);
      assert done + more == done;
      return;
    }
    var c := fmt[i];
    i := i + 1;
    if c == 'n' {
      CountsOnly(flags, formatNum, va(ap), RenderFrom(fmt, i, va, ap + 1));
      more := [Store(ap, Modulus(flags), written)];
    }
    if TakesArg(c) {
      ap' := ap + 1;
    }
    MoveStores(done, more, StoresFrom(fmt, i, va, ap', |r|));
    w, full := Convert(str, len, w, c, flags, formatNum, va(ap), numBuffer, RenderFrom(fmt, i, va, ap'), r);
  }

  /** vsnprintf, with the arguments given as a list without end. */
  method Vsnprintf(str: array<char>, len: nat, fmt: string, va: Args) returns (charsWritten: nat, stores: seq<Store>)
    requires NUL !in fmt && Stored(len, Render(fmt, va)) < str.Length
    modifies str
    ensures charsWritten == Stored(len, Render(fmt, va))
    ensures str[..charsWritten] == Render(fmt, va)[..charsWritten] && str[charsWritten] == NUL
    ensures str[charsWritten + 1..] == old(str[charsWritten + 1..])
    ensures stores <= Stores(fmt, va)
    ensures forall j :: 0 <= j < |Stores(fmt, va)| ==> (j < |stores| <==> Reached(len, Stores(fmt, va)[j].count))
  {
    hide Going, Stopped, Conversion, RenderFrom, Field, Modify, Flagged, Stored, StoresFrom, FieldStores, Modulus,
         Reached, Render, Stores, IsModifier, TakesArg;
    ghost var r := Render(fmt, va);
    var numBuffer := new char[32];
    var i, ap := 0, 0;
    var full := false;
    charsWritten, stores := 0, [];
    Begin(fmt, va, len);
    StoresStart(fmt, va);
    GoingLength("", RenderFrom(fmt, 0, va, 0), r, len);
    while i < |fmt| && !full
      invariant 0 <= i <= |fmt| && charsWritten < str.Length
      invariant forall k :: charsWritten <= k < str.Length ==> str[k] == old(str[k])
      invariant if full then Stopped(str[..charsWritten], r, len)
                else Going(str[..charsWritten], RenderFrom(fmt, i, va, ap), r, len)
      invariant charsWritten + |RenderFrom(fmt, i, va, ap)| <= |r|
      invariant stores + StoresFrom(fmt, i, va, ap, |r|) == Stores(fmt, va)
      invariant forall s :: s in stores ==> Reached(len, s.count)
    {
      Unfold(fmt, i, va, ap);
      UnfoldStores(fmt, i, va, ap, |r|);
      if fmt[i] == '%' {
        var more;
        charsWritten, full, i, ap, more := OutputDirective(str, len, charsWritten, fmt, i + 1, va, ap, numBuffer, stores, r);
        stores := stores + more;
      } else {
        charsWritten, full := OutputChar(str, len, charsWritten, fmt[i], RenderFrom(fmt, i + 1, va, ap), r);
        i := i + 1;
      }
    }
    if i == |fmt| {
      RenderEnd(fmt, va, ap);
      NoStores(fmt, va, ap, |r|);
    }
    LaterCounts(fmt, i, va, ap, |r|);
    StoresReached(str[..charsWritten], r, len, full, stores, StoresFrom(fmt, i, va, ap, |r|));
    Finish(str[..charsWritten], r, len, full);
    str[charsWritten] := NUL;
  }

  lemma CountsOnly(f: Flags, width: nat, a: Arg, rest: string)
    ensures Conversion('n', f, width, a) + rest == rest && TakesArg('n')
  {
  }

  lemma MoveStores(done: seq<Store>, more: seq<Store>, later: seq<Store>)
    ensures done + (more + later) == (done + more) + later
    ensures more == [] ==> done + later == (done + more) + later
  {
  }

  lemma StoresReached(out: string, r: string, len: nat, full: bool, done: seq<Store>, later: seq<Store>)
    requires full ==> Stopped(out, r, len)
    requires forall s :: s in done ==> Reached(len, s.count)
    requires forall s :: s in later ==> full && s.count >= |out|
    ensures forall j :: 0 <= j < |done + later| ==> (j < |done| <==> Reached(len, (done + later)[j].count))
  {
    forall j | 0 <= j < |done + later|
      ensures j < |done| <==> Reached(len, (done + later)[j].count)
    {
      var x := (done + later)[j];
      assert if j < |done| then x in done else x in later;
    }
  }

  lemma StoresStart(fmt: string, va: Args)
    ensures [] + StoresFrom(fmt, 0, va, 0, |Render(fmt, va)|) == Stores(fmt, va)
  {
    hide StoresFrom, Render;
  }

  lemma Begin(fmt: string, va: Args, len: nat)
    ensures Going("", RenderFrom(fmt, 0, va, 0), Render(fmt, va), len)
  {
  }

  lemma Unfold(fmt: string, i: nat, va: Args, ap: nat)
    requires i < |fmt|
    ensures RenderFrom(fmt, i, va, ap) ==
            if fmt[i] != '%' then [fmt[i]] + RenderFrom(fmt, i + 1, va, ap) else Field(fmt, i + 1, NO_FLAGS, 0, va, ap)
  {
  }

  lemma UnfoldField(fmt: string, i: nat, f: Flags, width: nat, va: Args, ap: nat)
    requires i <= |fmt|
    ensures i == |fmt| ==> Field(fmt, i, f, width, va, ap) == ""
    ensures i < |fmt| && IsModifier(fmt[i]) ==>
      var m := Modify(f, width, fmt[i]); Field(fmt, i, f, width, va, ap) == Field(fmt, i + 1, m.0, m.1, va, ap)
    ensures i < |fmt| && !IsModifier(fmt[i]) ==>
      Field(fmt, i, f, width, va, ap) ==
      Conversion(fmt[i], f, width, va(ap)) + RenderFrom(fmt, i + 1, va, if TakesArg(fmt[i]) then ap + 1 else ap)
  {
    hide Conversion, Modify, RenderFrom;
  }

  lemma RenderEnd(fmt: string, va: Args, ap: nat)
    ensures RenderFrom(fmt, |fmt|, va, ap) == ""
  {
  }

  lemma Finish(out: string, r: string, len: nat, full: bool)
    requires if full then Stopped(out, r, len) else Going(out, "", r, len)
    ensures |out| == Stored(len, r) && out == r[..|out|]
  {
  }

  // ------------------------------------------------------------- what is printed can be read back

  /** An int printed by %d is what atol reads. */
  lemma FormattedIntReadsBack(va: Args, z: int)
    requires -0x8000_0000 <= z < 0x8000_0000 && Bits(va(0)) % U32 == z % U32
    ensures Wrap32(Parse(Render("%d", va))) == z
  {
    hide Parse, Decimal, Wrap32, Pad, Conversion, SignedArg, Bits, Render;
    RenderOne(va, 'd');
    NumberConversions('d', NO_FLAGS, 0, va(0));
    IntArgument(va(0), z);
    PadNothing(NO_FLAGS, Decimal(Word(z), Style(true, false, false)));
    AtolUndoesDecimal(z);
  }

  /** The word that an int argument becomes. */
  lemma IntArgument(a: Arg, z: int)
    requires -0x8000_0000 <= z < 0x8000_0000 && Bits(a) % U32 == z % U32
    ensures SignedArg(NO_FLAGS, a) == Word(z)
  {
    assert z % U32 == if z < 0 then z + U32 else z;
  }

  /** A conversion without modifiers. */
  lemma PlainField(fmt: string, i: nat, va: Args, ap: nat)
    requires i + 1 < |fmt| && fmt[i] == '%' && !IsModifier(fmt[i + 1])
    ensures RenderFrom(fmt, i, va, ap) ==
            Conversion(fmt[i + 1], NO_FLAGS, 0, va(ap)) + RenderFrom(fmt, i + 2, va, if TakesArg(fmt[i + 1]) then ap + 1 else ap)
  {
    hide Conversion, RenderFrom, Field;
    Unfold(fmt, i, va, ap);
    UnfoldField(fmt, i + 1, NO_FLAGS, 0, va, ap);
  }

  lemma RenderOne(va: Args, c: char)
    requires !IsModifier(c)
    ensures Render(['%', c], va) == Conversion(c, NO_FLAGS, 0, va(0))
  {
    hide Conversion, RenderFrom;
    var fmt := ['%', c];
    var x := Conversion(c, NO_FLAGS, 0, va(0));
    PlainField(fmt, 0, va, 0);
    var ap := if TakesArg(c) then 1 else 0;
    RenderEnd(fmt, va, ap);
    assert x + "" == x;
  }

  lemma PadNothing(f: Flags, s: string)
    ensures Pad(f, 0, s) == s
  {
    assert s + Repeat(' ', 0) == s;
  }

  /** A 32-bit word printed by %#x is what atoul reads. */
  lemma FormattedHexReadsBack(va: Args)
    ensures ParseUnsigned(Render("%#x", va)) == Bits(va(0)) % U32
  {
    hide Hex, ParseUnsigned;
    var fmt := "%#x";
    var f := NO_FLAGS.(alt := true);
    var x := Conversion('x', f, 0, va(0));
    assert Render(fmt, va) == Field(fmt, 1, NO_FLAGS, 0, va, 0) == Field(fmt, 2, f, 0, va, 0);
    assert RenderFrom(fmt, 3, va, 1) == "";
    assert x + "" == x;
    var u := Bits(va(0)) % U32;
    PadNothing(f, Hex(u, false));
    AtoulUndoesHex(u, false);
  }

  /** What the digit loop reads, when the digits come first. */
  lemma DigitsFirst(n: nat, rest: string)
    requires rest == "" || rest[0] == ' '
    ensures var d := Notation(n, 10, false); var s := d + rest;
      && Value(s[..Run(s, false)], 10) == n
      && !HexPrefix(s) && s[0] != '-'
  {
    var d := Notation(n, 10, false);
    var s := d + rest;
    NoPrefix(n);
    ValueOfNotation(n, 10, false);
    RunIs(s, false, |d|);
    assert s[..|d|] == d;
    if |d| >= 2 {
      DecimalDigits(n, 1);
    }
  }

  lemma {:induction false} ZerosInFront(n: nat, d: string, base: nat)
    ensures Value(Repeat('0', n) + d, base) == Value(d, base)
  {
    var s := Repeat('0', n) + d;
    if d == "" {
      assert s == Repeat('0', n);
      ZerosAreZero(n, base);
    } else {
      assert s[..|s| - 1] == Repeat('0', n) + d[..|d| - 1];
      ZerosInFront(n, d[..|d| - 1], base);
    }
  }

  lemma {:induction false} ZerosAreZero(n: nat, base: nat)
    ensures Value(Repeat('0', n), base) == 0
  {
    if n == 0 {
    } else {
      assert Repeat('0', n)[..n - 1] == Repeat('0', n - 1);
      ZerosAreZero(n - 1, base);
    }
  }

  /** The decimal rendering of z with the flags' sign. */
  function Signed(f: Flags, z: int): string
    requires -(U64 / 2) <= z < U64 / 2
  {
    Decimal(Word(z), Style(true, f.showSign, false))
  }

  /** Blanks behind a number do not disturb the parser. */
  lemma ParseLeft(f: Flags, z: int, rest: string)
    requires -(U64 / 2) <= z < U64 / 2 && (rest == "" || rest[0] == ' ')
    ensures Parse(Signed(f, z) + rest) == if f.showSign && z > 0 then 0 else z
  {
    hide Value, Run, Notation;
    var d := Notation(Abs(z), 10, false);
    var s := Signed(f, z) + rest;
    DigitsFirst(Abs(z), rest);
    if z < 0 {
      assert s == "-" + d + rest && s[1..] == d + rest;
    } else if f.showSign {
      assert s[0] == '+';
      StopsAtOnce(s);
    } else {
      assert s == d + rest;
    }
  }

  /** Nothing is read from a text that starts with neither a digit nor a minus sign. */
  lemma StopsAtOnce(s: string)
    requires s != "" && !IsDigit(s[0]) && s[0] != '-'
    ensures Parse(s) == 0
  {
    RunIs(s, false, 0);
    assert s[..0] == "";
  }

  /** Zeros in front of a number hide its sign, and nothing else. */
  lemma ParseZeros(f: Flags, z: int, n: nat)
    requires -(U64 / 2) <= z < U64 / 2 && n > 0
    ensures Parse(Repeat('0', n) + Signed(f, z)) == if z > 0 && !f.showSign then z else 0
  {
    hide Value, Notation;
    var d := Notation(Abs(z), 10, false);
    var s := Repeat('0', n) + Signed(f, z);
    NoPrefix(Abs(z));
    assert s[0] == '0' && s[n] == Signed(f, z)[0] && (n > 1 ==> s[1] == '0');
    ValueOfNotation(Abs(z), 10, false);
    if z >= 0 && !f.showSign {
      assert s == Repeat('0', n) + d;
      RunIs(s, false, |s|);
      assert s[..|s|] == s;
      ZerosInFront(n, d, 10);
    } else {
      RunIs(s, false, n);
      assert s[..n] == Repeat('0', n);
      ZerosAreZero(n, 10);
    }
  }

  /**
   * When a number printed with a width reads back: exactly if it is zero, or its sign is
   * not an explicit plus and the padding is absent, behind it, or zeros before a number
   * without a sign.  Otherwise it reads as zero.
   */
  lemma PaddedReadsBackIff(f: Flags, width: nat, z: int)
    requires -(U64 / 2) <= z < U64 / 2
    ensures var r := Parse(Pad(f, width, Signed(f, z)));
      && (r == z || r == 0)
      && (r == z <==>
            z == 0 || ((z < 0 || !f.showSign) && (width <= |Signed(f, z)| || f.left || (f.leadZero && z > 0))))
  {
    hide Parse, Notation;
    var d := Signed(f, z);
    var n := if width > |d| then width - |d| else 0;
    var s := Pad(f, width, d);
    if n == 0 {
      assert s == d + "";
      ParseLeft(f, z, "");
    } else if f.left {
      assert s == d + Repeat(' ', n);
      ParseLeft(f, z, Repeat(' ', n));
    } else if f.leadZero {
      ParseZeros(f, z, n);
    } else {
      assert s == Repeat(' ', n) + d && s[0] == ' ';
      StopsAtOnce(s);
    }
  }

  /** So a %d with flags and a width reads back through atol exactly then, for every int. */
  lemma FormattedFieldReadsBackIff(f: Flags, width: nat, a: Arg, z: int)
    requires -0x8000_0000 <= z < 0x8000_0000 && Bits(a) % U32 == z % U32
    requires !f.longLong && !f.half && !f.halfHalf && !f.caps
    ensures Wrap32(Parse(Conversion('d', f, width, a))) == z <==>
      z == 0 || ((z < 0 || !f.showSign) && (width <= |Signed(f, z)| || f.left || (f.leadZero && z > 0)))
  {
    hide Parse, Decimal, Wrap32, Pad;
    assert Modulus(f) == U32;
    assert SignedArg(f, a) == Word(z);
    PaddedReadsBackIff(f, width, z);
    Wrap32Fits(z);
    Wrap32Fits(0);
  }

  /** The hexadecimal digits the parser takes from a padded field, behind the prefix. */
  lemma PaddedHexValue(f: Flags, width: nat, n: nat, caps: bool)
    ensures var s := Pad(f, width, Hex(n, caps));
      Value(s[..Run(s, true)], 16) == if width <= |Hex(n, caps)| || f.left || f.leadZero then n else 0
  {
    hide Value, Run, Notation;
    var d := Hex(n, caps);
    var k := if width > |d| then width - |d| else 0;
    var s := Pad(f, width, d);
    ValueOfNotation(n, 16, caps);
    if k == 0 || f.left {
      assert s == d + Repeat(' ', k);
      RunIs(s, true, |d|);
      assert s[..|d|] == d;
    } else if f.leadZero {
      assert s == Repeat('0', k) + d;
      RunIs(s, true, |s|);
      assert s[..|s|] == s;
      ZerosInFront(k, d, 16);
    } else {
      assert s[0] == ' ';
      RunIs(s, true, 0);
      NoDigits(s);
    }
  }

  lemma NoDigits(s: string)
    ensures Value(s[..0], 16) == 0
  {
    assert s[..0] == "";
  }

  /**
   * A hexadecimal field in the alternate form reads back through atoul exactly if it is
   * zero, or in lower case and without blanks in front; otherwise it reads as zero.
   */
  lemma HexFieldReadsBackIff(f: Flags, width: nat, a: Arg)
    requires f.alt
    ensures var n := UnsignedArg(f, a); var r := ParseUnsigned(HexConversion(f, width, a));
      && (r == n || r == 0) && (r % U32 == n <==> r == n && n < U32)
      && (r == n <==> n == 0 || (!f.caps && (width <= |Hex(n, false)| || f.left || f.leadZero)))
  {
    hide Value, Run, Pad, Hex, UnsignedArg;
    var n := UnsignedArg(f, a);
    var body := Pad(f, width, Hex(n, f.caps));
    var s := HexConversion(f, width, a);
    if f.caps {
      assert s == "0X" + body;
      AtoulStopsAtCapitalPrefix(body);
    } else {
      assert s == "0x" + body && s[2..] == body;
      PaddedHexValue(f, width, n, false);
    }
  }
}
