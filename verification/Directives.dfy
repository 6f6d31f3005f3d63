// What a format of lib/libc/printf.c denotes: the characters of each directive, read off its text.
module Directives {
  import opened Basics
  import opened CStrings
  import opened Numbers
  import opened Printf

  // ------------------------------------------------------------- modifiers

  predicate Modifiers(m: string) {
    forall j :: 0 <= j < |m| ==> IsModifier(m[j])
  }

  /** The digits among the characters of m. */
  function Digits(m: string): string {
    if m == "" then ""
    else Digits(m[..|m| - 1]) + if IsDigit(m[|m| - 1]) then [m[|m| - 1]] else ""
  }

  /** The field width: the number these digits denote, in an unsigned int. */
  function Width(m: string): nat {
    Value(Digits(m), 10) % U32
  }

  /** A zero asks for leading zeros where no other digit counts yet. */
  predicate AsksForZeros(m: string) {
    exists k :: 0 <= k < |m| && m[k] == '0' && Width(m[..k]) == 0
  }

  predicate Twice(m: string, c: char) {
    multiset(m)[c] >= 2
  }

  /** What modifiers ask for, in whatever order they come. */
  function Asked(m: string): Flags {
    Flags('l' in m, Twice(m, 'l'), 'h' in m, Twice(m, 'h'), 'z' in m,
          '#' in m, false, '+' in m, '-' in m, AsksForZeros(m))
  }

  lemma DigitsNext(m: string, c: char)
    ensures Digits(m + [c]) == Digits(m) + if IsDigit(c) then [c] else ""
    ensures Digits("") == ""
  {
    assert (m + [c])[..|m|] == m;
  }

  lemma WidthNext(m: string, c: char)
    ensures Width(m + [c]) == if IsDigit(c) then (Width(m) * 10 + HexVal(c)) % U32 else Width(m)
    ensures Width("") == 0
  {
    hide Digits, Value;
    DigitsNext(m, c);
    ValueNext(Digits(m), c, 10);
    if IsDigit(c) {
      ReduceStep(Value(Digits(m), 10), 10, HexVal(c));
    } else {
      assert Digits(m) + "" == Digits(m);
    }
  }

  lemma ZerosNext(m: string, c: char)
    ensures AsksForZeros(m + [c]) <==> AsksForZeros(m) || (c == '0' && Width(m) == 0)
  {
    hide Width;
    var n := m + [c];
    assert n[..|m|] == m && n[|m|] == c;
    forall k | 0 <= k < |m|
      ensures n[k] == m[k] && n[..k] == m[..k]
    {
    }
    if AsksForZeros(n) {
      var k :| 0 <= k < |n| && n[k] == '0' && Width(n[..k]) == 0;
      assert k < |m| || k == |m|;
    }
  }

  lemma MembersNext(m: string, c: char, x: char)
    ensures x in m + [c] <==> x in m || x == c
    ensures Twice(m + [c], x) <==> Twice(m, x) || (x in m && x == c)
  {
  }

  /** The flags after one more modifier, one by one. */
  lemma AskedFlags(m: string, c: char)
    ensures var f, g := Asked(m), Asked(m + [c]);
      && g.long == (f.long || c == 'l') && g.longLong == (f.longLong || (f.long && c == 'l'))
      && g.half == (f.half || c == 'h') && g.halfHalf == (f.halfHalf || (f.half && c == 'h'))
      && g.sizeT == (f.sizeT || c == 'z') && g.alt == (f.alt || c == '#') && !f.caps && !g.caps
      && g.showSign == (f.showSign || c == '+') && g.left == (f.left || c == '-')
      && g.leadZero == (f.leadZero || (c == '0' && Width(m) == 0))
  {
    hide Width, AsksForZeros, Twice;
    ZerosNext(m, c);
    MembersNext(m, c, 'l');
    MembersNext(m, c, 'h');
    MembersNext(m, c, 'z');
    MembersNext(m, c, '#');
    MembersNext(m, c, '+');
    MembersNext(m, c, '-');
  }

  lemma LetterNext(m: string, c: char)
    requires c == 'l' || c == 'h' || c == 'z'
    ensures Flagged(Asked(m), c) == Asked(m + [c])
  {
    hide Asked, Width;
    AskedFlags(m, c);
  }

  lemma SignNext(m: string, c: char)
    requires c != 'l' && c != 'h' && c != 'z' && !IsDigit(c)
    ensures Flagged(Asked(m), c) == Asked(m + [c])
  {
    hide Asked, Width;
    AskedFlags(m, c);
    match c
    case '-' =>
    case '+' =>
    case '#' =>
    case _ =>
  }

  /** One more modifier: the code's step over it. */
  lemma AskedNext(m: string, c: char)
    ensures Modify(Asked(m), Width(m), c) == (Asked(m + [c]), Width(m + [c]))
  {
    hide Asked, Width, HexVal, Flagged;
    WidthNext(m, c);
    if IsDigit(c) {
      AskedFlags(m, c);
    } else if c == 'l' || c == 'h' || c == 'z' {
      LetterNext(m, c);
    } else {
      SignNext(m, c);
    }
  }

  lemma NothingAsked()
    ensures Asked("") == NO_FLAGS && Width("") == 0
  {
  }

  // ------------------------------------------------------------- directives

  /** The code's loop over the modifiers of a directive that starts at position i. */
  lemma {:induction false} FieldAsks(fmt: string, i: nat, m: string, k: nat, va: Args, ap: nat)
    requires i + |m| <= |fmt| && fmt[i..i + |m|] == m && Modifiers(m) && k <= |m|
    ensures Field(fmt, i, NO_FLAGS, 0, va, ap) == Field(fmt, i + k, Asked(m[..k]), Width(m[..k]), va, ap)
  {
    hide Asked, Width, Modify, Field;
    if k == 0 {
      NothingAsked();
      assert m[..0] == "";
    } else {
      FieldAsks(fmt, i, m, k - 1, va, ap);
      var n := m[..k - 1];
      UnfoldField(fmt, i + k - 1, Asked(n), Width(n), va, ap);
      assert fmt[i + k - 1] == m[k - 1] && m[..k] == n + [m[k - 1]];
      AskedNext(n, m[k - 1]);
    }
  }

  /** What is rendered from a position on depends only on the text from there on. */
  lemma {:induction false} RenderSuffix(x: string, rest: string, i: nat, va: Args, ap: nat)
    requires i <= |rest|
    ensures RenderFrom(x + rest, |x| + i, va, ap) == RenderFrom(rest, i, va, ap)
    decreases |rest| - i
  {
    hide RenderFrom, Field;
    if i == |rest| {
      RenderEnd(x + rest, va, ap);
      RenderEnd(rest, va, ap);
    } else {
      Unfold(x + rest, |x| + i, va, ap);
      Unfold(rest, i, va, ap);
      if rest[i] == '%' {
        FieldSuffix(x, rest, i + 1, NO_FLAGS, 0, va, ap);
      } else {
        RenderSuffix(x, rest, i + 1, va, ap);
      }
    }
  }

  lemma {:induction false} FieldSuffix(x: string, rest: string, i: nat, f: Flags, width: nat, va: Args, ap: nat)
    requires i <= |rest|
    ensures Field(x + rest, |x| + i, f, width, va, ap) == Field(rest, i, f, width, va, ap)
    decreases |rest| - i
  {
    hide RenderFrom, Field, Conversion, Modify;
    UnfoldField(x + rest, |x| + i, f, width, va, ap);
    UnfoldField(rest, i, f, width, va, ap);
    if i == |rest| {
    } else if IsModifier(rest[i]) {
      var m := Modify(f, width, rest[i]);
      FieldSuffix(x, rest, i + 1, m.0, m.1, va, ap);
    } else {
      RenderSuffix(x, rest, i + 1, va, if TakesArg(rest[i]) then ap + 1 else ap);
    }
  }

  /** What the text of a format renders from argument number ap on. */
  function Rendered(fmt: string, va: Args, ap: nat): string {
    RenderFrom(fmt, 0, va, ap)
  }

  /** Ordinary characters stand for themselves. */
  lemma PlainCharacter(c: char, rest: string, va: Args, ap: nat)
    requires c != '%'
    ensures Rendered([c] + rest, va, ap) == [c] + Rendered(rest, va, ap)
  {
    hide RenderFrom;
    Unfold([c] + rest, 0, va, ap);
    RenderSuffix([c], rest, 0, va, ap);
  }

  /**
   * A directive is a percent sign, modifiers and a conversion letter.  It prints one
   * argument, as the modifiers ask, or none, and what follows goes on from there.
   */
  lemma Directive(m: string, c: char, rest: string, va: Args, ap: nat)
    requires Modifiers(m) && !IsModifier(c)
    ensures Rendered("%" + m + [c] + rest, va, ap) ==
            Conversion(c, Asked(m), Width(m), va(ap)) + Rendered(rest, va, if c in "csdiDuUpxXn" then ap + 1 else ap)
  {
    hide RenderFrom, Field, Conversion, Asked, Width;
    var x := "%" + m + [c];
    var fmt := x + rest;
    Unfold(fmt, 0, va, ap);
    assert fmt[1..1 + |m|] == m && m[..|m|] == m;
    FieldAsks(fmt, 1, m, |m|, va, ap);
    UnfoldField(fmt, 1 + |m|, Asked(m), Width(m), va, ap);
    RenderSuffix(x, rest, 0, va, if TakesArg(c) then ap + 1 else ap);
    assert |x| == |m| + 2;
  }

  // ------------------------------------------------------------- flags, width and length

  /** Every prefix of the digits of a number above zero denotes one above zero. */
  lemma {:induction false} NotationPrefix(n: nat, j: nat)
    requires n > 0 && 0 < j <= |Notation(n, 10, false)|
    ensures 0 < Value(Notation(n, 10, false)[..j], 10) <= n
  {
    hide Value, Notation;
    var s := Notation(n, 10, false);
    ValueOfNotation(n, 10, false);
    if j == |s| {
      assert s[..j] == s;
    } else {
      NotationStep(n, 10, false);
      assert s[..j] == Notation(n / 10, 10, false)[..j];
      NotationPrefix(n / 10, j);
    }
  }

  lemma NoZeroFirst(n: nat)
    requires n > 0
    ensures Notation(n, 10, false)[0] != '0'
  {
    hide Notation;
    var s := Notation(n, 10, false);
    NotationPrefix(n, 1);
    ValueNext("", s[0], 10);
    assert s[..1] == "" + [s[0]];
  }

  predicate Numerals(d: string) {
    forall j :: 0 <= j < |d| ==> IsDigit(d[j])
  }

  /** Behind characters that give no width, digits give the number they denote. */
  lemma {:induction false} WidthOfDigits(p: string, d: string)
    requires Width(p) == 0 && Numerals(d)
    ensures Width(p + d) == Value(d, 10) % U32
  {
    hide Width, Value;
    if d == "" {
      assert p + d == p;
      ValueNext("", '0', 10);
    } else {
      var q, c := d[..|d| - 1], d[|d| - 1];
      WidthOfDigits(p, q);
      assert d == q + [c] && p + d == (p + q) + [c];
      WidthNext(p + q, c);
      ValueNext(q, c, 10);
      ReduceStep(Value(q, 10), 10, HexVal(c));
    }
  }

  /** The signs in front of a width; a zero among them is the flag. */
  predicate OnlySigns(p: string) {
    forall j :: 0 <= j < |p| ==> p[j] in "-+#0."
  }

  lemma {:induction false} SignsGiveNoWidth(p: string)
    requires OnlySigns(p)
    ensures Width(p) == 0 && (AsksForZeros(p) <==> '0' in p)
  {
    hide Width, AsksForZeros;
    if p == "" {
      NothingAsked();
    } else {
      var q, c := p[..|p| - 1], p[|p| - 1];
      assert p == q + [c];
      SignsGiveNoWidth(q);
      WidthNext(q, c);
      ZerosNext(q, c);
    }
  }

  /** The digits of a width ask for no zeros. */
  lemma {:induction false} WidthAsksForNoZeros(p: string, w: nat, j: nat)
    requires OnlySigns(p) && 0 < w < U32 && j <= |Notation(w, 10, false)|
    ensures AsksForZeros(p + Notation(w, 10, false)[..j]) <==> '0' in p
  {
    hide Width, AsksForZeros, Value, Notation, OnlySigns;
    var s := Notation(w, 10, false);
    SignsGiveNoWidth(p);
    if j == 0 {
      assert p + s[..0] == p;
    } else {
      WidthAsksForNoZeros(p, w, j - 1);
      var q := s[..j - 1];
      assert p + s[..j] == (p + q) + [s[j - 1]];
      ZerosNext(p + q, s[j - 1]);
      if j == 1 {
        NoZeroFirst(w);
      } else {
        NumeralsOf(w, j - 1);
        WidthOfDigits(p, q);
        NotationPrefix(w, j - 1);
      }
    }
  }

  lemma NumeralsOf(w: nat, j: nat)
    requires j <= |Notation(w, 10, false)|
    ensures Numerals(Notation(w, 10, false)[..j])
  {
    ValueOfNotation(w, 10, false);
    forall i | 0 <= i < j
      ensures IsDigit(Notation(w, 10, false)[..j][i])
    {
      assert Accepts(Notation(w, 10, false)[i], false);
    }
  }

  /** The spelling of a width: none for zero. */
  function WidthText(w: nat): string {
    if w == 0 then "" else Notation(w, 10, false)
  }

  lemma SignsAndWidth(p: string, w: nat)
    requires OnlySigns(p) && w < U32
    ensures var m := p + WidthText(w);
      && Width(m) == w && (AsksForZeros(m) <==> '0' in p)
      && forall c :: !IsDigit(c) ==> (c in m <==> c in p) && multiset(m)[c] == multiset(p)[c]
  {
    hide Width, AsksForZeros, Value, Notation;
    SignsGiveNoWidth(p);
    if w == 0 {
      assert p + "" == p;
    } else {
      var s := Notation(w, 10, false);
      assert s[..|s|] == s;
      NumeralsOf(w, |s|);
      WidthOfDigits(p, s);
      ValueOfNotation(w, 10, false);
      WidthAsksForNoZeros(p, w, |s|);
      assert forall c :: !IsDigit(c) ==> c !in s;
    }
  }

  /** The length modifiers. */
  predicate IsLength(l: string) {
    l == "" || l == "h" || l == "hh" || l == "l" || l == "ll" || l == "z"
  }

  lemma LengthNext(m: string, c: char)
    requires c == 'h' || c == 'l' || c == 'z'
    ensures Width(m + [c]) == Width(m) && (AsksForZeros(m + [c]) <==> AsksForZeros(m))
  {
    hide Width, AsksForZeros;
    WidthNext(m, c);
    ZerosNext(m, c);
  }

  lemma LengthGivesNoWidth(m: string, l: string)
    requires IsLength(l)
    ensures Width(m + l) == Width(m) && (AsksForZeros(m + l) <==> AsksForZeros(m))
  {
    hide Width, AsksForZeros;
    if l == "" {
      assert m + l == m;
    } else {
      LengthNext(m, l[0]);
      if |l| == 2 {
        LengthNext(m + [l[0]], l[1]);
        assert m + l == (m + [l[0]]) + [l[1]];
      } else {
        assert m + l == m + [l[0]];
      }
    }
  }

  /** What signs and a length modifier ask for. */
  function Wanted(p: string, l: string): Flags {
    Flags(l == "l" || l == "ll", l == "ll", l == "h" || l == "hh", l == "hh", l == "z",
          '#' in p, false, '+' in p, '-' in p, '0' in p)
  }

  lemma LengthMembers(m: string, l: string)
    requires IsLength(l) && 'l' !in m && 'h' !in m && 'z' !in m
    ensures ('l' in m + l <==> l == "l" || l == "ll") && (Twice(m + l, 'l') <==> l == "ll")
    ensures ('h' in m + l <==> l == "h" || l == "hh") && (Twice(m + l, 'h') <==> l == "hh")
    ensures ('z' in m + l <==> l == "z")
    ensures forall c :: c != 'l' && c != 'h' && c != 'z' ==> (c in m + l <==> c in m)
  {
    assert multiset(m + l) == multiset(m) + multiset(l);
  }

  /** Signs, width and length, spelled in that order, are read as themselves. */
  lemma SpelledOut(p: string, w: nat, l: string)
    requires OnlySigns(p) && w < U32 && IsLength(l)
    ensures var m := p + WidthText(w) + l;
      Modifiers(m) && Width(m) == w && Asked(m) == Wanted(p, l)
  {
    hide Width, AsksForZeros, Twice, WidthText;
    var q := p + WidthText(w);
    SignsAndWidth(p, w);
    LengthGivesNoWidth(q, l);
    LengthMembers(q, l);
    SpelledModifiers(p, w, l);
  }

  lemma SpelledModifiers(p: string, w: nat, l: string)
    requires OnlySigns(p) && IsLength(l)
    ensures Modifiers(p + WidthText(w) + l)
  {
    hide Notation;
    NumeralsOf(w, |Notation(w, 10, false)|);
    assert Notation(w, 10, false)[..|Notation(w, 10, false)|] == Notation(w, 10, false);
    assert Numerals(WidthText(w));
  }

  /**
   * A directive spelled as signs, width, length and letter prints its argument with those
   * flags in that width, for every width an unsigned int holds.
   */
  lemma SpelledDirective(p: string, w: nat, l: string, c: char, rest: string, va: Args, ap: nat)
    requires OnlySigns(p) && w < U32 && IsLength(l) && !IsModifier(c)
    ensures Rendered("%" + p + WidthText(w) + l + [c] + rest, va, ap) ==
            Conversion(c, Wanted(p, l), w, va(ap)) + Rendered(rest, va, if c in "csdiDuUpxXn" then ap + 1 else ap)
  {
    hide Rendered, Conversion, Modifiers, Width, Wanted, Asked, OnlySigns, WidthText, IsModifier;
    SpelledOut(p, w, l);
    var m := p + WidthText(w) + l;
    assert "%" + p + WidthText(w) + l == "%" + m;
    Directive(m, c, rest, va, ap);
  }

  /** In particular a format that is one directive. */
  lemma WholeFormat(p: string, w: nat, l: string, c: char, va: Args)
    requires OnlySigns(p) && w < U32 && IsLength(l) && !IsModifier(c)
    ensures Render("%" + p + WidthText(w) + l + [c], va) == Conversion(c, Wanted(p, l), w, va(0))
  {
    hide Rendered, Conversion, Wanted, OnlySigns, WidthText, IsModifier, RenderFrom;
    SpelledDirective(p, w, l, c, "", va, 0);
    RenderEnd("", va, if c in "csdiDuUpxXn" then 1 else 0);
    var x, fmt := Conversion(c, Wanted(p, l), w, va(0)), "%" + p + WidthText(w) + l + [c];
    assert fmt + "" == fmt && x + "" == x;
    RenderedAll(fmt, va);
  }

  lemma RenderedAll(fmt: string, va: Args)
    ensures Rendered(fmt, va, 0) == Render(fmt, va)
    ensures forall ap: nat :: Rendered("", va, ap) == ""
  {
  }

  // ------------------------------------------------------------- what the letters print

  /** How many values the integer type named by a length modifier has, and at least those of a long if so asked. */
  function Range(l: string, long: bool): nat {
    if l == "ll" then 0x1_0000_0000_0000_0000
    else if long || l == "l" then 0x1_0000_0000
    else if l == "hh" then 0x100
    else if l == "h" then 0x1_0000
    else 0x1_0000_0000
  }

  /** Text in a field: blanks or zeros fill it up to the width, on the side the signs say. */
  function InField(p: string, w: nat, s: string): string {
    Pad(Wanted(p, ""), w, s)
  }

  lemma PadSame(f: Flags, g: Flags, w: nat, s: string)
    requires f.left == g.left && f.leadZero == g.leadZero
    ensures Pad(f, w, s) == Pad(g, w, s)
  {
  }

  lemma InRange(z: int, r: nat)
    requires r == 0x100 || r == 0x1_0000 || r == U32 || r == U64
    requires -(r / 2) <= z < r / 2
    ensures z % r == if z < 0 then z + r else z
  {
    if r == 0x100 {
    } else if r == 0x1_0000 {
    } else if r == U32 {
    } else {
    }
  }

  /** The word that a signed conversion passes on. */
  lemma SignExtended(f: Flags, z: int, a: Arg)
    requires var r := Modulus(f); -(r / 2) <= z < r / 2 && Bits(a) % r == z % r
    ensures -(U64 / 2) <= z < U64 / 2 && SignedArg(f, a) == Word(z)
  {
    InRange(z, Modulus(f));
  }

  /** A signed number in decimal: its digits behind its sign. */
  lemma DecimalOf(z: int, showSign: bool)
    requires -(U64 / 2) <= z < U64 / 2
    ensures Decimal(Word(z), Style(true, showSign, false)) ==
            (if z < 0 then "-" else if showSign then "+" else "") + Notation(if z < 0 then -z else z, 10, false)
  {
    hide Notation;
  }

  /** The signed letters print the integer that the argument's low bits hold in two's complement. */
  lemma PrintsSigned(p: string, w: nat, l: string, c: char, z: int, a: Arg)
    requires IsLength(l) && (c == 'd' || c == 'i' || c == 'D')
    requires var r := Range(l, c == 'D'); -(r / 2) <= z < r / 2 && Bits(a) % r == z % r
    ensures Conversion(c, Wanted(p, l), w, a) ==
            InField(p, w, (if z < 0 then "-" else if '+' in p then "+" else "")
                          + Notation(if z < 0 then -z else z, 10, false))
  {
    hide Notation, Pad, SignedArg, Decimal, Bits;
    var f := if c == 'D' then Wanted(p, l).(long := true) else Wanted(p, l);
    assert Modulus(f) == Range(l, c == 'D');
    hide Modulus, Range;
    SignExtended(f, z, a);
    DecimalOf(z, '+' in p);
    NumberConversions(c, Wanted(p, l), w, a);
    PadSame(Wanted(p, l), Wanted(p, ""), w, Decimal(Word(z), Style(true, '+' in p, false)));
  }

  /** The unsigned letters print the number in the argument's low bits. */
  lemma PrintsUnsigned(p: string, w: nat, l: string, c: char, a: Arg)
    requires IsLength(l) && (c == 'u' || c == 'U')
    ensures Conversion(c, Wanted(p, l), w, a) ==
            InField(p, w, (if '+' in p then "+" else "") + Notation(Bits(a) % Range(l, c == 'U'), 10, false))
  {
    hide Notation, Pad;
    var f := if c == 'U' then Wanted(p, l).(long := true) else Wanted(p, l);
    assert Modulus(f) == Range(l, c == 'U');
    var n := Bits(a) % Range(l, c == 'U');
    PadSame(Wanted(p, l), Wanted(p, ""), w, (if '+' in p then "+" else "") + Notation(n, 10, false));
  }

  /** So do the hexadecimal ones, behind a prefix that the width does not count. */
  lemma PrintsHex(p: string, w: nat, l: string, c: char, a: Arg)
    requires IsLength(l) && (c == 'x' || c == 'X' || c == 'p')
    ensures Conversion(c, Wanted(p, l), w, a) ==
            (if '#' in p || c == 'p' then (if c == 'X' then "0X" else "0x") else "")
            + InField(p, w, Notation(Bits(a) % Range(l, c == 'p'), 16, c == 'X'))
  {
    hide Notation, Pad, Bits, Conversion;
    var f := Wanted(p, l);
    var g := if c == 'p' then f.(long := true, alt := true) else if c == 'X' then f.(caps := true) else f;
    assert Modulus(g) == Range(l, c == 'p');
    NumberConversions(c, f, w, a);
    PadSame(g, Wanted(p, ""), w, Hex(UnsignedArg(g, a), g.caps));
  }

  /** The other letters: text in a field, one character, a percent sign, nothing, or themselves. */
  lemma PrintsText(p: string, w: nat, l: string, c: char, a: Arg)
    requires c !in "dDiuUxXp"
    ensures c == 's' ==>
      Conversion(c, Wanted(p, l), w, a) == InField(p, w, if a.Str? then CString(a.text) else "<null>")
    ensures c == 'c' ==> Conversion(c, Wanted(p, l), w, a) == [(Bits(a) % 0x100) as char]
    ensures c == '%' ==> Conversion(c, Wanted(p, l), w, a) == "%"
    ensures c == 'n' ==> Conversion(c, Wanted(p, l), w, a) == ""
    ensures c !in "scn%" ==> Conversion(c, Wanted(p, l), w, a) == ['%', c]
  {
    hide Pad;
    if c == 's' {
      PadSame(Wanted(p, l), Wanted(p, ""), w, Text(a));
    }
  }

  // ------------------------------------------------------------- what the letter n stores

  lemma {:induction false} StoresSuffix(x: string, rest: string, i: nat, va: Args, ap: nat, total: nat)
    requires i <= |rest|
    ensures StoresFrom(x + rest, |x| + i, va, ap, total) == StoresFrom(rest, i, va, ap, total)
    decreases |rest| - i
  {
    hide StoresFrom, FieldStores;
    if i == |rest| {
      NoStores(x + rest, va, ap, total);
      NoStores(rest, va, ap, total);
    } else {
      UnfoldStores(x + rest, |x| + i, va, ap, total);
      UnfoldStores(rest, i, va, ap, total);
      if rest[i] == '%' {
        FieldStoresSuffix(x, rest, i + 1, NO_FLAGS, 0, va, ap, total);
      } else {
        StoresSuffix(x, rest, i + 1, va, ap, total);
      }
    }
  }

  lemma {:induction false} FieldStoresSuffix(x: string, rest: string, i: nat, f: Flags, width: nat, va: Args, ap: nat,
                                             total: nat)
    requires i <= |rest|
    ensures FieldStores(x + rest, |x| + i, f, width, va, ap, total) == FieldStores(rest, i, f, width, va, ap, total)
    decreases |rest| - i
  {
    hide StoresFrom, FieldStores, RenderFrom, Modify, Modulus;
    UnfoldFieldStores(x + rest, |x| + i, f, width, va, ap, total);
    UnfoldFieldStores(rest, i, f, width, va, ap, total);
    if i == |rest| {
    } else if IsModifier(rest[i]) {
      var m := Modify(f, width, rest[i]);
      FieldStoresSuffix(x, rest, i + 1, m.0, m.1, va, ap, total);
    } else {
      StoresSuffix(x, rest, i + 1, va, if TakesArg(rest[i]) then ap + 1 else ap, total);
      RenderSuffix(x, rest, i + 1, va, ap + 1);
    }
  }

  lemma {:induction false} FieldStoresAsk(fmt: string, i: nat, m: string, k: nat, va: Args, ap: nat, total: nat)
    requires i + |m| <= |fmt| && fmt[i..i + |m|] == m && Modifiers(m) && k <= |m|
    ensures FieldStores(fmt, i, NO_FLAGS, 0, va, ap, total) ==
            FieldStores(fmt, i + k, Asked(m[..k]), Width(m[..k]), va, ap, total)
  {
    hide Asked, Width, Modify, FieldStores;
    if k == 0 {
      NothingAsked();
      assert m[..0] == "";
    } else {
      FieldStoresAsk(fmt, i, m, k - 1, va, ap, total);
      var n := m[..k - 1];
      UnfoldFieldStores(fmt, i + k - 1, Asked(n), Width(n), va, ap, total);
      assert fmt[i + k - 1] == m[k - 1] && m[..k] == n + [m[k - 1]];
      AskedNext(n, m[k - 1]);
    }
  }

  /** The stores of a format from argument number ap on, when total characters are rendered in all. */
  function StoredBy(fmt: string, va: Args, ap: nat, total: nat): seq<Store> {
    StoresFrom(fmt, 0, va, ap, total)
  }

  /**
   * The letter n stores all but what is rendered behind it, in an integer of the type its
   * length names; no other directive stores anything.
   */
  lemma DirectiveStores(p: string, w: nat, l: string, c: char, rest: string, va: Args, ap: nat, total: nat)
    requires OnlySigns(p) && w < U32 && IsLength(l) && !IsModifier(c)
    ensures StoredBy("%" + p + WidthText(w) + l + [c] + rest, va, ap, total) ==
            (if c == 'n' then [Store(ap, Range(l, false), total - |Rendered(rest, va, ap + 1)|)] else [])
            + StoredBy(rest, va, if c in "csdiDuUpxXn" then ap + 1 else ap, total)
  {
    hide StoresFrom, FieldStores, RenderFrom, Modifiers, Width, Asked, OnlySigns, WidthText, Modify, Modulus, Range,
         Notation;
    SpelledOut(p, w, l);
    var m := p + WidthText(w) + l;
    var x := "%" + m + [c];
    var fmt := x + rest;
    assert "%" + p + WidthText(w) + l + [c] + rest == fmt;
    UnfoldStores(fmt, 0, va, ap, total);
    assert fmt[1..1 + |m|] == m && m[..|m|] == m;
    FieldStoresAsk(fmt, 1, m, |m|, va, ap, total);
    UnfoldFieldStores(fmt, 1 + |m|, Asked(m), Width(m), va, ap, total);
    StoresSuffix(x, rest, 0, va, if TakesArg(c) then ap + 1 else ap, total);
    RenderSuffix(x, rest, 0, va, ap + 1);
    WantedRange(p, l);
  }

  lemma WantedRange(p: string, l: string)
    requires IsLength(l)
    ensures Modulus(Wanted(p, l)) == Range(l, false)
  {
  }
}
