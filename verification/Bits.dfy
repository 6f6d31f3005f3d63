// Unsigned machine words as natural numbers, with the bitwise operators defined
// bit by bit, and what the source's masking idioms compute.
module Bits {
  import opened Basics

  function Pow2(n: nat): (r: nat)
    ensures r > 0
  {
    if n == 0 then 1 else 2 * Pow2(n - 1)
  }

  /** Bit p of x. */
  predicate Bit(x: nat, p: nat) {
    if p == 0 then x % 2 == 1 else Bit(x / 2, p - 1)
  }

  function And(x: nat, y: nat): nat {
    if x == 0 || y == 0 then 0
    else 2 * And(x / 2, y / 2) + (if x % 2 == 1 && y % 2 == 1 then 1 else 0)
  }

  function Or(x: nat, y: nat): nat
    decreases x + y
  {
    if x == 0 && y == 0 then 0
    else 2 * Or(x / 2, y / 2) + (if x % 2 == 1 || y % 2 == 1 then 1 else 0)
  }

  /** The complement of x in w bits. */
  function Not(x: nat, w: nat): nat
    requires x < Pow2(w)
  {
    Pow2(w) - 1 - x
  }

  lemma {:induction false} ZeroBits(p: nat)
    ensures !Bit(0, p)
  {
    if p == 0 {
    } else {
      ZeroBits(p - 1);
    }
  }

  lemma Halve(h: nat, b: nat)
    requires b < 2
    ensures (2 * h + b) / 2 == h && (2 * h + b) % 2 == b
  {
  }

  lemma AndNothing(x: nat, y: nat)
    requires x == 0 || y == 0
    ensures And(x, y) == 0
  {
  }

  lemma OrNothing()
    ensures Or(0, 0) == 0
  {
  }

  lemma AndStep(x: nat, y: nat)
    requires x != 0 && y != 0
    ensures And(x, y) / 2 == And(x / 2, y / 2)
    ensures And(x, y) % 2 == 1 <==> x % 2 == 1 && y % 2 == 1
  {
    Halve(And(x / 2, y / 2), if x % 2 == 1 && y % 2 == 1 then 1 else 0);
  }

  lemma OrStep(x: nat, y: nat)
    requires !(x == 0 && y == 0)
    ensures Or(x, y) / 2 == Or(x / 2, y / 2)
    ensures Or(x, y) % 2 == 1 <==> x % 2 == 1 || y % 2 == 1
  {
    Halve(Or(x / 2, y / 2), if x % 2 == 1 || y % 2 == 1 then 1 else 0);
  }

  lemma {:induction false} AndBit(x: nat, y: nat, p: nat)
    ensures Bit(And(x, y), p) <==> Bit(x, p) && Bit(y, p)
  {
    hide And;
    if x == 0 || y == 0 {
      AndNothing(x, y);
      ZeroBits(p);
    } else if p == 0 {
      AndStep(x, y);
    } else {
      AndStep(x, y);
      AndBit(x / 2, y / 2, p - 1);
    }
  }

  lemma {:induction false} OrBit(x: nat, y: nat, p: nat)
    ensures Bit(Or(x, y), p) <==> Bit(x, p) || Bit(y, p)
  {
    hide Or;
    if x == 0 && y == 0 {
      OrNothing();
      ZeroBits(p);
    } else if p == 0 {
      OrStep(x, y);
    } else {
      OrStep(x, y);
      OrBit(x / 2, y / 2, p - 1);
    }
  }

  lemma NotHalf(x: nat, w: nat)
    requires 0 < w && x < Pow2(w)
    ensures x / 2 < Pow2(w - 1) && Not(x, w) / 2 == Not(x / 2, w - 1)
    ensures Not(x, w) % 2 == 1 - x % 2
  {
    Complement(x, Pow2(w - 1));
  }

  lemma Complement(x: nat, h: nat)
    requires x < 2 * h
    ensures x / 2 < h && (2 * h - 1 - x) / 2 == h - 1 - x / 2 && (2 * h - 1 - x) % 2 == 1 - x % 2
  {
  }

  lemma {:induction false} NotBit(x: nat, w: nat, p: nat)
    requires x < Pow2(w) && p < w
    ensures Bit(Not(x, w), p) <==> !Bit(x, p)
  {
    hide Pow2, Not;
    NotHalf(x, w);
    if p == 0 {
    } else {
      NotBit(x / 2, w - 1, p - 1);
    }
  }

  lemma {:induction false} Pow2Bit(k: nat, p: nat)
    ensures Bit(Pow2(k), p) <==> k == p
  {
    if p == 0 {
    } else if k == 0 {
      ZeroBits(p - 1);
    } else {
      Pow2Bit(k - 1, p - 1);
    }
  }

  lemma {:induction false} Pow2Monotone(k: nat, w: nat)
    requires k <= w
    ensures Pow2(k) <= Pow2(w)
    ensures k < w ==> Pow2(k) < Pow2(w)
  {
    if k == w {
    } else {
      Pow2Monotone(k, w - 1);
    }
  }

  lemma {:induction false} Pow2Add(j: nat, k: nat)
    ensures Pow2(j + k) == Pow2(j) * Pow2(k)
  {
    if j == 0 {
    } else {
      Pow2Add(j - 1, k);
    }
  }

  lemma Word32()
    ensures Pow2(2) == 4 && Pow2(4) == 16 && Pow2(32) == U32
  {
    assert Pow2(2) == 4;
    Pow2Add(2, 2);
    Pow2Add(4, 4);
    Pow2Add(8, 8);
    Pow2Add(16, 16);
  }

  lemma {:induction false} OrBound(x: nat, y: nat, w: nat)
    requires x < Pow2(w) && y < Pow2(w)
    ensures Or(x, y) < Pow2(w)
    decreases w
  {
    if w == 0 {
    } else {
      OrBound(x / 2, y / 2, w - 1);
    }
  }

  lemma {:induction false} AndBound(x: nat, y: nat)
    ensures And(x, y) <= x
  {
    if x == 0 || y == 0 {
    } else {
      AndBound(x / 2, y / 2);
    }
  }

  lemma {:induction false} AndSelf(x: nat)
    ensures And(x, x) == x
  {
    if x == 0 {
    } else {
      AndSelf(x / 2);
    }
  }

  /** x % 2^k bit by bit. */
  lemma ModStep(x: nat, k: nat)
    requires k > 0
    ensures x % Pow2(k) == 2 * ((x / 2) % Pow2(k - 1)) + x % 2
  {
    var m := Pow2(k - 1);
    var h := x / 2;
    var q, r := h / m, h % m;
    assert x == (2 * m) * q + (2 * r + x % 2);
    DivModUnique(x, 2 * m, q, 2 * r + x % 2);
  }

  lemma SmallMultipleIsZero(d: int, e: int)
    requires -d < d * e < d
    ensures e == 0
  {
  }

  lemma DivModUnique(x: int, d: int, q: int, r: int)
    requires 0 <= r < d && x == d * q + r
    ensures x / d == q && x % d == r
  {
    assert d * (x / d - q) == r - x % d;
    SmallMultipleIsZero(d, x / d - q);
  }

  /** The mask 2^k - 1 takes the remainder modulo 2^k. */
  lemma {:induction false} LowMask(x: nat, k: nat)
    ensures And(x, Pow2(k) - 1) == x % Pow2(k)
    decreases k
  {
    if k == 0 {
    } else {
      ModStep(x, k);
      LowMask(x / 2, k - 1);
      assert (Pow2(k) - 1) / 2 == Pow2(k - 1) - 1;
    }
  }

  lemma AndEven(x: nat, n: nat)
    ensures And(x, 2 * n) == 2 * And(x / 2, n)
  {
    Halve(n, 0);
  }

  /** The complement of a longer mask is twice that of a mask one shorter. */
  lemma NotOfMask(k: nat, w: nat)
    requires k <= w
    ensures Pow2(k) - 1 < Pow2(w)
    ensures if k == 0 then Pow2(0) == 1 && Not(0, w) == Pow2(w) - 1
            else Pow2(k - 1) - 1 < Pow2(w - 1) && Not(Pow2(k) - 1, w) == 2 * Not(Pow2(k - 1) - 1, w - 1)
  {
    Pow2Monotone(k, w);
    if k > 0 {
      Pow2Monotone(k - 1, w - 1);
    }
  }

  lemma HalfBelow(x: nat, w: nat)
    requires 0 < w && x < Pow2(w)
    ensures x / 2 < Pow2(w - 1)
  {
  }

  /** The complement of that mask rounds down to a multiple of 2^k. */
  lemma {:induction false} ClearLow(x: nat, k: nat, w: nat)
    requires k <= w && x < Pow2(w)
    ensures Pow2(k) - 1 < Pow2(w)
    ensures And(x, Not(Pow2(k) - 1, w)) == x - x % Pow2(k)
    decreases k
  {
    hide And, Pow2, Not;
    Pow2Monotone(k, w);
    if k == 0 {
      LowMask(x, w);
      NotOfMask(k, w);
      DivModUnique(x, Pow2(w), 0, x);
    } else {
      NotOfMask(k, w);
      HalfBelow(x, w);
      ClearLow(x / 2, k - 1, w - 1);
      ModStep(x, k);
      AndEven(x, Not(Pow2(k - 1) - 1, w - 1));
    }
  }

  /** Just past the top of the word it rounds down to nothing. */
  lemma {:induction false} ClearLowPast(x: nat, k: nat, w: nat)
    requires k <= w && Pow2(w) <= x < Pow2(w) + Pow2(k)
    ensures Pow2(k) - 1 < Pow2(w)
    ensures And(x, Not(Pow2(k) - 1, w)) == 0
    decreases k
  {
    hide And, Pow2, Not;
    NotOfMask(k, w);
    if k == 0 {
      LowMask(x, w);
      DivModUnique(x, Pow2(w), 1, 0);
    } else {
      Halved(x, k, w);
      ClearLowPast(x / 2, k - 1, w - 1);
      AndEven(x, Not(Pow2(k - 1) - 1, w - 1));
    }
  }

  lemma Halved(x: nat, k: nat, w: nat)
    requires 0 < k <= w && Pow2(w) <= x < Pow2(w) + Pow2(k)
    ensures Pow2(w - 1) <= x / 2 < Pow2(w - 1) + Pow2(k - 1)
  {
  }

  ghost predicate IsPow2(a: nat) {
    exists k: nat :: a == Pow2(k)
  }

  /** The source's a & (a - 1) test accepts exactly the powers of two, for a > 0. */
  lemma {:induction false} PowerTest(a: nat)
    requires a > 0
    ensures And(a, a - 1) == 0 <==> IsPow2(a)
  {
    var h := a / 2;
    if a % 2 == 1 {
      AndSelf(h);
      if a == 1 {
        assert a == Pow2(0);
      } else {
        assert forall k: nat :: a != Pow2(k);
      }
    } else {
      PowerTest(h);
      assert And(a, a - 1) == 2 * And(h, h - 1);
      if IsPow2(h) {
        var k: nat :| h == Pow2(k);
        assert a == Pow2(k + 1);
      }
      if IsPow2(a) {
        var k: nat :| a == Pow2(k);
        assert h == Pow2(k - 1);
      }
    }
  }
}
