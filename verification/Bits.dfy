/** The bitwise operators of C on unsigned integers, defined bit by bit on `nat`.
    The lemmas relate them to +, / and %, which is how the reference side reads a word. */
module Bits {

  function Pow2(k: nat): (p: nat)
    ensures p > 0
  {
    if k == 0 then 1 else 2 * Pow2(k - 1)
  }

  /** The powers of two that bound the fields of the words in this project. */
  lemma Pow2Values()
    ensures Pow2(6) == 64
    ensures Pow2(10) == 0x400
    ensures Pow2(44) == 0x1000_0000_0000
    ensures Pow2(54) == 0x40_0000_0000_0000
  {
    assert Pow2(10) == 0x400;
    assert Pow2(20) == 0x10_0000;
    assert Pow2(30) == 0x4000_0000;
    assert Pow2(40) == 0x100_0000_0000;
    assert Pow2(44) == 0x1000_0000_0000;
    assert Pow2(50) == 0x4_0000_0000_0000;
  }

  /** Bit `i` of `x`. */
  predicate Bit(x: nat, i: nat) {
    if i == 0 then x % 2 == 1 else Bit(x / 2, i - 1)
  }

  /** `x | y` */
  function Or(x: nat, y: nat): nat {
    if x == 0 then y
    else if y == 0 then x
    else 2 * Or(x / 2, y / 2) + (if x % 2 == 1 || y % 2 == 1 then 1 else 0)
  }

  /** `x & y` */
  function And(x: nat, y: nat): nat {
    if x == 0 || y == 0 then 0
    else 2 * And(x / 2, y / 2) + (if x % 2 == 1 && y % 2 == 1 then 1 else 0)
  }

  /** `x & ~m` */
  function AndNot(x: nat, m: nat): nat {
    if x == 0 then 0
    else 2 * AndNot(x / 2, m / 2) + (if x % 2 == 1 && m % 2 == 0 then 1 else 0)
  }

  lemma {:induction false} OrBit(x: nat, y: nat, i: nat)
    ensures Bit(Or(x, y), i) <==> Bit(x, i) || Bit(y, i)
  {
    if x == 0 {
      ZeroBit(i);
    } else if y == 0 {
      ZeroBit(i);
    } else if i > 0 {
      OrBit(x / 2, y / 2, i - 1);
    }
  }

  lemma {:induction false} ZeroBit(i: nat)
    ensures !Bit(0, i)
  {
    if i > 0 {
      ZeroBit(i - 1);
    }
  }

  /** Only bit `k` of `1 << k` is set. */
  lemma {:induction false} Pow2Bit(k: nat, i: nat)
    ensures Bit(Pow2(k), i) <==> i == k
  {
    if k == 0 {
      if i > 0 {
        ZeroBit(i - 1);
      }
    } else if i > 0 {
      Pow2Bit(k - 1, i - 1);
    }
  }

  /** Euclidean quotient and remainder are unique. */
  lemma DivUnique(x: nat, d: nat, q: nat, r: nat)
    requires d > 0 && r < d && x == d * q + r
    ensures x / d == q && x % d == r
  {
    var q', r' := x / d, x % d;
    assert d * q' + r' == d * q + r;
    if q' < q {
      MulMono(d, q' + 1, q);
    } else if q < q' {
      MulMono(d, q + 1, q');
    }
  }

  lemma MulMono(d: nat, a: nat, b: nat)
    requires a <= b
    ensures d * a <= d * b
  {
  }

  /** Halving a number halves its remainder and keeps its quotient. */
  lemma HalfDivMod(x: nat, d: nat)
    requires d > 0
    ensures (2 * d) > 0
    ensures (x / 2) / d == x / (2 * d)
    ensures x % (2 * d) == 2 * ((x / 2) % d) + x % 2
  {
    var q, r := (x / 2) / d, (x / 2) % d;
    assert x / 2 == d * q + r;
    assert x == 2 * (d * q + r) + x % 2;
    assert 2 * (d * q) == (2 * d) * q;
    DivUnique(x, 2 * d, q, 2 * r + x % 2);
  }

  /** Or of an aligned number and a number below the alignment is their sum. */
  lemma {:induction false} OrAdd(x: nat, y: nat, k: nat)
    requires x % Pow2(k) == 0 && y < Pow2(k)
    ensures Or(x, y) == x + y
    ensures Or(y, x) == x + y
  {
    if k > 0 && x > 0 && y > 0 {
      HalfDivMod(x, Pow2(k - 1));
      OrAdd(x / 2, y / 2, k - 1);
    }
  }

  /** Bit `i` is the parity of the quotient by `2^i`. */
  lemma {:induction false} BitIs(x: nat, i: nat)
    ensures Bit(x, i) <==> x / Pow2(i) % 2 == 1
  {
    if i > 0 {
      HalfDivMod(x, Pow2(i - 1));
      BitIs(x / 2, i - 1);
    }
  }

  lemma AndHalf(x: nat, y: nat)
    ensures And(x, y) / 2 == And(x / 2, y / 2)
    ensures And(x, y) % 2 == (if x % 2 == 1 && y % 2 == 1 then 1 else 0)
  {
  }

  lemma AndNotHalf(x: nat, m: nat)
    ensures AndNot(x, m) / 2 == AndNot(x / 2, m / 2)
    ensures AndNot(x, m) % 2 == (if x % 2 == 1 && m % 2 == 0 then 1 else 0)
  {
  }

  lemma {:induction false} AndNotZero(x: nat)
    ensures AndNot(x, 0) == x
  {
    if x > 0 {
      AndNotZero(x / 2);
    }
  }

  lemma {:induction false} AndPlusAndNot(x: nat, m: nat)
    ensures And(x, m) + AndNot(x, m) == x
  {
    if x > 0 {
      AndPlusAndNot(x / 2, m / 2);
      AndHalf(x, m);
      AndNotHalf(x, m);
    }
  }

  lemma {:induction false} AndBit(x: nat, y: nat, i: nat)
    ensures Bit(And(x, y), i) <==> Bit(x, i) && Bit(y, i)
  {
    AndHalf(x, y);
    if i > 0 {
      AndBit(x / 2, y / 2, i - 1);
    }
  }

  lemma {:induction false} AndNotBit(x: nat, m: nat, i: nat)
    ensures Bit(AndNot(x, m), i) <==> Bit(x, i) && !Bit(m, i)
  {
    AndNotHalf(x, m);
    if i > 0 {
      AndNotBit(x / 2, m / 2, i - 1);
    }
  }

  /** And with the ones in positions `[a, b)` keeps that field in place. */
  lemma {:induction false} AndField(x: nat, a: nat, b: nat)
    requires a <= b
    ensures Pow2(a) <= Pow2(b)
    ensures And(x, Pow2(b) - Pow2(a)) == x % Pow2(b) - x % Pow2(a)
  {
    if b > 0 {
      var c := if a == 0 then 0 else a - 1;
      AndField(x / 2, c, b - 1);
      var m := Pow2(b) - Pow2(a);
      assert m / 2 == Pow2(b - 1) - Pow2(c);
      assert And(x, m) / 2 == And(x / 2, m / 2) by { AndHalf(x, m); }
      assert And(x, m) % 2 == if a == 0 then x % 2 else 0 by { AndHalf(x, m); }
      assert x % Pow2(b) == 2 * ((x / 2) % Pow2(b - 1)) + x % 2 by { HalfDivMod(x, Pow2(b - 1)); }
      if a > 0 {
        assert x % Pow2(a) == 2 * ((x / 2) % Pow2(c)) + x % 2 by { HalfDivMod(x, Pow2(c)); }
      }
    }
  }

  /** And with a mask that covers `x` is `x`. */
  lemma AndKeeps(x: nat, a: nat, b: nat)
    requires a <= b && x % Pow2(a) == 0 && x < Pow2(b)
    ensures Pow2(a) <= Pow2(b)
    ensures And(x, Pow2(b) - Pow2(a)) == x
  {
    var p := Pow2(b);
    assert x % p == x by { DivUnique(x, p, 0, x); }
    AndField(x, a, b);
  }

  /** `x << k` */
  function Shl(x: nat, k: nat): nat
    decreases k
  {
    if k == 0 then x else 2 * Shl(x, k - 1)
  }

  /** Or with a number whose low `k` bits are clear leaves those bits to the other operand. */
  lemma {:induction false} OrBlock(x: nat, h: nat, l: nat, k: nat)
    requires l < Pow2(k)
    ensures Or(Shl(x, k), Shl(h, k) + l) == Shl(Or(x, h), k) + l
    decreases k
  {
    if k > 0 {
      OrBlock(x, h, l / 2, k - 1);
      OrHalf(Shl(x, k), Shl(h, k) + l);
    }
  }

  lemma OrHalf(x: nat, y: nat)
    ensures Or(x, y) / 2 == Or(x / 2, y / 2)
    ensures Or(x, y) % 2 == (if x % 2 == 1 || y % 2 == 1 then 1 else 0)
  {
  }
}
