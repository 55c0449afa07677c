/** Bitwise operations on natural numbers, one binary digit at a time. */
module Bits {

  function Pow2(n: nat): (p: nat)
    ensures p >= 1
  {
    if n == 0 then 1 else 2 * Pow2(n - 1)
  }

  function Bit(a: nat, k: nat): (b: nat)
    ensures b <= 1
    ensures b == 1 ==> Pow2(k) <= a
  {
    if k == 0 then a % 2 else Bit(a / 2, k - 1)
  }

  // ----- conjunction -----

  function And(a: nat, b: nat): (r: nat)
    ensures r <= a
  {
    if a == 0 then 0 else (if b % 2 == 1 then a % 2 else 0) + 2 * And(a / 2, b / 2)
  }

  lemma {:induction false} AndSelf(a: nat)
    ensures And(a, a) == a
  {
    if a > 0 { AndSelf(a / 2); }
  }

  lemma AndOdd(a: nat, half: nat)
    ensures And(a, 2 * half + 1) == a % 2 + 2 * And(a / 2, half)
  {
    assert (2 * half + 1) % 2 == 1 && (2 * half + 1) / 2 == half;
  }

  lemma {:induction false} AndOnes(a: nat, n: nat)
    requires a < Pow2(n)
    ensures And(a, Pow2(n) - 1) == a
  {
    if n > 0 {
      AndOnes(a / 2, n - 1);
      AndOdd(a, Pow2(n - 1) - 1);
    }
  }

  lemma AndButLowest(a: nat, n: nat)
    requires n > 0 && a < Pow2(n)
    ensures 1 < Pow2(n) && And(a, Pow2(n) - 2) == a - a % 2
  {
    AndOnes(a / 2, n - 1);
    assert (Pow2(n) - 2) % 2 == 0 && (Pow2(n) - 2) / 2 == Pow2(n - 1) - 1;
  }

  /** A mask of all ones but bit `k` takes exactly that bit away. */
  lemma {:induction false} AndAllButOne(a: nat, k: nat, n: nat)
    requires k < n && a < Pow2(n)
    ensures Pow2(k) < Pow2(n)
    ensures And(a, Pow2(n) - 1 - Pow2(k)) == a - Bit(a, k) * Pow2(k)
  {
    if k == 0 {
      AndButLowest(a, n);
    } else {
      AndAllButOne(a / 2, k - 1, n - 1);
      var half := Pow2(n - 1) - 1 - Pow2(k - 1);
      assert Pow2(n) - 1 - Pow2(k) == 2 * half + 1;
      AndOdd(a, half);
      Doubled(Bit(a, k), Pow2(k - 1));
      hide And, Pow2;
    }
  }

  lemma Pow2Table()
    ensures Pow2(13) == 0x2000 && Pow2(32) == 0x1_0000_0000
  {
    assert Pow2(4) == 16 && Pow2(8) == 256;
    assert Pow2(13) == 32 * Pow2(8);
    assert Pow2(16) == 8 * Pow2(13);
    assert Pow2(20) == 16 * Pow2(16);
    assert Pow2(24) == 16 * Pow2(20);
    assert Pow2(28) == 16 * Pow2(24);
    assert Pow2(32) == 16 * Pow2(28);
  }

  /** The bits of `a` that are not set in `mask`. */
  function AndNot(a: nat, mask: nat): (r: nat)
    ensures r <= a
  {
    a - And(a, mask)
  }

  lemma AndNotOdd(a: nat, half: nat)
    ensures AndNot(a, 2 * half + 1) == 2 * AndNot(a / 2, half)
  {
    AndOdd(a, half);
  }

  function Scaled(q: nat, k: nat): nat {
    if k == 0 then q else 2 * Scaled(q, k - 1)
  }

  lemma {:induction false} ScaledIs(q: nat, k: nat)
    ensures Scaled(q, k) == q * Pow2(k)
  {
    if k > 0 {
      ScaledIs(q, k - 1);
      Doubled(q, Pow2(k - 1));
    }
  }

  lemma {:induction false} AndNotScales(a: nat, k: nat) returns (q: nat)
    ensures AndNot(a, Pow2(k) - 1) == Scaled(q, k) && a < Scaled(q, k) + Pow2(k)
  {
    if k == 0 {
      AndNotNothing(a);
      q := a;
    } else {
      q := AndNotScales(a / 2, k - 1);
      AndNotOdd(a, Pow2(k - 1) - 1);
    }
  }

  /** Masking out the low `k` bits rounds down to a multiple of `2^k`. */
  lemma AndNotRoundsDown(a: nat, k: nat) returns (q: nat)
    ensures AndNot(a, Pow2(k) - 1) == q * Pow2(k)
    ensures a < AndNot(a, Pow2(k) - 1) + Pow2(k)
  {
    hide Scaled, AndNot, Pow2;
    q := AndNotScales(a, k);
    ScaledIs(q, k);
  }

  lemma Doubled(q: nat, p: nat)
    ensures 2 * (q * p) == q * (2 * p)
  {
  }

  lemma {:induction false} AndNotNothing(a: nat)
    ensures AndNot(a, 0) == a
  {
    if a > 0 { AndNotNothing(a / 2); }
  }

  lemma {:induction false} AndBelowMask(a: nat, mask: nat)
    ensures And(a, mask) <= mask
  {
    if a > 0 { AndBelowMask(a / 2, mask / 2); }
  }

  // ----- exclusive or -----

  function Xor(a: nat, b: nat): nat
    decreases a + b
  {
    if a == 0 && b == 0 then 0 else (if a % 2 == b % 2 then 0 else 1) + 2 * Xor(a / 2, b / 2)
  }

  lemma {:induction false} XorZero(a: nat)
    ensures Xor(a, 0) == a && Xor(0, a) == a && Xor(a, a) == 0
    decreases a
  {
    if a > 0 { XorZero(a / 2); }
  }

  lemma {:induction false} XorCommutes(a: nat, b: nat)
    ensures Xor(a, b) == Xor(b, a)
    decreases a + b
  {
    if a + b > 0 { XorCommutes(a / 2, b / 2); }
  }

  lemma {:induction false} XorAssociates(a: nat, b: nat, c: nat)
    ensures Xor(Xor(a, b), c) == Xor(a, Xor(b, c))
    decreases a + b + c
  {
    if a + b + c > 0 { XorAssociates(a / 2, b / 2, c / 2); }
  }

  /** What is xored in comes out by xoring it again. */
  lemma XorCancels(a: nat, b: nat)
    ensures Xor(Xor(a, b), b) == a
  {
    XorAssociates(a, b, b);
    XorZero(b);
    XorZero(a);
  }

  lemma {:induction false} XorBelow(a: nat, b: nat, n: nat)
    requires a < Pow2(n) && b < Pow2(n)
    ensures Xor(a, b) < Pow2(n)
    decreases n
  {
    if a + b > 0 { XorBelow(a / 2, b / 2, n - 1); }
  }

  /** A bit above everything in the other operand survives. */
  lemma {:induction false} XorTopBit(a: nat, b: nat, n: nat)
    requires Pow2(n) <= a < Pow2(n + 1) && b < Pow2(n)
    ensures Pow2(n) <= Xor(a, b) < Pow2(n + 1)
  {
    if n == 0 {
      assert Pow2(1) == 2 && a == 1 && b == 0;
      XorZero(1);
    } else {
      assert Pow2(n + 1) == 2 * Pow2(n);
      XorTopBit(a / 2, b / 2, n - 1);
    }
  }

  /** Numbers without a common bit are added. */
  lemma {:induction false} XorDisjoint(low: nat, high: nat, n: nat)
    requires low < Pow2(n)
    ensures Xor(low, high * Pow2(n)) == low + high * Pow2(n)
  {
    if n == 0 {
      XorZero(high);
    } else {
      Doubled(high, Pow2(n - 1));
      XorDisjoint(low / 2, high, n - 1);
      assert low + high * Pow2(n) == low % 2 + 2 * (low / 2 + high * Pow2(n - 1));
    }
  }
}
