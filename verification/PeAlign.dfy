/** Rounding up to an alignment with the mask trick. */
module PeAlign {
  import opened Bits

  function AlignUp(value: nat, alignment: nat): nat
    requires alignment > 0
  {
    AndNot(value + alignment - 1, alignment - 1)
  }

  /** Whatever the alignment, the result is never below the value. */
  lemma AlignUpIsAbove(value: nat, alignment: nat)
    requires alignment > 0
    ensures value <= AlignUp(value, alignment) < value + alignment
  {
    AndBelowMask(value + alignment - 1, alignment - 1);
  }

  /** For a power of two the mask trick gives the least multiple that is not below the value. */
  lemma AlignsToPowerOfTwo(value: nat, k: nat) returns (q: nat)
    ensures AlignUp(value, Pow2(k)) == q * Pow2(k)
    ensures value <= AlignUp(value, Pow2(k)) < value + Pow2(k)
    ensures forall p: nat :: value <= p * Pow2(k) ==> q <= p
  {
    q := AndNotRoundsDown(value + Pow2(k) - 1, k);
    forall p: nat | value <= p * Pow2(k) ensures q <= p {
      if p < q { LessBelow(p, q, Pow2(k)); }
    }
  }

  lemma {:induction false} LessBelow(p: nat, q: nat, d: nat)
    requires p < q
    ensures p * d + d <= q * d
  {
    if q > p + 1 { LessBelow(p, q - 1, d); }
    assert q * d == (q - 1) * d + d;
  }

  lemma AlignFour(value: nat)
    ensures value <= AlignUp(value, 4) < value + 4 && AlignUp(value, 4) % 4 == 0
    ensures AlignUp(40, 4) == 40
  {
    assert Pow2(2) == 4;
    var q := AlignsToPowerOfTwo(value, 2);
    var r := AlignsToPowerOfTwo(40, 2);
  }

  /** What a caller of `AlignUp` expects of it. */
  ghost predicate Aligns(value: nat, alignment: nat)
    requires alignment > 0
  {
    value <= AlignUp(value, alignment) < value + alignment
      && exists q: nat :: AlignUp(value, alignment) == q * alignment
  }

  /** The mask trick aligns every value exactly when the alignment is a power of two. */
  lemma AlignsExactlyForPowersOfTwo(alignment: nat)
    requires alignment > 0
    ensures (forall value: nat :: Aligns(value, alignment)) <==> exists k: nat :: alignment == Pow2(k)
  {
    hide Aligns, Pow2;
    if k: nat :| alignment == Pow2(k) {
      forall value: nat ensures Aligns(value, alignment) { PowerAligns(value, k); }
    }
    if forall value: nat :: Aligns(value, alignment) {
      assert Aligns(alignment, alignment);
      AlignsItself(alignment);
    }
  }

  lemma PowerAligns(value: nat, k: nat)
    ensures Aligns(value, Pow2(k))
  {
    hide AlignUp;
    var q := AlignsToPowerOfTwo(value, k);
  }

  /** Already the alignment itself gives a wrong one away. */
  lemma AlignsItself(alignment: nat)
    requires alignment > 0 && Aligns(alignment, alignment)
    ensures exists k: nat :: alignment == Pow2(k)
  {
    hide AndNot, Pow2;
    var q: nat :| AlignUp(alignment, alignment) == q * alignment;
    OnlyOnce(q, alignment);
    assert AndNot(2 * (alignment - 1) + 1, alignment - 1) == alignment;
    ShiftedOnes(alignment - 1, 1);
  }

  lemma OnlyOnce(q: nat, a: nat)
    requires a <= q * a < a + a
    ensures q * a == a
  {
    if q > 1 { LessBelow(1, q, a); }
  }

  /** Only a mask of all ones is cleared in full from its own double. */
  lemma {:induction false} ShiftedOnes(b: nat, c: nat)
    requires c < 2 && AndNot(2 * b + c, b) == b + c
    ensures b > 0 ==> c == 1
    ensures exists k: nat :: b + 1 == Pow2(k)
  {
    if b == 0 {
      assert Pow2(0) == 1;
    } else {
      assert (2 * b + c) / 2 == 2 * (b / 2) + b % 2;
      ShiftedOnes(b / 2, b % 2);
      var k: nat :| b / 2 + 1 == Pow2(k);
      assert b + 1 == Pow2(k + 1);
    }
  }
}
