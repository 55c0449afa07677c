/**
 What fixes the constants of the checksum: no register but zero survives zero bytes, and two messages settle the rest.
*/
module CrcValues {
  import opened Bits
  import opened Bytes
  import opened Crc32
  import opened CrcDetection

  // ----- no register but zero comes back to itself -----

  /** Whether the number of binary ones is odd. */
  function Odd(a: nat): bool {
    if a == 0 then false else (a % 2 == 1) != Odd(a / 2)
  }

  lemma {:induction false} OddOfXor(a: nat, b: nat)
    ensures Odd(Xor(a, b)) == (Odd(a) != Odd(b))
    decreases a + b
  {
    if a + b > 0 {
      OddOfXor(a / 2, b / 2);
      XorHalves(a, b);
      hide Xor;
    }
  }

  /** The generator has an even number of ones beside its lead, so a step changes every register but zero. */
  lemma ShiftMoves(c: nat)
    requires Shift(c) == c
    ensures c == 0
  {
    hide Xor;
    if c % 2 == 1 {
      OddOfXor(POLYNOMIAL, c / 2);
      EvenGenerator();
    }
  }

  lemma OddDigit(high: nat, digit: nat)
    requires digit < 2
    ensures Odd(2 * high + digit) == (Odd(high) != (digit == 1))
  {
  }

  lemma OddDigits()
    ensures Odd(0xE) && Odd(0xD) && Odd(0xB) && Odd(0x8) && !Odd(0x3) && Odd(0x2) && !Odd(0)
  {
  }

  /** A hexadecimal digit in front of the others. */
  lemma OddNibble(high: nat, low: nat)
    requires low < 16
    ensures Odd(16 * high + low) == (Odd(high) != Odd(low))
  {
    OddDigits();
    hide Odd;
    var d3, d2, d1, d0 := low / 8, low / 4 % 2, low / 2 % 2, low % 2;
    assert low == 8 * d3 + 4 * d2 + 2 * d1 + d0;
    OddDigit(high, d3);
    OddDigit(2 * high + d3, d2);
    OddDigit(4 * high + 2 * d3 + d2, d1);
    OddDigit(8 * high + 4 * d3 + 2 * d2 + d1, d0);
    OddDigit(0, d3);
    OddDigit(d3, d2);
    OddDigit(2 * d3 + d2, d1);
    OddDigit(4 * d3 + 2 * d2 + d1, d0);
  }

  lemma EvenGenerator()
    ensures !Odd(POLYNOMIAL)
  {
    hide Odd;
    OddDigits();
    OddNibble(0xE, 0xD);
    OddNibble(0xED, 0xB);
    OddNibble(0xEDB, 0x8);
    OddNibble(0xEDB8, 0x8);
    OddNibble(0xE_DB88, 0x3);
    OddNibble(0xED_B883, 0x2);
    OddNibble(0xEDB_8832, 0);
  }

  lemma {:induction false} ShiftsTwice(c: nat, m: nat, n: nat)
    ensures Shifts(Shifts(c, m), n) == Shifts(c, m + n)
    decreases m
  {
    hide Shift;
    if m > 0 { ShiftsTwice(Shift(c), m - 1, n); }
  }

  lemma {:induction false} ShiftsBelow(c: nat, n: nat)
    requires c < WORD
    ensures Shifts(c, n) < WORD
    decreases n
  {
    hide Shift;
    if n > 0 {
      ShiftTop(c);
      ShiftsBelow(Shift(c), n - 1);
    }
  }

  lemma XorIsZero(a: nat, b: nat)
    ensures Xor(a, b) == 0 <==> a == b
  {
    hide Xor;
    if Xor(a, b) == 0 { XorCancels(a, b); }
    XorZero(b);
  }

  /** Nor does any come back after 2, 4, 8 or another power of two of steps. */
  lemma {:induction false} ShiftsMove(c: nat, k: nat)
    requires Shifts(c, Pow2(k)) == c
    ensures c == 0
    decreases k
  {
    hide Shift, Xor;
    if k == 0 {
      assert Shifts(c, 1) == Shift(c);
      ShiftMoves(c);
    } else {
      var half := Pow2(k - 1);
      var moved := Shifts(c, half);
      ShiftsTwice(c, half, half);
      ShiftsLinear(moved, c, half);
      XorCommutes(moved, c);
      // One half-way move of the difference gives the difference back.
      ShiftsMove(Xor(moved, c), k - 1);
      XorIsZero(moved, c);
      ShiftsMove(c, k - 1);
    }
  }

  // ----- the constants -----

  /** The checksum with another start value and another final mask. */
  function CrcFrom(start: nat, mask: nat, data: seq<u8>): nat { Xor(Feed(start, MessageBits(data)), mask) }

  const ONES: seq<u8> := [0xFF, 0xFF, 0xFF, 0xFF]

  /** The empty message has checksum zero, and four bytes of ones keep their value. */
  lemma EmptyAndOnes()
    ensures Crc([]) == 0 && Crc(ONES) == 0xFFFF_FFFF
  {
    hide Xor, Feed, MessageBits;
    EmptyFeed(0xFFFF_FFFF);
    XorZero(0xFFFF_FFFF);
    OnesFed(0xFFFF_FFFF);
    ShiftsOfZero(32);
    XorZero(0xFFFF_FFFF);
  }

  lemma OnesFed(start: nat)
    ensures Feed(start, MessageBits(ONES)) == Shifts(Xor(start, 0xFFFF_FFFF), 32)
  {
    hide Xor, Feed, MessageBits;
    PackFour(ONES);
    FeedIsShifts(start, MessageBits(ONES));
  }

  lemma PackFour(data: seq<u8>)
    requires |data| == 4
    ensures Pack(MessageBits(data)) ==
      data[0] as int + 0x100 * data[1] as int + 0x1_0000 * data[2] as int + 0x100_0000 * data[3] as int
  {
    hide Pack, MessageBits;
    PackFirstByte(data);
    PackFirstByte(data[1..]);
    PackFirstByte(data[2..]);
    PackFirstByte(data[3..]);
    assert data[1..][1..] == data[2..] && data[2..][1..] == data[3..] && data[3..][1..] == [];
    PackNothing();
  }

  /** Those two values leave no other start and no other mask. */
  lemma ConstantsAreFixed(start: nat, mask: nat)
    requires start < WORD && mask < WORD
    ensures CrcFrom(start, mask, []) == 0 && CrcFrom(start, mask, ONES) == 0xFFFF_FFFF <==>
      start == 0xFFFF_FFFF && mask == 0xFFFF_FFFF
  {
    hide Xor, Feed, MessageBits;
    EmptyAndOnes();
    if CrcFrom(start, mask, []) == 0 && CrcFrom(start, mask, ONES) == 0xFFFF_FFFF {
      var ones, d := 0xFFFF_FFFF, Xor(start, 0xFFFF_FFFF);
      EmptyFeed(start);
      XorIsZero(start, mask);
      OnesFed(start);
      XorCancels(Shifts(d, 32), start);
      XorCommutes(ones, start);
      assert Pow2(5) == 32;
      ShiftsMove(d, 5);
      XorIsZero(start, ones);
    }
  }

  /** One zero byte in front, or two, four or any other power of two of them, changes every checksum. */
  lemma ZerosInFrontShow(data: seq<u8>, k: nat)
    ensures Crc(seq(Pow2(k), _ => 0) + data) != Crc(data)
  {
    hide Xor, Feed, MessageBits, Shifts, Pow2;
    var zeros: seq<u8>, ones := seq(Pow2(k), _ => 0), 0xFFFF_FFFF;
    var moved := Feed(ones, MessageBits(zeros));
    MessageBitsJoin(zeros, data);
    FeedJoins(ones, MessageBits(zeros), MessageBits(data));
    ZerosFed(ones, Pow2(k));
    assert Pow2(k + 3) == 8 * Pow2(k) by { EightTimes(k); }
    if Crc(zeros + data) == Crc(data) {
      XorCancels(Feed(moved, MessageBits(data)), ones);
      XorCancels(Feed(ones, MessageBits(data)), ones);
      FeedBelow(ones, MessageBits(zeros));
      FeedInjective(moved, ones, MessageBits(data));
      ShiftsMove(ones, k + 3);
    }
  }

  lemma EightTimes(k: nat)
    ensures Pow2(k + 3) == 8 * Pow2(k)
  {
    assert Pow2(k + 3) == 2 * Pow2(k + 2) && Pow2(k + 2) == 2 * Pow2(k + 1);
  }

  lemma ZerosFed(c: nat, n: nat)
    ensures Feed(c, MessageBits(seq(n, _ => 0))) == Shifts(c, 8 * n)
  {
    hide Feed, Xor, MessageBits, Shifts;
    var zeros: seq<u8> := seq(n, _ => 0);
    PackZeros(zeros);
    FeedIsShifts(c, MessageBits(zeros));
    XorZero(c);
  }

  lemma {:induction false} PackZeros(data: seq<u8>)
    requires forall i :: 0 <= i < |data| ==> data[i] == 0
    ensures Pack(MessageBits(data)) == 0
  {
    hide Pack, MessageBits;
    if data == [] {
      PackNothing();
    } else {
      PackFirstByte(data);
      PackZeros(data[1..]);
    }
  }
}
