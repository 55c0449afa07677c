/**
 CRC-32 as the self-extractor computes it, one table look-up per byte, against the register of section 8 of RFC 1952
 that takes one message bit at a time. Words are natural numbers below 2^32.
*/
module Crc32 {
  import opened Bits
  import opened Bytes

  const POLYNOMIAL: u32 := 0xEDB8_8320

  // ----- the bitwise definition -----

  /** One step of the reflected shift register. */
  function Shift(c: nat): nat {
    if c % 2 == 1 then Xor(POLYNOMIAL, c / 2) else c / 2
  }

  function Shifts(c: nat, n: nat): nat
    decreases n
  {
    if n == 0 then c else Shifts(Shift(c), n - 1)
  }

  function Unit(bit: bool): nat { if bit then 1 else 0 }

  /** The register after a stream of message bits. */
  function Feed(c: nat, bits: seq<bool>): nat
    decreases |bits|
  {
    if bits == [] then c else Feed(Shift(Xor(c, Unit(bits[0]))), bits[1..])
  }

  /** The low `n` bits of a number, the least significant first. */
  function LowBits(b: nat, n: nat): (bits: seq<bool>)
    ensures |bits| == n
    decreases n
  {
    if n == 0 then [] else [b % 2 == 1] + LowBits(b / 2, n - 1)
  }

  function MessageBits(data: seq<u8>): (bits: seq<bool>)
    ensures |bits| == 8 * |data|
    decreases |data|
  {
    if data == [] then [] else LowBits(data[0], 8) + MessageBits(data[1..])
  }

  function Crc(data: seq<u8>): nat { Xor(Feed(0xFFFF_FFFF, MessageBits(data)), 0xFFFF_FFFF) }

  // ----- the register is linear and loses nothing -----

  lemma ShiftLinear(a: nat, b: nat)
    ensures Shift(Xor(a, b)) == Xor(Shift(a), Shift(b))
  {
    var p, x, y := POLYNOMIAL, a / 2, b / 2;
    XorHalves(a, b);
    hide Xor;
    XorCommutes(p, x);
    XorAssociates(p, x, y);
    XorAssociates(x, p, y);
    XorAssociates(x, p, Xor(p, y));
    XorCommutes(p, y);
    XorCancels(y, p);
    XorCommutes(p, Xor(y, p));
  }

  lemma XorHalves(a: nat, b: nat)
    ensures Xor(a, b) / 2 == Xor(a / 2, b / 2)
    ensures Xor(a, b) % 2 == if a % 2 == b % 2 then 0 else 1
  {
  }

  /** The top bit of the result tells which branch a step took. */
  lemma ShiftTop(c: nat)
    requires c < WORD
    ensures Shift(c) < WORD
    ensures c % 2 == 1 <==> Shift(c) >= 0x8000_0000
  {
    Words();
    hide Xor, Pow2;
    if c % 2 == 1 { XorTopBit(POLYNOMIAL, c / 2, 31); }
  }

  lemma Words()
    ensures Pow2(31) == 0x8000_0000 && Pow2(32) == WORD
  {
    Pow2Table();
    hide Pow2;
    HalfWord();
  }

  lemma HalfWord()
    ensures Pow2(32) == 2 * Pow2(31)
  {
  }

  /** So a step can be undone. */
  lemma ShiftInjective(a: nat, b: nat)
    requires a < WORD && b < WORD && Shift(a) == Shift(b)
    ensures a == b
  {
    hide Xor;
    ShiftTop(a);
    ShiftTop(b);
    if a % 2 == 1 {
      XorCommutes(POLYNOMIAL, a / 2);
      XorCommutes(POLYNOMIAL, b / 2);
      XorCancels(a / 2, POLYNOMIAL);
      XorCancels(b / 2, POLYNOMIAL);
    }
  }

  lemma {:induction false} ShiftsLinear(a: nat, b: nat, n: nat)
    ensures Shifts(Xor(a, b), n) == Xor(Shifts(a, n), Shifts(b, n))
    decreases n
  {
    hide Shift, Xor;
    if n > 0 {
      ShiftLinear(a, b);
      ShiftsLinear(Shift(a), Shift(b), n - 1);
    }
  }

  lemma {:induction false} ShiftsInjective(a: nat, b: nat, n: nat)
    requires a < WORD && b < WORD && Shifts(a, n) == Shifts(b, n)
    ensures a == b
    decreases n
  {
    hide Shift;
    if n > 0 {
      ShiftTop(a);
      ShiftTop(b);
      ShiftsInjective(Shift(a), Shift(b), n - 1);
      ShiftInjective(a, b);
    }
  }

  /** The number a run of bits stands for. */
  function Pack(bits: seq<bool>): nat {
    if bits == [] then 0 else Unit(bits[0]) + 2 * Pack(bits[1..])
  }

  lemma {:induction false} PackBelow(bits: seq<bool>)
    ensures Pack(bits) < Pow2(|bits|)
  {
    if bits != [] { PackBelow(bits[1..]); }
  }

  lemma {:induction false} PackInjective(p: seq<bool>, q: seq<bool>)
    requires |p| == |q| && Pack(p) == Pack(q)
    ensures p == q
  {
    if p != [] {
      assert Pack(p) % 2 == Unit(p[0]) && Pack(q) % 2 == Unit(q[0]);
      PackInjective(p[1..], q[1..]);
      assert p == [p[0]] + p[1..] && q == [q[0]] + q[1..];
    }
  }

  lemma {:induction false} PackLowBits(b: nat, n: nat)
    requires b < Pow2(n)
    ensures Pack(LowBits(b, n)) == b
    decreases n
  {
    if n > 0 { PackLowBits(b / 2, n - 1); }
  }

  /** Feeding bits one by one is xoring them in at once and then shifting. */
  lemma {:induction false} FeedIsShifts(c: nat, bits: seq<bool>)
    ensures Feed(c, bits) == Shifts(Xor(c, Pack(bits)), |bits|)
    decreases |bits|
  {
    hide Xor, Shift;
    if bits == [] {
      XorZero(c);
    } else {
      var u, rest := Unit(bits[0]), Pack(bits[1..]);
      FeedIsShifts(Shift(Xor(c, u)), bits[1..]);
      LowBitSplits(u, rest);
      XorAssociates(c, u, 2 * rest);
      ShiftLinear(Xor(c, u), 2 * rest);
      assert Shift(2 * rest) == rest by { EvenShift(rest); }
    }
  }

  lemma LowBitSplits(u: nat, rest: nat)
    requires u < 2
    ensures Xor(u, 2 * rest) == u + 2 * rest
  {
    hide Xor;
    XorHalves(u, 2 * rest);
    XorZero(rest);
  }

  lemma EvenShift(q: nat)
    ensures Shift(2 * q) == q
  {
  }

  lemma {:induction false} FeedInjective(a: nat, b: nat, bits: seq<bool>)
    requires a < WORD && b < WORD && Feed(a, bits) == Feed(b, bits)
    ensures a == b
    decreases |bits|
  {
    hide Shift, Xor;
    if bits != [] {
      var u := Unit(bits[0]);
      WordXor(a, u);
      WordXor(b, u);
      ShiftTop(Xor(a, u));
      ShiftTop(Xor(b, u));
      FeedInjective(Shift(Xor(a, u)), Shift(Xor(b, u)), bits[1..]);
      ShiftInjective(Xor(a, u), Xor(b, u));
      XorCancels(a, u);
      XorCancels(b, u);
    }
  }

  lemma WordXor(a: nat, b: nat)
    requires a < WORD && b < WORD
    ensures Xor(a, b) < WORD
  {
    Words();
    hide Pow2, Xor;
    XorBelow(a, b, 32);
  }

  lemma {:induction false} FeedBelow(c: nat, bits: seq<bool>)
    requires c < WORD
    ensures Feed(c, bits) < WORD
    decreases |bits|
  {
    hide Shift, Xor;
    if bits != [] {
      WordXor(c, Unit(bits[0]));
      ShiftTop(Xor(c, Unit(bits[0])));
      FeedBelow(Shift(Xor(c, Unit(bits[0]))), bits[1..]);
    }
  }

  lemma {:induction false} FeedJoins(c: nat, p: seq<bool>, q: seq<bool>)
    ensures Feed(c, p + q) == Feed(Feed(c, p), q)
    decreases |p|
  {
    hide Shift, Xor;
    if p == [] {
      assert p + q == q;
    } else {
      assert (p + q)[1..] == p[1..] + q;
      FeedJoins(Shift(Xor(c, Unit(p[0]))), p[1..], q);
    }
  }

  lemma {:induction false} MessageBitsJoin(a: seq<u8>, b: seq<u8>)
    ensures MessageBits(a + b) == MessageBits(a) + MessageBits(b)
    decreases |a|
  {
    hide LowBits;
    if a == [] {
      assert a + b == b;
    } else {
      assert (a + b)[1..] == a[1..] + b;
      MessageBitsJoin(a[1..], b);
    }
  }

  // ----- the table -----

  /** What the table holds once filled: eight register steps from each index. */
  ghost predicate Filled(table: seq<nat>) {
    |table| == 256 && forall i :: 0 <= i < 256 ==> table[i] == Shifts(i, 8)
  }

  /** The nested loops that fill the table. */
  method InitCrc32(table: array<nat>)
    requires table.Length == 256
    modifies table
    ensures Filled(table[..])
  {
    hide Xor;
    for i := 0 to 256
      invariant forall k :: 0 <= k < i ==> table[k] == Shifts(k, 8)
    {
      var c: nat := i;
      for j := 0 to 8
        invariant Shifts(c, 8 - j) == Shifts(i, 8)
      {
        c := if c % 2 == 1 then Xor(0xEDB8_8320, c / 2) else c / 2;
      }
      table[i] := c;
    }
  }

  lemma {:induction false} ShiftsDown(q: nat, n: nat)
    ensures Shifts(q * Pow2(n), n) == q
    decreases n
  {
    hide Shift;
    if n > 0 {
      Doubled(q, Pow2(n - 1));
      EvenShift(q * Pow2(n - 1));
      ShiftsDown(q, n - 1);
    }
  }

  lemma ByteBits()
    ensures Pow2(8) == 256
  {
  }

  /** One look-up does the work of eight steps. */
  lemma LookUpIsEightShifts(c: nat)
    ensures Xor(Shifts(c % 256, 8), c / 256) == Shifts(c, 8)
  {
    hide Shift, Shifts, Xor, Pow2;
    ByteBits();
    XorDisjoint(c % 256, c / 256, 8);
    ShiftsLinear(c % 256, c / 256 * 256, 8);
    ShiftsDown(c / 256, 8);
  }

  function Drop(a: nat, n: nat): nat { if n == 0 then a else Drop(a / 2, n - 1) }

  /** Xoring in a small number leaves the upper bits alone. */
  lemma {:induction false} XorKeepsUpper(a: nat, b: nat, n: nat)
    requires b < Pow2(n)
    ensures Drop(Xor(a, b), n) == Drop(a, n)
    decreases n
  {
    if n == 0 {
      XorZero(a);
    } else {
      XorHalves(a, b);
      XorKeepsUpper(a / 2, b / 2, n - 1);
    }
  }

  lemma DropEight(a: nat)
    ensures Drop(a, 8) == a / 256
  {
    assert Drop(a, 8) == Drop(a / 2 / 2, 6) == Drop(a / 2 / 2 / 2 / 2, 4);
    assert a / 2 / 2 == a / 4 && a / 4 / 2 / 2 == a / 16;
    assert Drop(a / 16, 4) == Drop(a / 16 / 2 / 2, 2) == a / 16 / 2 / 2 / 2 / 2;
    assert a / 16 / 2 / 2 == a / 64 && a / 64 / 2 / 2 == a / 256;
  }

  lemma ByteXorKeepsUpper(a: nat, b: u8)
    ensures Xor(a, b) / 256 == a / 256
  {
    assert Pow2(8) == 256;
    hide Xor, Pow2, Drop;
    XorKeepsUpper(a, b, 8);
    DropEight(a);
    DropEight(Xor(a, b));
  }

  // ----- the fast form refines the bitwise one -----

  /** The byte loop over the first `size` bytes of a buffer. */
  method UpdateCrc32(table: array<nat>, crc: nat, data: array<u8>, size: nat) returns (r: nat)
    requires Filled(table[..]) && size <= data.Length
    ensures r == Feed(crc, MessageBits(data[..size]))
  {
    hide Xor, Shifts, Feed, MessageBits;
    EmptyFeed(crc);
    r := crc;
    assert data[..0] == [];
    for i := 0 to size
      invariant r == Feed(crc, MessageBits(data[..i]))
    {
      assert table[..][Xor(r, data[i]) % 256] == Shifts(Xor(r, data[i]) % 256, 8);
      ByteStep(r, data[i]);
      NextByte(crc, data[..i], data[i]);
      assert data[..i + 1] == data[..i] + [data[i]];
      r := Xor(table[Xor(r, data[i]) % 256], r / 256);
    }
  }

  lemma EmptyFeed(c: nat)
    ensures Feed(c, MessageBits([])) == c
  {
  }

  lemma ByteStep(c: nat, b: u8)
    ensures Xor(Shifts(Xor(c, b) % 256, 8), c / 256) == Feed(c, LowBits(b, 8))
  {
    assert Pow2(8) == 256;
    hide Xor, Shifts, Feed, LowBits, Pow2, Pack;
    LookUpIsEightShifts(Xor(c, b));
    ByteXorKeepsUpper(c, b);
    PackLowBits(b, 8);
    FeedIsShifts(c, LowBits(b, 8));
  }

  lemma NextByte(c: nat, data: seq<u8>, b: u8)
    ensures Feed(c, MessageBits(data + [b])) == Feed(Feed(c, MessageBits(data)), LowBits(b, 8))
  {
    hide Feed, LowBits;
    MessageBitsJoin(data, [b]);
    assert MessageBits([b]) == LowBits(b, 8) by { assert [b][1..] == []; }
    FeedJoins(c, MessageBits(data), LowBits(b, 8));
  }
}
