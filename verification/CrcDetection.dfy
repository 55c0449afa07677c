/** What the checksum catches: every change confined to 32 consecutive message bits, and no wider bound. */
module CrcDetection {
  import opened Bits
  import opened Bytes
  import opened Crc32

  lemma {:induction false} MessageBitsInjective(p: seq<u8>, q: seq<u8>)
    requires |p| == |q| && MessageBits(p) == MessageBits(q)
    ensures p == q
  {
    assert Pow2(8) == 256;
    hide LowBits, Pack, Pow2;
    if p != [] {
      var x, y := MessageBits(p), MessageBits(q);
      assert LowBits(p[0], 8) == x[..8] == y[..8] == LowBits(q[0], 8);
      PackLowBits(p[0], 8);
      PackLowBits(q[0], 8);
      assert MessageBits(p[1..]) == x[8..] == y[8..] == MessageBits(q[1..]);
      MessageBitsInjective(p[1..], q[1..]);
      assert p == [p[0]] + p[1..] && q == [q[0]] + q[1..];
    }
  }

  /** Up to 32 bits act on the register as one word, so different runs leave different registers. */
  lemma WindowInjective(c: nat, p: seq<bool>, q: seq<bool>)
    requires c < WORD && |p| == |q| <= 32 && Feed(c, p) == Feed(c, q)
    ensures p == q
  {
    hide Xor, Shifts, Feed, Pack;
    PackInWord(p);
    PackInWord(q);
    FeedIsShifts(c, p);
    FeedIsShifts(c, q);
    WordXor(c, Pack(p));
    WordXor(c, Pack(q));
    ShiftsInjective(Xor(c, Pack(p)), Xor(c, Pack(q)), |p|);
    XorCommutes(c, Pack(p));
    XorCommutes(c, Pack(q));
    XorCancels(Pack(p), c);
    XorCancels(Pack(q), c);
    PackInjective(p, q);
  }

  lemma PackInWord(bits: seq<bool>)
    requires |bits| <= 32
    ensures Pack(bits) < WORD
  {
    PackBelow(bits);
    Words();
    Pow2Grows(|bits|, 32);
  }

  lemma {:induction false} Pow2Grows(m: nat, n: nat)
    requires m <= n
    ensures Pow2(m) <= Pow2(n)
  {
    if m < n { Pow2Grows(m, n - 1); }
  }

  /** Messages that differ only in a window of `n <= 32` bits have the same checksum exactly when they are equal. */
  lemma BurstDetected(p: seq<u8>, q: seq<u8>, at: nat, n: nat)
    requires |p| == |q| && n <= 32 && at + n <= 8 * |p|
    requires forall i :: 0 <= i < 8 * |p| && !(at <= i < at + n) ==> MessageBits(p)[i] == MessageBits(q)[i]
    ensures Crc(p) == Crc(q) <==> p == q
  {
    hide Xor, Feed, MessageBits;
    if Crc(p) == Crc(q) {
      var x, y, ones := MessageBits(p), MessageBits(q), 0xFFFF_FFFF;
      XorCancels(Feed(ones, x), ones);
      XorCancels(Feed(ones, y), ones);
      BurstFed(ones, x, y, at, n);
      MessageBitsInjective(p, q);
    }
  }

  /** The register tells runs apart that differ in one window. */
  lemma BurstFed(ones: nat, x: seq<bool>, y: seq<bool>, at: nat, n: nat)
    requires ones < WORD && |x| == |y| && n <= 32 && at + n <= |x|
    requires forall i :: 0 <= i < |x| && !(at <= i < at + n) ==> x[i] == y[i]
    requires Feed(ones, x) == Feed(ones, y)
    ensures x == y
  {
    hide Feed;
    var s := Feed(ones, x[..at]);
    assert x[..at] == y[..at] && x[at + n..] == y[at + n..];
    FeedInParts(ones, x, at, n);
    FeedInParts(ones, y, at, n);
    FeedBelow(ones, x[..at]);
    FeedBelow(s, x[at..at + n]);
    FeedBelow(s, y[at..at + n]);
    FeedInjective(Feed(s, x[at..at + n]), Feed(s, y[at..at + n]), x[at + n..]);
    WindowInjective(s, x[at..at + n], y[at..at + n]);
    assert x == x[..at] + x[at..at + n] + x[at + n..];
    assert y == y[..at] + y[at..at + n] + y[at + n..];
  }

  lemma FeedInParts(c: nat, x: seq<bool>, at: nat, n: nat)
    requires at + n <= |x|
    ensures Feed(c, x) == Feed(Feed(Feed(c, x[..at]), x[at..at + n]), x[at + n..])
  {
    hide Feed;
    assert x == x[..at] + x[at..];
    assert x[at..] == x[at..at + n] + x[at + n..];
    FeedJoins(c, x[..at], x[at..]);
    FeedJoins(Feed(c, x[..at]), x[at..at + n], x[at + n..]);
  }

  /** Four consecutive bytes are such a window, wherever they lie. */
  lemma FourBytesDetected(p: seq<u8>, q: seq<u8>, k: nat)
    requires |p| == |q| && forall i :: 0 <= i < |p| && !(k <= i < k + 4) ==> p[i] == q[i]
    ensures Crc(p) == Crc(q) <==> p == q
  {
    hide Crc, MessageBits;
    var from := if k < |p| then k else |p|;
    var to := if k + 4 < |p| then k + 4 else |p|;
    assert p[..from] == q[..from] && p[to..] == q[to..];
    BitsInParts(p, from, to);
    BitsInParts(q, from, to);
    BurstDetected(p, q, 8 * from, 8 * (to - from));
  }

  lemma BitsInParts(p: seq<u8>, from: nat, to: nat)
    requires from <= to <= |p|
    ensures MessageBits(p)[..8 * from] == MessageBits(p[..from])
    ensures MessageBits(p)[8 * to..] == MessageBits(p[to..])
  {
    hide MessageBits;
    assert p == p[..from] + p[from..];
    assert p == p[..to] + p[to..];
    MessageBitsJoin(p[..from], p[from..]);
    MessageBitsJoin(p[..to], p[to..]);
  }

  // ----- the bound is tight -----

  const BLANK: seq<u8> := [0, 0, 0, 0, 0]

  /** The generator itself, one bit longer than the window. */
  const GENERATOR: seq<u8> := [0x41, 0x06, 0x71, 0xDB, 0x01]

  lemma {:induction false} PackJoins(p: seq<bool>, q: seq<bool>)
    ensures Pack(p + q) == Pack(p) + Pack(q) * Pow2(|p|)
  {
    if p == [] {
      assert p + q == q;
    } else {
      assert (p + q)[1..] == p[1..] + q;
      assert Pow2(|p|) == 2 * Pow2(|p| - 1);
      PackJoins(p[1..], q);
      var rest, half := Pack(q), Pow2(|p| - 1);
      Doubled(rest, half);
      hide Pow2;
    }
  }

  lemma PackFirstByte(data: seq<u8>)
    requires data != []
    ensures Pack(MessageBits(data)) == data[0] + 256 * Pack(MessageBits(data[1..]))
  {
    assert Pow2(8) == 256;
    var first, rest := LowBits(data[0], 8), MessageBits(data[1..]);
    assert MessageBits(data) == first + rest && Pow2(|first|) == 256;
    hide LowBits, Pack, Pow2, MessageBits;
    PackJoins(first, rest);
    PackLowBits(data[0], 8);
  }

  lemma PackFive(data: seq<u8>)
    requires |data| == 5
    ensures Pack(MessageBits(data)) ==
      data[0] as int + 0x100 * data[1] as int + 0x1_0000 * data[2] as int + 0x100_0000 * data[3] as int
      + 0x1_0000_0000 * data[4] as int
  {
    hide Pack;
    PackFirstByte(data);
    PackFirstByte(data[1..]);
    PackFirstByte(data[2..]);
    PackFirstByte(data[3..]);
    PackFirstByte(data[4..]);
    assert data[1..][1..] == data[2..] && data[2..][1..] == data[3..] && data[3..][1..] == data[4..];
    assert Pack(MessageBits(data[4..][1..])) == 0 by { assert data[4..][1..] == []; PackNothing(); }
  }

  lemma PackNothing()
    ensures Pack(MessageBits([])) == 0
  {
  }

  lemma {:induction false} ShiftsOfZero(n: nat)
    ensures Shifts(0, n) == 0
  {
    if n > 0 { ShiftsOfZero(n - 1); }
  }

  /** Two messages that differ in 33 consecutive bits and share their checksum. */
  lemma ThirtyThreeBitsCanEscape()
    ensures BLANK != GENERATOR && Crc(BLANK) == Crc(GENERATOR)
    ensures forall i :: 33 <= i < 40 ==> MessageBits(BLANK)[i] == MessageBits(GENERATOR)[i]
  {
    assert GENERATOR[0] != BLANK[0];
    SameChecksum();
    LastSevenBits();
  }

  lemma LastSevenBits()
    ensures forall i :: 33 <= i < 40 ==> MessageBits(BLANK)[i] == MessageBits(GENERATOR)[i]
  {
    hide MessageBits, LowBits;
    LastByte(BLANK);
    LastByte(GENERATOR);
    ZeroAndOne();
    forall i | 33 <= i < 40 ensures MessageBits(BLANK)[i] == MessageBits(GENERATOR)[i] {
      assert MessageBits(BLANK)[i] == LowBits(0, 8)[i - 32];
      assert MessageBits(GENERATOR)[i] == LowBits(1, 8)[i - 32];
    }
  }

  lemma ZeroAndOne()
    ensures forall i :: 1 <= i < 8 ==> LowBits(0, 8)[i] == LowBits(1, 8)[i]
  {
    assert LowBits(1, 8) == [true] + LowBits(0, 7);
    assert LowBits(0, 8) == [false] + LowBits(0, 7);
  }

  lemma LastByte(data: seq<u8>)
    requires |data| == 5
    ensures MessageBits(data)[32..] == LowBits(data[4], 8)
  {
    hide LowBits;
    BitsInParts(data, 4, 4);
    assert data[4..][1..] == [];
  }

  lemma SameChecksum()
    ensures Crc(BLANK) == Crc(GENERATOR)
  {
    hide Shift, Shifts, Xor, Pack, Feed, MessageBits;
    PackFive(BLANK);
    PackFive(GENERATOR);
    var ones, g := 0xFFFF_FFFF, 0x1_DB71_0641;
    GeneratorVanishes();
    ShiftsOfZero(40);
    FeedIsShifts(ones, MessageBits(BLANK));
    FeedIsShifts(ones, MessageBits(GENERATOR));
    ShiftsLinear(ones, g, 40);
    ShiftsLinear(ones, 0, 40);
  }

  /** The register steps carry the generator to zero. */
  lemma GeneratorVanishes()
    ensures Shifts(0x1_DB71_0641, 40) == 0
  {
    hide Xor;
    var g := 0x1_DB71_0641;
    assert Shift(g) == 0 by { assert g / 2 == POLYNOMIAL; XorZero(POLYNOMIAL); }
    assert Shifts(g, 40) == Shifts(0, 39);
    ShiftsOfZero(39);
  }
}
