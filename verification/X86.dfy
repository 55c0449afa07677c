/**
 The part of the 32-bit x86 instruction set that the emitted thunks use: byte encoding,
 registers and addresses modulo 2^32, and a flat byte memory.
*/
module X86 {
  import opened Bytes
  import opened Sequences

  // ----- arithmetic modulo 2^32 -----

  function Add(a: u32, d: int): u32 {
    (a + d) % WORD
  }

  lemma AddAdd(a: u32, x: int, y: int)
    ensures Add(Add(a, x), y) == Add(a, x + y)
  {
  }

  lemma AddZero(a: u32)
    ensures Add(a, 0) == a
  {
  }

  /** Two different offsets of less than 2^32 never meet. */
  lemma AddInjective(a: u32, x: int, y: int)
    requires -WORD < x - y < WORD
    ensures Add(a, x) == Add(a, y) <==> x == y
  {
  }

  /** How far past `a` the address `b` lies, going up and around. */
  function Distance(a: u32, b: u32): (d: int)
    ensures 0 <= d < WORD && Add(a, d) == b
  {
    (b as int - a as int) % WORD
  }

  lemma DistanceAdd(a: u32, b: u32, k: int)
    ensures Distance(a, Add(b, k)) == (Distance(a, b) + k) % WORD
  {
    var s, q := (b + k) / WORD, (b as int - a as int) / WORD;
    assert Add(b, k) == b + k - s * WORD && Distance(a, b) == b - a - q * WORD;
    ModShift(Distance(a, b) + k, q - s);
  }

  lemma ModShift(x: int, m: int)
    ensures (x + m * WORD) % WORD == x % WORD
  {
  }

  /** A displacement byte is signed. */
  function Signed8(b: u8): int {
    if b < 0x80 then b else b - 0x100
  }

  function Signed32(v: u32): int {
    if v < 0x8000_0000 then v else v - WORD
  }

  // ----- memory -----

  type Memory = map<u32, u8>

  function Byte(m: Memory, a: u32): u8 {
    if a in m then m[a] else 0
  }

  function Load32(m: Memory, a: u32): u32 {
    WordAt([Byte(m, a), Byte(m, Add(a, 1)), Byte(m, Add(a, 2)), Byte(m, Add(a, 3))], 0)
  }

  function Store32(m: Memory, a: u32, v: u32): Memory {
    m[a := Le32(v)[0]][Add(a, 1) := Le32(v)[1]][Add(a, 2) := Le32(v)[2]][Add(a, 3) := Le32(v)[3]]
  }

  /** The four-byte words at `a` and `b` share no byte. */
  predicate Apart(a: u32, b: u32) {
    4 <= Distance(a, b) <= WORD - 4
  }

  /** `x` is one of the `n` bytes that start at `a`. */
  predicate Within(x: u32, a: u32, n: int) {
    Distance(a, x) < n
  }

  lemma StoreByte(m: Memory, a: u32, v: u32, x: u32)
    requires !Within(x, a, 4)
    ensures Byte(Store32(m, a, v), x) == Byte(m, x)
  {
    forall k | 0 <= k < 4 ensures x != Add(a, k) { DistanceOf(a, k); }
  }

  lemma DistanceOf(a: u32, k: nat)
    requires k < WORD
    ensures Distance(a, Add(a, k)) == k
  {
  }

  lemma LoadStoreSame(m: Memory, a: u32, v: u32)
    ensures Load32(Store32(m, a, v), a) == v
  {
    AddInjective(a, 0, 1);
    AddInjective(a, 0, 2);
    AddInjective(a, 0, 3);
    AddInjective(a, 1, 2);
    AddInjective(a, 1, 3);
    AddInjective(a, 2, 3);
    AddZero(a);
    WordLe32(v);
  }

  lemma ApartWithin(a: u32, b: u32, k: int)
    requires Apart(a, b) && 0 <= k < 4
    ensures !Within(Add(b, k), a, 4)
  {
    DistanceAdd(a, b, k);
  }

  lemma LoadStoreApart(m: Memory, a: u32, v: u32, b: u32)
    requires Apart(a, b)
    ensures Load32(Store32(m, a, v), b) == Load32(m, b)
  {
    forall k | 0 <= k < 4 ensures Byte(Store32(m, a, v), Add(b, k)) == Byte(m, Add(b, k)) {
      ApartWithin(a, b, k);
      StoreByte(m, a, v, Add(b, k));
    }
    LoadSameBytes(Store32(m, a, v), m, b);
  }

  lemma LoadSameBytes(m: Memory, n: Memory, a: u32)
    requires forall k :: 0 <= k < 4 ==> Byte(m, Add(a, k)) == Byte(n, Add(a, k))
    ensures Load32(m, a) == Load32(n, a)
  {
    assert Byte(m, Add(a, 0)) == Byte(n, Add(a, 0));
  }

  /** Nothing but the `length` bytes from `start` differs. */
  predicate SameOutside(m: Memory, n: Memory, start: u32, length: int) {
    forall a :: !Within(a, start, length) ==> Byte(m, a) == Byte(n, a)
  }

  lemma OffsetsApart(a: u32, x: int, y: int)
    requires x + 4 <= y <= x + 0x1000
    ensures Apart(Add(a, x), Add(a, y))
  {
    AddAdd(a, x, y - x);
    DistanceOf(Add(a, x), y - x);
  }

  lemma DistanceBack(a: u32, b: u32)
    ensures Distance(a, b) > 0 ==> Distance(b, a) == WORD - Distance(a, b)
    ensures Distance(a, a) == 0 && Add(a, 0) == a
  {
  }

  lemma ApartSym(a: u32, b: u32)
    requires Apart(a, b)
    ensures Apart(b, a)
  {
    DistanceBack(a, b);
  }

  lemma PushesStayBelow(m: Memory, esp: u32, v: u32, w: u32)
    ensures SameOutside(m, Store32(Store32(m, Add(esp, -4), v), Add(esp, -8), w), Add(esp, -8), 8)
  {
    hide Load32, Store32, Add;
    var m1 := Store32(m, Add(esp, -4), v);
    forall a | !Within(a, Add(esp, -8), 8) ensures Byte(Store32(m1, Add(esp, -8), w), a) == Byte(m, a) {
      OutsideBoth(esp, a);
      StoreByte(m, Add(esp, -4), v, a);
      StoreByte(m1, Add(esp, -8), w, a);
    }
  }

  lemma OutsideBoth(esp: u32, a: u32)
    requires !Within(a, Add(esp, -8), 8)
    ensures !Within(a, Add(esp, -4), 4) && !Within(a, Add(esp, -8), 4)
  {
    AddAdd(esp, -8, 4);
    DistanceAdd(Add(esp, -4), Add(esp, -8), 4);
    OutsideUpper(Add(esp, -8), a);
  }

  lemma OutsideUpper(b: u32, a: u32)
    requires !Within(a, b, 8)
    ensures !Within(a, Add(b, 4), 4)
  {
  }

  // ----- instructions -----

  datatype Reg = EAX | ECX | EDX | EBX | ESP | EBP | ESI | EDI

  function Number(r: Reg): (n: int)
    ensures 0 <= n < 8
  {
    match r
    case EAX => 0 case ECX => 1 case EDX => 2 case EBX => 3
    case ESP => 4 case EBP => 5 case ESI => 6 case EDI => 7
  }

  function RegOf(n: int): Reg
    requires 0 <= n < 8
  {
    if n == 0 then EAX else if n == 1 then ECX else if n == 2 then EDX else if n == 3 then EBX
    else if n == 4 then ESP else if n == 5 then EBP else if n == 6 then ESI else EDI
  }

  /** A memory operand: a 32-bit displacement from a register, or a signed byte from one. */
  datatype Operand = Far(base: Reg, disp: u32) | Near(base: Reg, byte: u8)

  datatype Instr =
    | Push(r: Reg)
    | Pop(r: Reg)
    | CallRel(disp: u32)
    | JmpRel(disp: u32)
    | JmpIf(zero: bool, short: u8)
    | JmpReg(r: Reg)
    | CallMem(m: Operand)
    | RetPop(bytes: int)
    | Load(dst: Reg, m: Operand)
    | Store(m: Operand, src: Reg)
    | Lea(dst: Reg, m: Operand)
    | Test(a: Reg, b: Reg)
    | Xor(a: Reg, b: Reg)
    | SubImm(r: Reg, imm: u32)
    | CmpMem(m: Operand, small: u8)
    | AndMem(m: Operand, imm: u32)
    | Nop

  /** Far operands are based on anything but ESP; near ones on ESP take the extra base byte. */
  predicate Encodable(i: Instr) {
    match i
    case CallMem(m) => OperandOk(m)
    case Load(_, m) => OperandOk(m)
    case Store(m, _) => OperandOk(m)
    case Lea(_, m) => OperandOk(m)
    case CmpMem(m, _) => OperandOk(m)
    case AndMem(m, _) => OperandOk(m)
    case RetPop(n) => 0 <= n < 0x1_0000
    case _ => true
  }

  predicate OperandOk(m: Operand) { m.Near? || m.base != ESP }

  /** ModRM with the register or opcode extension `ext`, then what the operand needs. */
  function EncodeOperand(ext: int, m: Operand): (b: seq<u8>)
    requires 0 <= ext < 8
    ensures |b| >= 2
  {
    match m
    case Far(base, disp) => [0x80 + 8 * ext + Number(base)] + Le32(disp)
    case Near(base, byte) =>
      if base == ESP then [0x40 + 8 * ext + 4, 0x24, byte] else [0x40 + 8 * ext + Number(base), byte]
  }

  function Encode(i: Instr): (b: seq<u8>)
    requires Encodable(i)
    ensures |b| >= 1
  {
    match i
    case Push(r) => [0x50 + Number(r)]
    case Pop(r) => [0x58 + Number(r)]
    case CallRel(d) => [0xE8] + Le32(d)
    case JmpRel(d) => [0xE9] + Le32(d)
    case JmpIf(zero, d) => [if zero then 0x74 else 0x75, d]
    case JmpReg(r) => [0xFF, 0xE0 + Number(r)]
    case CallMem(m) => [0xFF] + EncodeOperand(2, m)
    case RetPop(n) => [0xC2, n % 0x100, n / 0x100]
    case Load(r, m) => [0x8B] + EncodeOperand(Number(r), m)
    case Store(m, r) => [0x89] + EncodeOperand(Number(r), m)
    case Lea(r, m) => [0x8D] + EncodeOperand(Number(r), m)
    case Test(a, b) => [0x85, 0xC0 + 8 * Number(b) + Number(a)]
    case Xor(a, b) => [0x31, 0xC0 + 8 * Number(b) + Number(a)]
    case SubImm(r, v) => [0x81, 0xE8 + Number(r)] + Le32(v)
    case CmpMem(m, v) => [0x83] + EncodeOperand(7, m) + [v]
    case AndMem(m, v) => [0x81] + EncodeOperand(4, m) + Le32(v)
    case Nop => [0x90]
  }

  datatype Decoded = Decoded(instr: Instr, length: nat)
  datatype DecodedOperand = DecodedOperand(operand: Operand, length: nat)

  /** The operand whose ModRM byte comes first in `s`. */
  function DecodeOperand(s: seq<u8>): (r: Option<DecodedOperand>)
    ensures r.Some? ==> 2 <= r.value.length <= |s|
  {
    if |s| == 0 then None
    else
      var mode, rm := s[0] / 0x40, s[0] % 8;
      if mode == 2 && rm != 4 && |s| >= 5 then Some(DecodedOperand(Far(RegOf(rm), WordAt(s, 1)), 5))
      else if mode == 1 && rm != 4 && |s| >= 2 then Some(DecodedOperand(Near(RegOf(rm), s[1]), 2))
      else if mode == 1 && rm == 4 && |s| >= 3 && s[1] == 0x24 then Some(DecodedOperand(Near(ESP, s[2]), 3))
      else None
  }

  /** The instruction whose first byte comes first in `s`. */
  function Decode(s: seq<u8>): Option<Decoded> {
    if |s| == 0 then None
    else
      var op := s[0];
      if 0x50 <= op < 0x58 then Some(Decoded(Push(RegOf(op - 0x50)), 1))
      else if 0x58 <= op < 0x60 then Some(Decoded(Pop(RegOf(op - 0x58)), 1))
      else if op == 0x90 then Some(Decoded(Nop, 1))
      else if op == 0xE8 && |s| >= 5 then Some(Decoded(CallRel(WordAt(s, 1)), 5))
      else if op == 0xE9 && |s| >= 5 then Some(Decoded(JmpRel(WordAt(s, 1)), 5))
      else if (op == 0x74 || op == 0x75) && |s| >= 2 then Some(Decoded(JmpIf(op == 0x74, s[1]), 2))
      else if op == 0xC2 && |s| >= 3 then Some(Decoded(RetPop(s[1] as int + 0x100 * s[2] as int), 3))
      else if |s| >= 2 then DecodeModRM(op, s)
      else None
  }

  function DecodeModRM(op: u8, s: seq<u8>): Option<Decoded>
    requires |s| >= 2
  {
    var modrm := s[1];
    var ext, rm := modrm / 8 % 8, modrm % 8;
    if modrm >= 0xC0 then
      if op == 0x85 then Some(Decoded(Test(RegOf(rm), RegOf(ext)), 2))
      else if op == 0x31 then Some(Decoded(Xor(RegOf(rm), RegOf(ext)), 2))
      else if op == 0xFF && ext == 4 then Some(Decoded(JmpReg(RegOf(rm)), 2))
      else if op == 0x81 && ext == 5 && |s| >= 6 then Some(Decoded(SubImm(RegOf(rm), WordAt(s, 2)), 6))
      else None
    else
      match DecodeOperand(s[1..])
      case None => None
      case Some(d) =>
        var n := 1 + d.length;
        if op == 0x8B then Some(Decoded(Load(RegOf(ext), d.operand), n))
        else if op == 0x89 then Some(Decoded(Store(d.operand, RegOf(ext)), n))
        else if op == 0x8D then Some(Decoded(Lea(RegOf(ext), d.operand), n))
        else if op == 0xFF && ext == 2 then Some(Decoded(CallMem(d.operand), n))
        else if op == 0x83 && ext == 7 && |s| >= n + 1 then Some(Decoded(CmpMem(d.operand, s[n]), n + 1))
        else if op == 0x81 && ext == 4 && |s| >= n + 4 then Some(Decoded(AndMem(d.operand, WordAt(s, n)), n + 4))
        else None
  }

  lemma RegOfNumber(r: Reg)
    ensures RegOf(Number(r)) == r
  {
  }

  lemma OperandRoundTrip(ext: int, m: Operand, rest: seq<u8>)
    requires 0 <= ext < 8 && OperandOk(m)
    ensures DecodeOperand(EncodeOperand(ext, m) + rest) == Some(DecodedOperand(m, |EncodeOperand(ext, m)|))
    ensures EncodeOperand(ext, m)[0] / 8 % 8 == ext && EncodeOperand(ext, m)[0] < 0xC0
  {
    RegOfNumber(m.base);
    if m.Far? { FarRoundTrip(ext, m, rest); }
  }

  lemma FarRoundTrip(ext: int, m: Operand, rest: seq<u8>)
    requires 0 <= ext < 8 && OperandOk(m) && m.Far?
    ensures DecodeOperand(EncodeOperand(ext, m) + rest) == Some(DecodedOperand(m, |EncodeOperand(ext, m)|))
  {
    RegOfNumber(m.base);
    hide Le32, WordAt;
    WordAtLe32(EncodeOperand(ext, m) + rest, 1, m.disp);
  }

  /** The bytes of an instruction with a memory operand, as the decoder takes them apart. */
  lemma ModRMRoundTrip(op: u8, ext: int, m: Operand, rest: seq<u8>)
    requires 0 <= ext < 8 && OperandOk(m)
    ensures var s := [op] + EncodeOperand(ext, m) + rest;
      s[0] == op && s[1] / 8 % 8 == ext && s[1] < 0xC0 &&
      DecodeOperand(s[1..]) == Some(DecodedOperand(m, |EncodeOperand(ext, m)|))
  {
    OperandRoundTrip(ext, m, rest);
    assert ([op] + EncodeOperand(ext, m) + rest)[1..] == EncodeOperand(ext, m) + rest;
  }

  lemma DecodeEncodeMove(i: Instr, rest: seq<u8>)
    requires Encodable(i) && (i.CallMem? || i.Load? || i.Store? || i.Lea?)
    ensures Decode(Encode(i) + rest) == Some(Decoded(i, |Encode(i)|))
  {
    match i
    case CallMem(m) => ModRMRoundTrip(0xFF, 2, m, rest);
    case Load(r, m) => RegOfNumber(r); ModRMRoundTrip(0x8B, Number(r), m, rest);
    case Store(m, r) => RegOfNumber(r); ModRMRoundTrip(0x89, Number(r), m, rest);
    case Lea(r, m) => RegOfNumber(r); ModRMRoundTrip(0x8D, Number(r), m, rest);
  }

  lemma DecodeEncodeCompare(i: Instr, rest: seq<u8>)
    requires Encodable(i) && i.CmpMem?
    ensures Decode(Encode(i) + rest) == Some(Decoded(i, |Encode(i)|))
  {
    hide DecodeOperand, EncodeOperand;
    var s := Encode(i) + rest;
    ModRMRoundTrip(0x83, 7, i.m, [i.small] + rest);
    assert s == [0x83] + EncodeOperand(7, i.m) + ([i.small] + rest);
  }

  lemma DecodeEncodeImmediate(i: Instr, rest: seq<u8>)
    requires Encodable(i) && i.AndMem?
    ensures Decode(Encode(i) + rest) == Some(Decoded(i, |Encode(i)|))
  {
    hide DecodeOperand, EncodeOperand, Le32, WordAt;
    var s := Encode(i) + rest;
    ModRMRoundTrip(0x81, 4, i.m, Le32(i.imm) + rest);
    assert s == [0x81] + EncodeOperand(4, i.m) + (Le32(i.imm) + rest);
    var n := 1 + |EncodeOperand(4, i.m)|;
    assert s[n..n + 4] == Le32(i.imm);
    WordAtLe32(s, n, i.imm);
  }

  lemma DecodeEncodeOneRegister(i: Instr, rest: seq<u8>)
    requires i.Push? || i.Pop? || i.JmpReg?
    ensures Decode(Encode(i) + rest) == Some(Decoded(i, |Encode(i)|))
  {
    RegOfNumber(i.r);
  }

  lemma ModRMRegisters(a: int, b: int)
    requires 0 <= a < 8 && 0 <= b < 8
    ensures var modrm := 0xC0 + 8 * b + a; modrm / 8 % 8 == b && modrm % 8 == a && 0xC0 <= modrm < 0x100
  {
  }

  lemma DecodeEncodeTwoRegisters(i: Instr, rest: seq<u8>)
    requires i.Test? || i.Xor?
    ensures Decode(Encode(i) + rest) == Some(Decoded(i, |Encode(i)|))
  {
    hide Number, RegOf;
    RegOfNumber(i.a);
    RegOfNumber(i.b);
    ModRMRegisters(Number(i.a), Number(i.b));
  }

  /** What the encoder writes, the decoder reads, whatever follows. */
  lemma DecodeEncode(i: Instr, rest: seq<u8>)
    requires Encodable(i)
    ensures Decode(Encode(i) + rest) == Some(Decoded(i, |Encode(i)|))
  {
    var s := Encode(i) + rest;
    if i.Push? || i.Pop? || i.JmpReg? {
      DecodeEncodeOneRegister(i, rest);
    } else if i.Test? || i.Xor? {
      DecodeEncodeTwoRegisters(i, rest);
    } else if i.CmpMem? {
      DecodeEncodeCompare(i, rest);
    } else if i.AndMem? {
      DecodeEncodeImmediate(i, rest);
    } else if i.CallMem? || i.Load? || i.Store? || i.Lea? {
      DecodeEncodeMove(i, rest);
    } else if i.SubImm? {
      RegOfNumber(i.r);
      WordAtLe32(s, 2, i.imm);
    } else if i.CallRel? || i.JmpRel? {
      WordAtLe32(s, 1, i.disp);
    }
  }
}
