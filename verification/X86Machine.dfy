/** Executing the subset: one step, several steps inside a piece of code, and calls out of it. */
module X86Machine {
  import opened Bits
  import opened Bytes
  import opened Sequences
  import opened Pieces
  import opened Stepping
  import opened X86

  // ----- bitwise operations -----

  function And32(a: u32, b: u32): u32 {
    And(a, b)
  }

  function Xor32(a: u32, b: u32): u32 {
    Pow2Table();
    XorBelow(a, b, 32);
    Bits.Xor(a, b)
  }

  // ----- one instruction -----

  datatype Cpu = Cpu(
    eax: u32, ecx: u32, edx: u32, ebx: u32, esp: u32, ebp: u32, esi: u32, edi: u32,
    eip: u32, zf: bool, mem: Memory,
    called: bool)   // the last instruction was a call

  function Get(c: Cpu, r: Reg): u32 {
    match r
    case EAX => c.eax case ECX => c.ecx case EDX => c.edx case EBX => c.ebx
    case ESP => c.esp case EBP => c.ebp case ESI => c.esi case EDI => c.edi
  }

  function Put(c: Cpu, r: Reg, v: u32): Cpu {
    match r
    case EAX => c.(eax := v) case ECX => c.(ecx := v) case EDX => c.(edx := v) case EBX => c.(ebx := v)
    case ESP => c.(esp := v) case EBP => c.(ebp := v) case ESI => c.(esi := v) case EDI => c.(edi := v)
  }

  function Address(c: Cpu, m: Operand): u32 {
    match m
    case Far(base, disp) => Add(Get(c, base), disp)
    case Near(base, byte) => Add(Get(c, base), Signed8(byte))
  }

  function PushWord(c: Cpu, v: u32): Cpu {
    var top := Add(c.esp, -4);
    c.(esp := top, mem := Store32(c.mem, top, v))
  }

  /** `next` is the address of the instruction after this one. */
  function Exec(c: Cpu, i: Instr, next: u32): Cpu {
    var c1 := c.(eip := next, called := false);
    match i
    case Push(r) => PushWord(c1, Get(c, r))
    case Pop(r) => Put(c1.(esp := Add(c.esp, 4)), r, Load32(c.mem, c.esp))
    case CallRel(d) => PushWord(c1, next).(eip := Add(next, Signed32(d)), called := true)
    case JmpRel(d) => c1.(eip := Add(next, Signed32(d)))
    case JmpIf(zero, d) => if c.zf == zero then c1.(eip := Add(next, Signed8(d))) else c1
    case JmpReg(r) => c1.(eip := Get(c, r))
    case CallMem(m) => PushWord(c1, next).(eip := Load32(c.mem, Address(c, m)), called := true)
    case RetPop(n) => c1.(eip := Load32(c.mem, c.esp), esp := Add(c.esp, 4 + n))
    case Load(r, m) => Put(c1, r, Load32(c.mem, Address(c, m)))
    case Store(m, r) => c1.(mem := Store32(c.mem, Address(c, m), Get(c, r)))
    case Lea(r, m) => Put(c1, r, Address(c, m))
    case Test(a, b) => c1.(zf := And32(Get(c, a), Get(c, b)) == 0)
    case Xor(a, b) =>
      var v := Xor32(Get(c, a), Get(c, b));
      Put(c1, a, v).(zf := v == 0)
    case SubImm(r, v) =>
      var d := Add(Get(c, r), -(v as int));
      Put(c1, r, d).(zf := d == 0)
    case CmpMem(m, v) => c1.(zf := Load32(c.mem, Address(c, m)) == Add(0, Signed8(v)))
    case AndMem(m, v) =>
      var w := And32(Load32(c.mem, Address(c, m)), v);
      c1.(mem := Store32(c.mem, Address(c, m), w), zf := w == 0)
    case Nop => c1
  }

  lemma TestSelf(v: u32)
    ensures And32(v, v) == v
  {
    AndSelf(v);
  }

  lemma XorSelf(v: u32)
    ensures Xor32(v, v) == 0
  {
    XorZero(v);
  }

  // ----- a piece of code at an address -----

  datatype Image = Image(code: seq<u8>, origin: u32)

  predicate Inside(img: Image, eip: u32) {
    Distance(img.origin, eip) < |img.code|
  }

  function Fetch(img: Image, eip: u32): Option<Decoded> {
    if Inside(img, eip) then Decode(img.code[Distance(img.origin, eip)..]) else None
  }

  function Step(img: Image, c: Cpu): Option<Cpu> {
    match Fetch(img, c.eip)
    case None => None
    case Some(d) => Some(Exec(c, d.instr, Add(c.eip, d.length)))
  }

  function Stepper(img: Image): Cpu -> Option<Cpu> {
    c => Step(img, c)
  }

  /** A state that left the code by a call, and so will come back. */
  predicate CallsOut(img: Image, c: Cpu) {
    !Inside(img, c.eip) && c.called
  }

  /** Runs the code from `c`; `env` answers the calls out of it. */
  function Execute(img: Image, env: Cpu -> Cpu, c: Cpu, fuel: nat): Option<Exit<Cpu>> {
    Run(Stepper(img), (x: Cpu) => !Inside(img, x.eip), (x: Cpu) => CallsOut(img, x), env, c, fuel)
  }

  // ----- code put together from pieces -----

  lemma NextAt(origin: u32, pieces: seq<seq<u8>>, k: nat)
    requires k < |pieces|
    ensures Add(Add(origin, Start(pieces, k)), |pieces[k]|) == Add(origin, Start(pieces, k + 1))
  {
    AddAdd(origin, Start(pieces, k), |pieces[k]|);
  }

  lemma FetchAt(img: Image, pieces: seq<seq<u8>>, k: nat, eip: u32, i: Instr)
    requires img.code == Flatten(pieces, |pieces|) && |img.code| < WORD && k < |pieces|
    requires Encodable(i) && pieces[k] == Encode(i) && eip == Add(img.origin, Start(pieces, k))
    ensures Fetch(img, eip) == Some(Decoded(i, |pieces[k]|))
  {
    PieceAt(pieces, |pieces|, k);
    DistanceOf(img.origin, Start(pieces, k));
    DecodeEncode(i, img.code[Start(pieces, k + 1)..]);
  }

  /** Where piece `k` starts, and piece `k` is the encoding of `i`, the machine executes `i`. */
  lemma StepAt(img: Image, pieces: seq<seq<u8>>, k: nat, c: Cpu, i: Instr)
    requires img.code == Flatten(pieces, |pieces|) && |img.code| < WORD && k < |pieces|
    requires Encodable(i) && pieces[k] == Encode(i) && c.eip == Add(img.origin, Start(pieces, k))
    ensures Stepper(img)(c) == Some(Exec(c, i, Add(img.origin, Start(pieces, k + 1))))
  {
    FetchAt(img, pieces, k, c.eip, i);
    NextAt(img.origin, pieces, k);
  }
}
