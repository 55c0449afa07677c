/** Executing the emitted bytes: what each instruction of the two thunks is, and the shared prologue. */
module ThunkSteps {
  import opened Bytes
  import opened Sequences
  import opened Pieces
  import opened Stepping
  import opened X86
  import opened X86Machine
  import opened Thunks

  /** The code of `pieces`, loaded somewhere. */
  predicate Loaded(img: Image, pieces: seq<seq<u8>>) {
    img.code == Flatten(pieces, |pieces|) && |img.code| < WORD
  }

  function ResolverInstr(k: nat, rva: u32, slot: u32, name: u32, pops: int): Instr
    requires k < 24 && rva + 6 < WORD
  {
    match k
    case 0 => Push(EBX)
    case 1 => CallRel(0)
    case 2 => Pop(EBX)
    case 3 => SubImm(EBX, rva + 6)
    case 4 => Load(EAX, Far(EBX, slot))
    case 5 => Test(EAX, EAX)
    case 6 => JmpIf(false, 41)
    case 7 => Lea(EAX, Far(EBX, STRINGS_RVA))
    case 8 => Push(EAX)
    case 9 => CallMem(Far(EBX, LOAD_LIBRARY_A_IAT_RVA))
    case 10 => Test(EAX, EAX)
    case 11 => JmpIf(true, 27)
    case 12 => Lea(ECX, Far(EBX, name))
    case 13 => Push(ECX)
    case 14 => Push(EAX)
    case 15 => CallMem(Far(EBX, GET_PROC_ADDRESS_IAT_RVA))
    case 16 => Test(EAX, EAX)
    case 17 => JmpIf(true, 9)
    case 18 => Store(Far(EBX, slot), EAX)
    case 19 => Pop(EBX)
    case 20 => JmpReg(EAX)
    case 21 => Pop(EBX)
    case 22 => Xor(EAX, EAX)
    case _ => RetPop(pops)
  }

  /** The emitted bytes are the encodings of these instructions. */
  lemma ResolverEncodes(k: nat, rva: u32, slot: u32, name: u32, pops: int)
    requires k < 24 && rva + 6 < WORD && Fits16(pops)
    ensures Encodable(ResolverInstr(k, rva, slot, name, pops))
    ensures Resolver(rva, slot, name, pops)[k] == Encode(ResolverInstr(k, rva, slot, name, pops))
  {
    hide ResolverPiece, Encode, Encodable, ResolverInstr, Packed;
    if k < 12 {
      LibraryPartEncodes(k, rva, slot, name, pops);
    } else {
      FunctionPartEncodes(k, rva, slot, name, pops);
    }
  }

  lemma LibraryPartEncodes(k: nat, rva: u32, slot: u32, name: u32, pops: int)
    requires k < 12 && rva + 6 < WORD && Fits16(pops)
    ensures Encodable(ResolverInstr(k, rva, slot, name, pops))
    ensures ResolverPiece(k, Packed(rva, slot, name, pops), 41, 27, 9)
      == Encode(ResolverInstr(k, rva, slot, name, pops))
  {
  }

  lemma FunctionPartEncodes(k: nat, rva: u32, slot: u32, name: u32, pops: int)
    requires 12 <= k < 24 && rva + 6 < WORD && Fits16(pops)
    ensures Encodable(ResolverInstr(k, rva, slot, name, pops))
    ensures ResolverPiece(k, Packed(rva, slot, name, pops), 41, 27, 9)
      == Encode(ResolverInstr(k, rva, slot, name, pops))
  {
    hide Le32;
  }

  function HookInstr(k: nat): Instr
    requires k < 13
  {
    match k
    case 0 => Push(EBX)
    case 1 => CallRel(0)
    case 2 => Pop(EBX)
    case 3 => SubImm(EBX, HOOK_RVA + 6)
    case 4 => CmpMem(Near(ESP, 0x0C), EXTENDED_LIMITS)
    case 5 => JmpIf(false, 15)
    case 6 => Load(EAX, Near(ESP, 0x10))
    case 7 => Test(EAX, EAX)
    case 8 => JmpIf(true, 7)
    case 9 => AndMem(Near(EAX, 0x10), WORD - 1 - KILL_ON_CLOSE)
    case 10 => Load(EAX, Far(EBX, JOB_SLOT_RVA))
    case 11 => Pop(EBX)
    case _ => JmpReg(EAX)
  }

  lemma HookEncodes(k: nat)
    requires k < 13
    ensures Encodable(HookInstr(k)) && Hook()[k] == Encode(HookInstr(k))
  {
  }

  /** The machine after `push ebx; call $+5; pop ebx; sub ebx, rva + 6` at load base `base`. */
  function AfterPrologue(c: Cpu, base: u32, origin: u32): Cpu {
    c.(ebx := base, esp := Add(c.esp, -4), eip := Add(origin, 13), zf := base == 0, called := false,
       mem := Store32(Store32(c.mem, Add(c.esp, -4), c.ebx), Add(c.esp, -8), Add(origin, 6)))
  }

  lemma BaseFromAnchor(base: u32, rva: u32)
    requires rva + 6 < WORD
    ensures Add(Add(Add(base, rva), 6), -(rva + 6)) == base
  {
    AddAdd(base, rva, 6);
    AddAdd(base, rva + 6, -(rva + 6));
    AddZero(base);
  }

  lemma PrologueEffect(c: Cpu, base: u32, rva: u32, c1: Cpu, c2: Cpu, c3: Cpu, c4: Cpu)
    requires rva + 6 < WORD
    requires var o := Add(base, rva);
      && c1 == Exec(c, Push(EBX), Add(o, 1)) && c2 == Exec(c1, CallRel(0), Add(o, 6))
      && c3 == Exec(c2, Pop(EBX), Add(o, 7)) && c4 == Exec(c3, SubImm(EBX, rva + 6), Add(o, 13))
    ensures c1.eip == Add(Add(base, rva), 1) && c2.eip == Add(Add(base, rva), 6) && c3.eip == Add(Add(base, rva), 7)
    ensures c4 == AfterPrologue(c, base, Add(base, rva))
  {
    hide Add, Load32, Store32;
    var o := Add(base, rva);
    AddZero(Add(o, 6));
    AddAdd(c.esp, -4, -4);
    AddAdd(c.esp, -8, 4);
    LoadStoreSame(c1.mem, Add(c.esp, -8), Add(o, 6));
    BaseFromAnchor(base, rva);
  }

  /** Wherever the code is loaded, the prologue leaves the load base in EBX and EBX itself on the stack. */
  lemma Prologue(img: Image, pieces: seq<seq<u8>>, base: u32, rva: u32, c: Cpu)
    requires Loaded(img, pieces) && |pieces| > 4 && rva + 6 < WORD && img.origin == Add(base, rva)
      && c.eip == img.origin
    requires pieces[0] == Encode(Push(EBX)) && pieces[1] == Encode(CallRel(0))
    requires pieces[2] == Encode(Pop(EBX)) && pieces[3] == Encode(SubImm(EBX, rva + 6))
    requires Start(pieces, 1) == 1 && Start(pieces, 2) == 6 && Start(pieces, 3) == 7 && Start(pieces, 4) == 13
    ensures Steps(Stepper(img), c, 4) == Some(AfterPrologue(c, base, img.origin))
  {
    hide Add, Exec, Encode, AfterPrologue;
    var o := img.origin;
    var c1 := Exec(c, Push(EBX), Add(o, 1));
    var c2 := Exec(c1, CallRel(0), Add(o, 6));
    var c3 := Exec(c2, Pop(EBX), Add(o, 7));
    var c4 := Exec(c3, SubImm(EBX, rva + 6), Add(o, 13));
    PrologueEffect(c, base, rva, c1, c2, c3, c4);
    AddZero(o);
    StepAt(img, pieces, 0, c, Push(EBX));
    StepAt(img, pieces, 1, c1, CallRel(0));
    StepAt(img, pieces, 2, c2, Pop(EBX));
    StepAt(img, pieces, 3, c3, SubImm(EBX, rva + 6));
    Four(Stepper(img), c, c1, c2, c3, c4);
  }
}
