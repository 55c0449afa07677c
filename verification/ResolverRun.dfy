/** The resolver, stretch by stretch: what each run of instructions does to the machine. */
module ResolverRun {
  import opened Bytes
  import opened Sequences
  import opened Pieces
  import opened Stepping
  import opened X86
  import opened X86Machine
  import opened Thunks
  import opened ThunkSteps

  /** A resolver, with the image it belongs to loaded at `base`. */
  datatype Site = Site(base: u32, rva: u32, slot: u32, name: u32, pops: int)

  predicate SiteOk(t: Site) {
    t.rva + 6 < WORD && Fits16(t.pops)
  }

  function Code(t: Site): seq<seq<u8>>
    requires SiteOk(t)
  {
    Resolver(t.rva, t.slot, t.name, t.pops)
  }

  function ImageOf(t: Site): Image
    requires SiteOk(t)
  {
    Image(Flatten(Code(t), 24), Add(t.base, t.rva))
  }

  /** The address of byte `offset` of the resolver. */
  function Here(t: Site, offset: nat): u32 {
    Add(Add(t.base, t.rva), offset)
  }

  const STARTS: seq<nat> :=
    [0, 1, 6, 7, 13, 19, 21, 23, 29, 30, 36, 38, 40, 46, 47, 48, 54, 56, 58, 64, 65, 67, 68, 70, 73]

  lemma ImageLoaded(t: Site)
    requires SiteOk(t)
    ensures Loaded(ImageOf(t), Code(t)) && |ImageOf(t).code| == 73
    ensures |Code(t)| == 24 && forall k :: 0 <= k <= 24 ==> Start(Code(t), k) == STARTS[k]
  {
    ResolverStarts(Packed(t.rva, t.slot, t.name, t.pops), 41, 27, 9);
  }

  /** At offset `STARTS[k]` the machine executes instruction `k`. */
  lemma At(t: Site, k: nat, c: Cpu)
    requires SiteOk(t) && k < 24 && c.eip == Here(t, STARTS[k])
    ensures Stepper(ImageOf(t))(c)
      == Some(Exec(c, ResolverInstr(k, t.rva, t.slot, t.name, t.pops), Here(t, STARTS[k + 1])))
  {
    ImageLoaded(t);
    ResolverEncodes(k, t.rva, t.slot, t.name, t.pops);
    StepAt(ImageOf(t), Code(t), k, c, ResolverInstr(k, t.rva, t.slot, t.name, t.pops));
  }

  lemma Jump(t: Site, from: nat, to: nat)
    ensures Add(Here(t, from), to - from) == Here(t, to)
  {
    AddAdd(Add(t.base, t.rva), from, to - from);
  }

  // ----- the stretches -----

  function SlotTested(t: Site, c: Cpu): Cpu {
    var v := Load32(c.mem, Add(c.ebx, t.slot));
    c.(called := false, eax := v, zf := v == 0, eip := if v == 0 then Here(t, 23) else Here(t, 64))
  }

  lemma TestSlot(t: Site, c: Cpu)
    requires SiteOk(t) && c.eip == Here(t, 13)
    ensures Steps(Stepper(ImageOf(t)), c, 3) == Some(SlotTested(t, c))
  {
    hide ImageOf, Stepper, Here, Exec, SlotTested;
    var c1, c2 := SlotInEax(t, c);
    At(t, 4, c);
    At(t, 5, c1);
    At(t, 6, c2);
    Three(Stepper(ImageOf(t)), c, c1, c2, SlotTested(t, c));
  }

  lemma SlotInEax(t: Site, c: Cpu) returns (c1: Cpu, c2: Cpu)
    requires SiteOk(t)
    ensures c1 == Exec(c, Load(EAX, Far(EBX, t.slot)), Here(t, 19)) && c1.eip == Here(t, 19)
    ensures c2 == Exec(c1, Test(EAX, EAX), Here(t, 21)) && c2.eip == Here(t, 21)
    ensures Exec(c2, JmpIf(false, 41), Here(t, 23)) == SlotTested(t, c)
  {
    hide ImageOf, Here, Add, Load32, Store32, And32, Xor32;
    c1 := Exec(c, Load(EAX, Far(EBX, t.slot)), Here(t, 19));
    c2 := Exec(c1, Test(EAX, EAX), Here(t, 21));
    TestSelf(c1.eax);
    Jump(t, 23, 64);
  }

  /** Control is at `LoadLibraryA`, with the library's name as its argument. */
  function LibraryCalled(t: Site, c: Cpu): Cpu {
    var name := Add(c.ebx, STRINGS_RVA);
    var m := Store32(c.mem, Add(c.esp, -4), name);
    c.(called := true, eax := name, esp := Add(c.esp, -8), eip := Load32(m, Add(c.ebx, LOAD_LIBRARY_A_IAT_RVA)),
       mem := Store32(m, Add(c.esp, -8), Here(t, 36)))
  }

  lemma CallLibrary(t: Site, c: Cpu)
    requires SiteOk(t) && c.eip == Here(t, 23)
    ensures Steps(Stepper(ImageOf(t)), c, 3) == Some(LibraryCalled(t, c))
  {
    hide ImageOf, Stepper, Here, Exec, LibraryCalled;
    var c1, c2 := LibraryArgument(t, c);
    At(t, 7, c);
    At(t, 8, c1);
    At(t, 9, c2);
    Three(Stepper(ImageOf(t)), c, c1, c2, LibraryCalled(t, c));
  }

  lemma LibraryArgument(t: Site, c: Cpu) returns (c1: Cpu, c2: Cpu)
    requires SiteOk(t)
    ensures c1 == Exec(c, Lea(EAX, Far(EBX, STRINGS_RVA)), Here(t, 29)) && c1.eip == Here(t, 29)
    ensures c2 == Exec(c1, Push(EAX), Here(t, 30)) && c2.eip == Here(t, 30)
    ensures Exec(c2, CallMem(Far(EBX, LOAD_LIBRARY_A_IAT_RVA)), Here(t, 36)) == LibraryCalled(t, c)
  {
    hide ImageOf, Here, Add, Load32, Store32, And32, Xor32;
    c1 := Exec(c, Lea(EAX, Far(EBX, STRINGS_RVA)), Here(t, 29));
    c2 := Exec(c1, Push(EAX), Here(t, 30));
    AddAdd(c.esp, -4, -4);
  }

  function AnswerTested(t: Site, c: Cpu, next: nat): Cpu {
    c.(called := false, zf := c.eax == 0, eip := if c.eax == 0 then Here(t, 67) else Here(t, next))
  }

  lemma TestLibrary(t: Site, c: Cpu)
    requires SiteOk(t) && c.eip == Here(t, 36)
    ensures Steps(Stepper(ImageOf(t)), c, 2) == Some(AnswerTested(t, c, 40))
  {
    hide ImageOf, Stepper, Here, Add, Load32, Store32, And32, Xor32;
    At(t, 10, c);
    var c1 := Exec(c, Test(EAX, EAX), Here(t, 38));
    At(t, 11, c1);
    TestSelf(c.eax);
    Jump(t, 40, 67);
    Two(Stepper(ImageOf(t)), c, c1, Exec(c1, JmpIf(true, 27), Here(t, 40)));
  }

  /** Control is at `GetProcAddress`, with the library and the function's name as its arguments. */
  function FunctionCalled(t: Site, c: Cpu): Cpu {
    var name := Add(c.ebx, t.name);
    var m := Store32(Store32(c.mem, Add(c.esp, -4), name), Add(c.esp, -8), c.eax);
    c.(called := true, ecx := name, esp := Add(c.esp, -12), eip := Load32(m, Add(c.ebx, GET_PROC_ADDRESS_IAT_RVA)),
       mem := Store32(m, Add(c.esp, -12), Here(t, 54)))
  }

  lemma CallFunction(t: Site, c: Cpu)
    requires SiteOk(t) && c.eip == Here(t, 40)
    ensures Steps(Stepper(ImageOf(t)), c, 4) == Some(FunctionCalled(t, c))
  {
    hide ImageOf, Stepper, Here, Exec, FunctionCalled;
    var c1, c2, c3 := FunctionArguments(t, c);
    At(t, 12, c);
    At(t, 13, c1);
    At(t, 14, c2);
    At(t, 15, c3);
    Four(Stepper(ImageOf(t)), c, c1, c2, c3, FunctionCalled(t, c));
  }

  lemma FunctionArguments(t: Site, c: Cpu) returns (c1: Cpu, c2: Cpu, c3: Cpu)
    requires SiteOk(t)
    ensures c1 == Exec(c, Lea(ECX, Far(EBX, t.name)), Here(t, 46)) && c1.eip == Here(t, 46)
    ensures c2 == Exec(c1, Push(ECX), Here(t, 47)) && c2.eip == Here(t, 47)
    ensures c3 == Exec(c2, Push(EAX), Here(t, 48)) && c3.eip == Here(t, 48)
    ensures Exec(c3, CallMem(Far(EBX, GET_PROC_ADDRESS_IAT_RVA)), Here(t, 54)) == FunctionCalled(t, c)
  {
    hide ImageOf, Here, Add, Load32, Store32, And32, Xor32;
    c1 := Exec(c, Lea(ECX, Far(EBX, t.name)), Here(t, 46));
    c2 := Exec(c1, Push(ECX), Here(t, 47));
    c3 := Exec(c2, Push(EAX), Here(t, 48));
    AddAdd(c.esp, -4, -4);
    AddAdd(c.esp, -8, -4);
  }

  lemma TestFunction(t: Site, c: Cpu)
    requires SiteOk(t) && c.eip == Here(t, 54)
    ensures Steps(Stepper(ImageOf(t)), c, 2) == Some(AnswerTested(t, c, 58))
  {
    hide ImageOf, Stepper, Here, Add, Load32, Store32, And32, Xor32;
    At(t, 16, c);
    var c1 := Exec(c, Test(EAX, EAX), Here(t, 56));
    At(t, 17, c1);
    TestSelf(c.eax);
    Jump(t, 58, 67);
    Two(Stepper(ImageOf(t)), c, c1, Exec(c1, JmpIf(true, 9), Here(t, 58)));
  }

  /** Gone to the function in EAX, with EBX and the stack as the caller left them. */
  function Forwarded(c: Cpu): Cpu {
    c.(called := false, ebx := Load32(c.mem, c.esp), esp := Add(c.esp, 4), eip := c.eax)
  }

  lemma Leave(t: Site, c: Cpu)
    requires SiteOk(t) && c.eip == Here(t, 64)
    ensures Steps(Stepper(ImageOf(t)), c, 2) == Some(Forwarded(c))
  {
    hide ImageOf, Stepper, Here, Add, Load32, Store32, And32, Xor32;
    At(t, 19, c);
    var c1 := Exec(c, Pop(EBX), Here(t, 65));
    At(t, 20, c1);
    Two(Stepper(ImageOf(t)), c, c1, Exec(c1, JmpReg(EAX), Here(t, 67)));
  }

  function Saved(t: Site, c: Cpu): Cpu {
    c.(called := false, mem := Store32(c.mem, Add(c.ebx, t.slot), c.eax), eip := Here(t, 64))
  }

  lemma SaveAndLeave(t: Site, c: Cpu)
    requires SiteOk(t) && c.eip == Here(t, 58)
    ensures Steps(Stepper(ImageOf(t)), c, 3) == Some(Forwarded(Saved(t, c)))
  {
    hide ImageOf, Stepper, Here, Add, Load32, Store32, And32, Xor32;
    At(t, 18, c);
    Leave(t, Saved(t, c));
  }

  /** Back at the caller with zero, the arguments popped. */
  function GivenUp(t: Site, c: Cpu): Cpu {
    c.(called := false, ebx := Load32(c.mem, c.esp), eax := 0, zf := true,
       eip := Load32(c.mem, Add(c.esp, 4)), esp := Add(c.esp, 8 + t.pops))
  }

  /** EBX popped back, and then zero in EAX. */
  function BaseRestored(t: Site, c: Cpu): Cpu {
    c.(called := false, ebx := Load32(c.mem, c.esp), esp := Add(c.esp, 4), eip := Here(t, 68))
  }

  function AnswerZeroed(t: Site, c: Cpu): Cpu {
    BaseRestored(t, c).(eax := 0, zf := true, eip := Here(t, 70))
  }

  lemma PopRestores(t: Site, c: Cpu)
    ensures Exec(c, Pop(EBX), Here(t, 68)) == BaseRestored(t, c)
  {
    hide Load32, Add, Here;
  }

  lemma XorZeroes(t: Site, c: Cpu)
    ensures Exec(BaseRestored(t, c), Xor(EAX, EAX), Here(t, 70)) == AnswerZeroed(t, c)
  {
    hide Load32, Add, Here, Xor32;
    XorSelf(c.eax);
  }

  lemma ReturnPops(t: Site, c: Cpu)
    requires Fits16(t.pops)
    ensures Exec(AnswerZeroed(t, c), RetPop(t.pops), Here(t, 73)) == GivenUp(t, c)
  {
    hide Load32, Add, Here;
    AddAdd(c.esp, 4, 4 + t.pops);
  }

  lemma GiveUp(t: Site, c: Cpu)
    requires SiteOk(t) && c.eip == Here(t, 67)
    ensures Steps(Stepper(ImageOf(t)), c, 3) == Some(GivenUp(t, c))
  {
    hide ImageOf, Stepper, Here, Exec, GivenUp, Load32, Add;
    PopRestores(t, c);
    XorZeroes(t, c);
    ReturnPops(t, c);
    At(t, 21, c);
    At(t, 22, BaseRestored(t, c));
    At(t, 23, AnswerZeroed(t, c));
    Three(Stepper(ImageOf(t)), c, BaseRestored(t, c), AnswerZeroed(t, c), GivenUp(t, c));
  }

  lemma CodeOfPrologue(t: Site)
    requires SiteOk(t)
    ensures var p := Code(t);
      && |p| == 24 && p[0] == Encode(Push(EBX)) && p[1] == Encode(CallRel(0)) && p[2] == Encode(Pop(EBX))
      && p[3] == Encode(SubImm(EBX, t.rva + 6))
      && Start(p, 1) == 1 && Start(p, 2) == 6 && Start(p, 3) == 7 && Start(p, 4) == 13
  {
    hide Encode;
    ImageLoaded(t);
    ResolverEncodes(0, t.rva, t.slot, t.name, t.pops);
    ResolverEncodes(1, t.rva, t.slot, t.name, t.pops);
    ResolverEncodes(2, t.rva, t.slot, t.name, t.pops);
    ResolverEncodes(3, t.rva, t.slot, t.name, t.pops);
  }

  lemma Enter(t: Site, c: Cpu)
    requires SiteOk(t) && c.eip == Here(t, 0)
    ensures Steps(Stepper(ImageOf(t)), c, 4) == Some(AfterPrologue(c, t.base, Add(t.base, t.rva)))
  {
    hide Add, Encode, AfterPrologue, Start, Code, Loaded;
    ImageLoaded(t);
    CodeOfPrologue(t);
    AddZero(Add(t.base, t.rva));
    Prologue(ImageOf(t), Code(t), t.base, t.rva, c);
  }
}
