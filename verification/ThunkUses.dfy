/** The uses the thunk theorems speak of exist: states to enter in, and environments that answer. */
module ThunkUses {
  import opened Bytes
  import opened Pieces
  import opened X86
  import opened X86Machine
  import opened Thunks
  import opened ResolverRun
  import opened ResolverProof
  import HookProof

  /** Both calls answered, with `library` and then `function`. */
  function Answering(t: Site, outside: u32, library: u32, function_: u32): Cpu -> Cpu {
    (d: Cpu) =>
      var first := Load32(d.mem, d.esp) == Here(t, 36);
      d.(called := false, eip := Load32(d.mem, d.esp), esp := Add(d.esp, if first then 8 else 12),
         eax := if first then library else function_, mem := Store32(d.mem, FunctionCell(t), outside))
  }

  /** Whatever state the resolver is entered in, its calls can be answered with any two outside values. */
  lemma EveryUseCanBeAnswered(t: Site, c: Cpu, live: nat, library: u32, function_: u32)
    requires Entered(t, c, live)
    requires library != 0 ==> !Inside(ImageOf(t), library)
    requires function_ != 0 ==> !Inside(ImageOf(t), function_)
    ensures Answers(t, Answering(t, Load32(c.mem, c.esp), library, function_), c, live)
  {
    hide ImageOf, Load32, Store32, Here, Returns, SameStack, Add;
    var outside := Load32(c.mem, c.esp);
    var env := Answering(t, outside, library, function_);
    HereDiffers(t);
    forall d
      ensures CallingOut(t, c, d, live, 4, Here(t, 36)) ==> AnswersAs(t, d, env(d), live, 4)
      ensures CallingOut(t, c, d, live, 8, Here(t, 54)) ==> AnswersAs(t, d, env(d), live, 8)
    {
      LoadStoreSame(d.mem, FunctionCell(t), outside);
      if CallingOut(t, c, d, live, 4, Here(t, 36)) { ReturnsClear(t, c, d, env(d), live, 4, Here(t, 36), outside); }
      if CallingOut(t, c, d, live, 8, Here(t, 54)) { ReturnsClear(t, c, d, env(d), live, 8, Here(t, 54), outside); }
    }
  }

  lemma ReturnsClear(t: Site, c: Cpu, d: Cpu, r: Cpu, live: nat, pops: nat, back: u32, v: u32)
    requires Entered(t, c, live) && CallingOut(t, c, d, live, pops, back)
    requires r.eip == back && r.esp == Add(d.esp, 4 + pops) && r.mem == Store32(d.mem, FunctionCell(t), v)
    requires r.ebx == d.ebx && r.ebp == d.ebp && r.esi == d.esi && r.edi == d.edi
    ensures Returns(d, r, pops, live + 4)
  {
    hide Load32, Store32, Add, Here, ImageOf;
    AddAdd(c.esp, -(8 + pops), 4 + pops);
    forall k | 0 <= k < live + 4 ensures Byte(d.mem, Add(r.esp, k)) == Byte(r.mem, Add(r.esp, k)) {
      AddAdd(c.esp, -4, k);
      assert !Within(Add(c.esp, k - 4), FunctionCell(t), 4);
      StoreByte(d.mem, FunctionCell(t), v, Add(r.esp, k));
    }
  }

  lemma LoadNothing(a: u32)
    ensures Load32(map[], a) == 0
  {
  }

  lemma ClearBelow(esp: u32, live: nat, cell: u32)
    requires 16 <= esp && esp + live <= cell <= WORD - 4
    ensures Clear(esp, live, cell)
  {
    forall k | -16 <= k < live ensures !Within(Add(esp, k), cell, 4) {
      assert Add(esp, k) == esp + k;
    }
  }

  lemma AddSmall(a: u32, d: nat)
    requires a + d < WORD
    ensures Add(a, d) == a + d
  {
  }

  /** Nothing that ends below the top of the address space holds address 0. */
  lemma NotAtZero(img: Image)
    requires 0 < img.origin && img.origin + |img.code| <= WORD
    ensures !Inside(img, 0)
  {
  }

  /** At every base that leaves room below and above, each resolver can be entered, with an empty slot. */
  lemma ResolverCanBeEntered(t: Site) returns (c: Cpu)
    requires SiteOk(t) && 0x1_1000 <= t.base && t.base + t.rva + 73 <= WORD
    requires t.base + t.slot <= WORD - 4 && t.base + LOAD_LIBRARY_A_IAT_RVA <= WORD - 4
    ensures Entered(t, c, 4 + t.pops)
  {
    hide ImageOf, Load32, Here, Clear, Add, Code, Start, Inside;
    ImageLoaded(t);
    ImageOrigin(t);
    AddSmall(t.base, t.rva);
    AddSmall(t.base, t.slot);
    AddSmall(t.base, LOAD_LIBRARY_A_IAT_RVA);
    AddSmall(t.base, GET_PROC_ADDRESS_IAT_RVA);
    NotAtZero(ImageOf(t));
    c := Cpu(0, 0, 0, 0, 16, 0, 0, 0, Here(t, 0), false, map[], false);
    ClearBelow(c.esp, 4 + t.pops, Slot(t));
    ClearBelow(c.esp, 4 + t.pops, LibraryCell(t));
    ClearBelow(c.esp, 4 + t.pops, FunctionCell(t));
    LoadNothing(c.esp);
    LoadNothing(Slot(t));
    LoadNothing(LibraryCell(t));
  }

  lemma ImageOrigin(t: Site)
    requires SiteOk(t)
    ensures ImageOf(t).origin == Add(t.base, t.rva)
  {
  }

  lemma HookOrigin(base: u32)
    ensures HookProof.HookImage(base).origin == Add(base, HOOK_RVA)
  {
  }

  /** And so can the job hook, with a class and a pointer that make it apply. */
  lemma HookCanBeEntered(base: u32) returns (c: Cpu)
    requires 0x1_1000 <= base && base + HOOK_RVA + 44 <= WORD
    ensures HookProof.HookEntered(base, c) && HookProof.Applies(c)
  {
    hide Load32, Store32, Apart, HookProof.HookImage, HookProof.HookAt, Hook, Start, Inside, Add;
    var m1 := Store32(map[], 0x108, 9);
    var memory := Store32(m1, 0x10C, 0x200);
    c := Cpu(0, 0, 0, 0, 0x100, 0, 0, 0, HookProof.HookAt(base, 0), false, memory, false);
    var slot := HookProof.JobSlot(base);
    AddSmall(base, JOB_SLOT_RVA);
    AddSmall(base, HOOK_RVA);
    ApartAbove(0x108, 0x10C);
    ApartAbove(0x108, slot);
    ApartAbove(0x10C, slot);
    ApartAbove(0xFC, slot);
    ApartAbove(0xF8, slot);
    ApartAbove(0xFC, 0x210);
    ApartAbove(0xF8, 0x210);
    ApartAbove(0x210, slot);
    Arguments(m1, memory, slot);
    AddSmall(c.esp, 8);
    AddSmall(c.esp, 12);
    AddSmall(0x200, 16);
    FourBelow();
    HookProof.HookLoaded(base);
    HookOrigin(base);
    NotAtZero(HookProof.HookImage(base));
  }

  lemma FourBelow()
    ensures Add(0x100, -4) == 0xFC && Add(0x100, -8) == 0xF8
  {
  }

  lemma ApartAbove(a: u32, b: u32)
    requires a + 4 <= b <= WORD - 4
    ensures Apart(a, b) && Apart(b, a)
  {
  }

  lemma Arguments(m1: Memory, memory: Memory, slot: u32)
    requires m1 == Store32(map[], 0x108, 9) && memory == Store32(m1, 0x10C, 0x200)
    requires Apart(0x108, slot) && Apart(0x10C, slot) && Apart(0x10C, 0x108)
    ensures Load32(memory, 0x108) == 9 && Load32(memory, 0x10C) == 0x200 && Load32(memory, slot) == 0
  {
    hide Load32, Store32, Apart;
    LoadStoreSame(map[], 0x108, 9);
    LoadStoreApart(m1, 0x10C, 0x200, 0x108);
    LoadStoreSame(m1, 0x10C, 0x200);
    LoadStoreApart(m1, 0x10C, 0x200, slot);
    LoadStoreApart(map[], 0x108, 9, slot);
    LoadNothing(slot);
  }
}
