/**
 The emitted job hook forwards every call untouched but for one bit: only for class 9 and a buffer,
 it clears bit 0x2000 of the word 16 bytes into the buffer.
*/
module HookProof {
  import opened Bits
  import opened Bytes
  import opened Sequences
  import opened Pieces
  import opened Stepping
  import opened X86
  import opened X86Machine
  import opened Thunks
  import opened ThunkSteps

  const HOOK_STARTS: seq<nat> := [0, 1, 6, 7, 13, 18, 20, 24, 26, 28, 35, 41, 42, 44]

  function HookImage(base: u32): Image {
    Image(Flatten(Hook(), 13), Add(base, HOOK_RVA))
  }

  function HookAt(base: u32, offset: nat): u32 {
    Add(Add(base, HOOK_RVA), offset)
  }

  lemma HookLoaded(base: u32)
    ensures Loaded(HookImage(base), Hook()) && |HookImage(base).code| == 44
    ensures |Hook()| == 13 && forall k :: 0 <= k <= 13 ==> Start(Hook(), k) == HOOK_STARTS[k]
  {
    hide HookPieces, Start;
    HookStarts(PackedHook(), 15, 7);
  }

  lemma At(base: u32, k: nat, c: Cpu)
    requires k < 13 && c.eip == HookAt(base, HOOK_STARTS[k])
    ensures Stepper(HookImage(base))(c) == Some(Exec(c, HookInstr(k), HookAt(base, HOOK_STARTS[k + 1])))
  {
    HookLoaded(base);
    HookEncodes(k);
    StepAt(HookImage(base), Hook(), k, c, HookInstr(k));
  }

  lemma HookJump(base: u32, from: nat, to: nat)
    ensures Add(HookAt(base, from), to - from) == HookAt(base, to)
  {
    AddAdd(Add(base, HOOK_RVA), from, to - from);
  }

  // ----- the stretches -----

  function ClassTested(base: u32, c: Cpu): Cpu {
    var nine := Load32(c.mem, Add(c.esp, 12)) == 9;
    c.(called := false, zf := nine, eip := if nine then HookAt(base, 20) else HookAt(base, 35))
  }

  lemma TestClass(base: u32, c: Cpu)
    requires c.eip == HookAt(base, 13)
    ensures Steps(Stepper(HookImage(base)), c, 2) == Some(ClassTested(base, c))
  {
    hide HookImage, Stepper, HookAt, Load32;
    At(base, 4, c);
    var c1 := Exec(c, CmpMem(Near(ESP, 0x0C), EXTENDED_LIMITS), HookAt(base, 18));
    At(base, 5, c1);
    HookJump(base, 20, 35);
    Two(Stepper(HookImage(base)), c, c1, Exec(c1, JmpIf(false, 15), HookAt(base, 20)));
  }

  function PointerTested(base: u32, c: Cpu): Cpu {
    var p := Load32(c.mem, Add(c.esp, 16));
    c.(called := false, eax := p, zf := p == 0, eip := if p == 0 then HookAt(base, 35) else HookAt(base, 28))
  }

  lemma TestPointer(base: u32, c: Cpu)
    requires c.eip == HookAt(base, 20)
    ensures Steps(Stepper(HookImage(base)), c, 3) == Some(PointerTested(base, c))
  {
    hide HookImage, Stepper, HookAt, Load32, And32, Add;
    At(base, 6, c);
    var c1 := Exec(c, Load(EAX, Near(ESP, 0x10)), HookAt(base, 24));
    At(base, 7, c1);
    var c2 := Exec(c1, Test(EAX, EAX), HookAt(base, 26));
    At(base, 8, c2);
    var c3 := Exec(c2, JmpIf(true, 7), HookAt(base, 28));
    TestSelf(c1.eax);
    HookJump(base, 28, 35);
    assert c3 == PointerTested(base, c);
    Three(Stepper(HookImage(base)), c, c1, c2, c3);
  }

  /** `v` without bit 0x2000. */
  function Cleared(v: u32): u32 {
    Pow2Table();
    v - Bit(v, 13) * KILL_ON_CLOSE
  }

  lemma MaskClears(v: u32)
    ensures And32(v, WORD - 1 - KILL_ON_CLOSE) == Cleared(v)
  {
    Pow2Table();
    AndAllButOne(v, 13, 32);
  }

  function BitCleared(base: u32, c: Cpu): Cpu {
    var cell := Add(c.eax, 16);
    var w := Cleared(Load32(c.mem, cell));
    c.(called := false, mem := Store32(c.mem, cell, w), zf := w == 0, eip := HookAt(base, 35))
  }

  lemma ClearBit(base: u32, c: Cpu)
    requires c.eip == HookAt(base, 28)
    ensures Steps(Stepper(HookImage(base)), c, 1) == Some(BitCleared(base, c))
  {
    hide HookImage, Stepper, HookAt, Load32, Store32, And32, Add, Cleared;
    At(base, 9, c);
    MaskClears(Load32(c.mem, Add(c.eax, 16)));
  }

  function PassedOn(base: u32, c: Cpu): Cpu {
    c.(called := false, eax := Load32(c.mem, Add(c.ebx, JOB_SLOT_RVA)), ebx := Load32(c.mem, c.esp),
       esp := Add(c.esp, 4), eip := Load32(c.mem, Add(c.ebx, JOB_SLOT_RVA)))
  }

  lemma PassOn(base: u32, c: Cpu)
    requires c.eip == HookAt(base, 35)
    ensures Steps(Stepper(HookImage(base)), c, 3) == Some(PassedOn(base, c))
  {
    hide HookImage, Stepper, HookAt, Load32, Add;
    At(base, 10, c);
    var c1 := Exec(c, Load(EAX, Far(EBX, JOB_SLOT_RVA)), HookAt(base, 41));
    At(base, 11, c1);
    var c2 := Exec(c1, Pop(EBX), HookAt(base, 42));
    At(base, 12, c2);
    var c3 := Exec(c2, JmpReg(EAX), HookAt(base, 44));
    assert c3 == PassedOn(base, c);
    Three(Stepper(HookImage(base)), c, c1, c2, c3);
  }

  lemma CodeOfPrologue()
    ensures var p := Hook();
      && |p| == 13 && p[0] == Encode(Push(EBX)) && p[1] == Encode(CallRel(0)) && p[2] == Encode(Pop(EBX))
      && p[3] == Encode(SubImm(EBX, HOOK_RVA + 6))
      && Start(p, 1) == 1 && Start(p, 2) == 6 && Start(p, 3) == 7 && Start(p, 4) == 13
  {
    hide Encode;
    HookLoaded(0);
    HookEncodes(0);
    HookEncodes(1);
    HookEncodes(2);
    HookEncodes(3);
  }

  lemma Enter(base: u32, c: Cpu)
    requires c.eip == HookAt(base, 0)
    ensures Steps(Stepper(HookImage(base)), c, 4) == Some(AfterPrologue(c, base, Add(base, HOOK_RVA)))
  {
    hide Add, Encode, AfterPrologue, Start, Hook, Loaded;
    HookLoaded(base);
    CodeOfPrologue();
    AddZero(Add(base, HOOK_RVA));
    Prologue(HookImage(base), Hook(), base, HOOK_RVA, c);
  }

  // ----- the whole hook -----

  /** The second and third arguments, at the hook's entry. */
  function Class(c: Cpu): u32 { Load32(c.mem, Add(c.esp, 8)) }

  function Information(c: Cpu): u32 { Load32(c.mem, Add(c.esp, 12)) }

  predicate Applies(c: Cpu) { Class(c) == 9 && Information(c) != 0 }

  function LimitFlags(c: Cpu): u32 { Add(Information(c), 16) }

  function JobSlot(base: u32): u32 { Add(base, JOB_SLOT_RVA) }

  /** The words the hook pushes, the limit flags and the slot lie apart; the native function is elsewhere. */
  predicate HookEntered(base: u32, c: Cpu) {
    && c.eip == HookAt(base, 0)
    && Apart(Add(c.esp, -4), JobSlot(base)) && Apart(Add(c.esp, -8), JobSlot(base))
    && (Applies(c) ==>
          && Apart(Add(c.esp, -4), LimitFlags(c)) && Apart(Add(c.esp, -8), LimitFlags(c))
          && Apart(LimitFlags(c), JobSlot(base)))
    && !Inside(HookImage(base), Load32(c.mem, JobSlot(base)))
  }

  /**
   What the hook leaves: the native function entered with the caller's stack pointer and registers,
   and memory as it was except scratch below the stack and, when it applies, the one cleared bit.
  */
  predicate Forwarded(base: u32, c: Cpu, d: Cpu) {
    && d.eip == Load32(c.mem, JobSlot(base)) && d.esp == c.esp
    && d.ebx == c.ebx && d.ecx == c.ecx && d.edx == c.edx && d.ebp == c.ebp && d.esi == c.esi && d.edi == c.edi
    && (if Applies(c) then
          && Load32(d.mem, LimitFlags(c)) == Cleared(Load32(c.mem, LimitFlags(c)))
          && forall a :: !Within(a, Add(c.esp, -8), 8) && !Within(a, LimitFlags(c), 4) ==>
            Byte(d.mem, a) == Byte(c.mem, a)
        else SameOutside(c.mem, d.mem, Add(c.esp, -8), 8))
  }

  ghost predicate HookEnds(base: u32, env: Cpu -> Cpu, c: Cpu, x: Exit<Cpu>) {
    exists fuel: nat :: Execute(HookImage(base), env, c, fuel) == Some(x)
  }

  lemma WithinAddresses(base: u32, c: Cpu)
    ensures var e := AfterPrologue(c, base, Add(base, HOOK_RVA));
      Add(e.esp, 12) == Add(c.esp, 8) && Add(e.esp, 16) == Add(c.esp, 12) && Add(e.esp, 4) == c.esp
  {
    AddAdd(c.esp, -4, 12);
    AddAdd(c.esp, -4, 16);
    AddAdd(c.esp, -4, 4);
    AddZero(c.esp);
  }

  /** Words the two pushes do not reach read as before. */
  lemma ReadsThrough(m: Memory, esp: u32, v: u32, w: u32, cell: u32)
    requires Apart(Add(esp, -4), cell) && Apart(Add(esp, -8), cell)
    ensures Load32(Store32(Store32(m, Add(esp, -4), v), Add(esp, -8), w), cell) == Load32(m, cell)
  {
    hide Load32, Store32, Add;
    LoadStoreApart(m, Add(esp, -4), v, cell);
    LoadStoreApart(Store32(m, Add(esp, -4), v), Add(esp, -8), w, cell);
  }

  lemma ArgumentsApart(esp: u32, k: int)
    requires 0 <= k <= 16
    ensures Apart(Add(esp, -4), Add(esp, k)) && Apart(Add(esp, -8), Add(esp, k)) && Apart(Add(esp, -8), Add(esp, -4))
  {
    OffsetsApart(esp, -4, k);
    OffsetsApart(esp, -8, k);
    OffsetsApart(esp, -8, -4);
  }

  /** After the prologue the arguments, the slot and the flags read as at entry, EBX sits on the stack. */
  lemma AfterEntry(base: u32, c: Cpu)
    requires HookEntered(base, c)
    ensures var e := AfterPrologue(c, base, Add(base, HOOK_RVA));
      && Load32(e.mem, Add(e.esp, 12)) == Class(c) && Load32(e.mem, Add(e.esp, 16)) == Information(c)
      && Load32(e.mem, JobSlot(base)) == Load32(c.mem, JobSlot(base)) && Load32(e.mem, e.esp) == c.ebx
      && (Applies(c) ==> Load32(e.mem, LimitFlags(c)) == Load32(c.mem, LimitFlags(c)))
      && SameOutside(c.mem, e.mem, Add(c.esp, -8), 8)
  {
    hide Load32, Store32, Add, HookImage;
    var v := Add(Add(base, HOOK_RVA), 6);
    WithinAddresses(base, c);
    ArgumentsApart(c.esp, 8);
    ArgumentsApart(c.esp, 12);
    ReadsThrough(c.mem, c.esp, c.ebx, v, Add(c.esp, 8));
    ReadsThrough(c.mem, c.esp, c.ebx, v, Add(c.esp, 12));
    ReadsThrough(c.mem, c.esp, c.ebx, v, JobSlot(base));
    if Applies(c) { ReadsThrough(c.mem, c.esp, c.ebx, v, LimitFlags(c)); }
    var m1 := Store32(c.mem, Add(c.esp, -4), c.ebx);
    LoadStoreSame(c.mem, Add(c.esp, -4), c.ebx);
    LoadStoreApart(m1, Add(c.esp, -8), v, Add(c.esp, -4));
    PushesStayBelow(c.mem, c.esp, c.ebx, v);
  }

  lemma ClearedAfterEntry(base: u32, c: Cpu, e: Cpu)
    requires HookEntered(base, c) && Applies(c) && e.eax == Information(c) && e.esp == Add(c.esp, -4)
    requires Load32(e.mem, JobSlot(base)) == Load32(c.mem, JobSlot(base)) && Load32(e.mem, e.esp) == c.ebx
    requires Load32(e.mem, LimitFlags(c)) == Load32(c.mem, LimitFlags(c))
      && SameOutside(c.mem, e.mem, Add(c.esp, -8), 8)
    ensures var d := BitCleared(base, e);
      && Load32(d.mem, JobSlot(base)) == Load32(c.mem, JobSlot(base)) && Load32(d.mem, d.esp) == c.ebx
      && Load32(d.mem, LimitFlags(c)) == Cleared(Load32(c.mem, LimitFlags(c)))
      && forall a :: !Within(a, Add(c.esp, -8), 8) && !Within(a, LimitFlags(c), 4) ==> Byte(d.mem, a) == Byte(c.mem, a)
  {
    hide Load32, Store32, Add, HookImage, Cleared;
    var cell, w := LimitFlags(c), Cleared(Load32(c.mem, LimitFlags(c)));
    LoadStoreSame(e.mem, cell, w);
    LoadStoreApart(e.mem, cell, w, JobSlot(base));
    ApartSym(Add(c.esp, -4), cell);
    LoadStoreApart(e.mem, cell, w, e.esp);
    forall a | !Within(a, Add(c.esp, -8), 8) && !Within(a, cell, 4)
      ensures Byte(Store32(e.mem, cell, w), a) == Byte(c.mem, a)
    {
      StoreByte(e.mem, cell, w, a);
    }
  }

  lemma HookSteps(base: u32, env: Cpu -> Cpu, c: Cpu, n: nat, d: Cpu, x: Exit<Cpu>)
    requires Steps(Stepper(HookImage(base)), c, n) == Some(d) && HookEnds(base, env, d, x)
    ensures HookEnds(base, env, c, x)
  {
    hide HookImage, Stepper;
    var img := HookImage(base);
    var fuel: nat :| Execute(img, env, d, fuel) == Some(x);
    RunSteps(Stepper(img), (y: Cpu) => !Inside(img, y.eip), (y: Cpu) => CallsOut(img, y), env, c, n, d, fuel);
    assert Execute(img, env, c, n + fuel) == Some(x);
  }

  /** From the forwarding stretch on, once memory is as it is to be. */
  lemma PassOnEnds(base: u32, env: Cpu -> Cpu, c: Cpu, e: Cpu)
    requires HookEntered(base, c) && e.eip == HookAt(base, 35) && e.ebx == base && e.esp == Add(c.esp, -4)
    requires Load32(e.mem, JobSlot(base)) == Load32(c.mem, JobSlot(base)) && Load32(e.mem, e.esp) == c.ebx
    ensures HookEnds(base, env, e, Exit(PassedOn(base, e), []))
    ensures
      var d := PassedOn(base, e);
      d.eip == Load32(c.mem, JobSlot(base)) && d.esp == c.esp && d.ebx == c.ebx && d.mem == e.mem
  {
    hide HookImage, HookAt, Load32, Add;
    var d := PassedOn(base, e);
    PassOn(base, e);
    AddAdd(c.esp, -4, 4);
    AddZero(c.esp);
    assert HookEnds(base, env, d, Exit(d, [])) by {
      assert Stepper(HookImage(base))(d) == None;
      assert Execute(HookImage(base), env, d, 1) == Some(Exit(d, []));
    }
    HookSteps(base, env, e, 3, d, Exit(d, []));
  }

  /** Every call through the hook reaches the native function, and nothing else is called on the way. */
  lemma HookForwards(base: u32, env: Cpu -> Cpu, c: Cpu) returns (x: Exit<Cpu>)
    requires HookEntered(base, c)
    ensures HookEnds(base, env, c, x) && x.calls == [] && Forwarded(base, c, x.last)
  {
    hide HookImage, Stepper, HookAt, Load32, Store32, Add, AfterPrologue, HookEnds, Cleared;
    Enter(base, c);
    AfterEntry(base, c);
    AfterRegisters(base, c);
    var e := AfterPrologue(c, base, Add(base, HOOK_RVA));
    TestClass(base, e);
    var f := ClassTested(base, e);
    if Class(c) != 9 {
      PassOnEnds(base, env, c, f);
      x := Exit(PassedOn(base, f), []);
    } else {
      TestPointer(base, f);
      var g := PointerTested(base, f);
      if Information(c) == 0 {
        PassOnEnds(base, env, c, g);
        x := Exit(PassedOn(base, g), []);
      } else {
        ClearBit(base, g);
        ClearedAfterEntry(base, c, g);
        var h := BitCleared(base, g);
        PassOnEnds(base, env, c, h);
        x := Exit(PassedOn(base, h), []);
        HookSteps(base, env, g, 1, h, x);
      }
      HookSteps(base, env, f, 3, g, x);
    }
    HookSteps(base, env, e, 2, f, x);
    HookSteps(base, env, c, 4, e, x);
  }

  /** Wherever the image is loaded, every call through the hook ends as promised. */
  lemma HookIsTransparent(base: u32, env: Cpu -> Cpu, c: Cpu)
    requires HookEntered(base, c)
    ensures exists x :: HookEnds(base, env, c, x)
    ensures forall x :: HookEnds(base, env, c, x) ==> x.calls == [] && Forwarded(base, c, x.last)
  {
    hide HookImage, Forwarded, HookEntered;
    var x := HookForwards(base, env, c);
    var img := HookImage(base);
    var f: nat :| Execute(img, env, c, f) == Some(x);
    forall y | HookEnds(base, env, c, y) ensures y == x {
      var g: nat :| Execute(img, env, c, g) == Some(y);
      if f <= g {
        RunMonotone(Stepper(img), (z: Cpu) => !Inside(img, z.eip), (z: Cpu) => CallsOut(img, z), env, c, f, g);
      } else {
        RunMonotone(Stepper(img), (z: Cpu) => !Inside(img, z.eip), (z: Cpu) => CallsOut(img, z), env, c, g, f);
      }
    }
  }

  lemma AfterRegisters(base: u32, c: Cpu)
    ensures var e := AfterPrologue(c, base, Add(base, HOOK_RVA));
      && e.ecx == c.ecx && e.edx == c.edx && e.ebp == c.ebp && e.esi == c.esi && e.edi == c.edi
      && e.ebx == base && e.esp == Add(c.esp, -4) && e.eip == HookAt(base, 13)
  {
  }
}
