/**
 The emitted resolver is a transparent stdcall tail call: for every load base, stack and arguments
 it ends at the cached or the looked-up function with the caller's stack and EBX untouched, or
 returns zero having popped exactly the arguments.
*/
module ResolverProof {
  import opened Bytes
  import opened Sequences
  import opened Stepping
  import opened X86
  import opened X86Machine
  import opened Thunks
  import opened ThunkSteps
  import opened ResolverRun

  /** No byte from 16 below the stack pointer to `live` above it belongs to the word at `cell`. */
  predicate Clear(esp: u32, live: nat, cell: u32) {
    forall k :: -16 <= k < live ==> !Within(Add(esp, k), cell, 4)
  }

  function Slot(t: Site): u32 { Add(t.base, t.slot) }

  function LibraryCell(t: Site): u32 { Add(t.base, LOAD_LIBRARY_A_IAT_RVA) }

  function FunctionCell(t: Site): u32 { Add(t.base, GET_PROC_ADDRESS_IAT_RVA) }

  /** Control has just arrived, from a caller outside; the imported and the cached function are outside too. */
  predicate Entered(t: Site, c: Cpu, live: nat) {
    && SiteOk(t) && c.eip == Here(t, 0)
    && 4 + t.pops <= live < WORD / 2
    && Clear(c.esp, live, Slot(t)) && Clear(c.esp, live, LibraryCell(t)) && Clear(c.esp, live, FunctionCell(t))
    && !Inside(ImageOf(t), Load32(c.mem, c.esp))
    && !Inside(ImageOf(t), Load32(c.mem, LibraryCell(t)))
    && (Load32(c.mem, Slot(t)) != 0 ==> !Inside(ImageOf(t), Load32(c.mem, Slot(t))))
  }

  /** The first `live` bytes above the stack pointer are the same. */
  predicate SameStack(m: Memory, n: Memory, esp: u32, live: nat) {
    forall k :: 0 <= k < live ==> Byte(m, Add(esp, k)) == Byte(n, Add(esp, k))
  }

  /**
   What a stdcall function does: it returns where it was called from with its arguments popped,
   keeps the registers callees keep, and leaves the `live` bytes of stack above them alone.
   Everything else, including all other memory, may change.
  */
  predicate Returns(c: Cpu, d: Cpu, pops: nat, live: nat) {
    && d.eip == Load32(c.mem, c.esp)
    && d.esp == Add(c.esp, 4 + pops)
    && d.ebx == c.ebx && d.ebp == c.ebp && d.esi == c.esi && d.edi == c.edi
    && SameStack(c.mem, d.mem, d.esp, live)
  }

  /** Nothing the caller can see on its stack or in the registers it keeps has changed. */
  predicate SameCaller(c: Cpu, d: Cpu, live: nat) {
    && d.ebx == c.ebx && d.ebp == c.ebp && d.esi == c.esi && d.edi == c.edi
    && SameStack(c.mem, d.mem, c.esp, live)
  }

  lemma ClearApart(esp: u32, live: nat, cell: u32, j: int)
    requires Clear(esp, live, cell) && live < WORD / 2 && 4 <= j <= 16
    ensures Apart(Add(esp, -j), cell)
  {
    var a := Add(esp, -j);
    forall i | 0 <= i < 4 ensures !Within(Add(a, i), cell, 4) {
      AddAdd(esp, -j, i);
      assert !Within(Add(esp, i - j), cell, 4);
    }
    ApartFromBytes(a, cell);
  }

  lemma ApartFromBytes(a: u32, cell: u32)
    requires forall i :: 0 <= i < 4 ==> !Within(Add(a, i), cell, 4)
    ensures Apart(a, cell)
  {
    var d := Distance(a, cell);
    DistanceBack(a, cell);
    DistanceBack(cell, cell);
    assert !Within(Add(a, 0), cell, 4);
    assert !Within(Add(a, if d < 4 then d else 0), cell, 4);
  }

  /** Pushing below the stack pointer leaves every byte above it alone. */
  lemma PushKeeps(m: Memory, esp: u32, j: int, v: u32, k: int)
    requires 4 <= j <= 16 && 4 - j <= k < WORD / 2
    ensures Byte(Store32(m, Add(esp, -j), v), Add(esp, k)) == Byte(m, Add(esp, k))
  {
    PushOffset(esp, j, k);
    StoreByte(m, Add(esp, -j), v, Add(esp, k));
  }

  lemma PushOffset(esp: u32, j: int, k: int)
    requires 4 <= j <= 16 && 4 - j <= k < WORD / 2
    ensures Distance(Add(esp, -j), Add(esp, k)) == j + k
  {
    hide Add;
    AddAdd(esp, -j, j + k);
    DistanceOf(Add(esp, -j), j + k);
  }

  lemma PushKeepsStack(m: Memory, esp: u32, j: int, v: u32, live: nat)
    requires 4 <= j <= 16 && live < WORD / 2
    ensures SameStack(m, Store32(m, Add(esp, -j), v), esp, live)
  {
    forall k | 0 <= k < live ensures Byte(Store32(m, Add(esp, -j), v), Add(esp, k)) == Byte(m, Add(esp, k)) {
      PushKeeps(m, esp, j, v, k);
    }
  }

  lemma StoreKeepsStack(m: Memory, cell: u32, v: u32, esp: u32, live: nat)
    requires Clear(esp, live, cell)
    ensures SameStack(m, Store32(m, cell, v), esp, live)
  {
    forall k | 0 <= k < live ensures Byte(Store32(m, cell, v), Add(esp, k)) == Byte(m, Add(esp, k)) {
      StoreByte(m, cell, v, Add(esp, k));
    }
  }

  // ----- between the prologue and the exits -----

  /** Inside the thunk, with the load base in EBX and the caller's EBX in the one word pushed. */
  predicate Midway(t: Site, c: Cpu, e: Cpu, live: nat) {
    && e.ebx == t.base && e.esp == Add(c.esp, -4) && e.ebp == c.ebp && e.esi == c.esi && e.edi == c.edi
    && Load32(e.mem, Add(c.esp, -4)) == c.ebx
    && SameStack(c.mem, e.mem, c.esp, live)
  }

  lemma SameStackTrans(m: Memory, n: Memory, o: Memory, esp: u32, live: nat)
    requires SameStack(m, n, esp, live) && SameStack(n, o, esp, live)
    ensures SameStack(m, o, esp, live)
  {
  }

  lemma StackWord(m: Memory, n: Memory, esp: u32, live: nat)
    requires SameStack(m, n, esp, live) && live >= 4
    ensures Load32(m, esp) == Load32(n, esp)
  {
    LoadSameBytes(m, n, esp);
  }

  lemma PrologueIsMidway(t: Site, c: Cpu, live: nat)
    requires Entered(t, c, live)
    ensures var e := AfterPrologue(c, t.base, Add(t.base, t.rva));
      && Midway(t, c, e, live) && e.eip == Here(t, 13)
      && Load32(e.mem, Slot(t)) == Load32(c.mem, Slot(t))
      && Load32(e.mem, LibraryCell(t)) == Load32(c.mem, LibraryCell(t))
      && SameOutside(c.mem, e.mem, Add(c.esp, -8), 8)
  {
    hide Load32, Store32, Add, ImageOf;
    var m1 := Store32(c.mem, Add(c.esp, -4), c.ebx);
    var v := Add(Add(t.base, t.rva), 6);
    PushKeepsStack(c.mem, c.esp, 4, c.ebx, live);
    PushKeepsStack(m1, c.esp, 8, v, live);
    SameStackTrans(c.mem, m1, Store32(m1, Add(c.esp, -8), v), c.esp, live);
    LoadStoreSame(c.mem, Add(c.esp, -4), c.ebx);
    OffsetsApart(c.esp, -8, -4);
    LoadStoreApart(m1, Add(c.esp, -8), v, Add(c.esp, -4));
    CellKept(t, c, live, Slot(t), v);
    CellKept(t, c, live, LibraryCell(t), v);
    PushesStayBelow(c.mem, c.esp, c.ebx, v);
  }

  lemma CellKept(t: Site, c: Cpu, live: nat, cell: u32, v: u32)
    requires Clear(c.esp, live, cell) && live < WORD / 2
    ensures Load32(Store32(Store32(c.mem, Add(c.esp, -4), c.ebx), Add(c.esp, -8), v), cell) == Load32(c.mem, cell)
  {
    hide Load32, Store32, Add;
    ClearApart(c.esp, live, cell, 4);
    ClearApart(c.esp, live, cell, 8);
    LoadStoreApart(c.mem, Add(c.esp, -4), c.ebx, cell);
    LoadStoreApart(Store32(c.mem, Add(c.esp, -4), c.ebx), Add(c.esp, -8), v, cell);
  }

  /** Tail jump: the caller's registers and stack pointer are back, the arguments where they were. */
  lemma LeaveFromMidway(t: Site, c: Cpu, e: Cpu, live: nat)
    requires Midway(t, c, e, live)
    ensures var d := Forwarded(e); d.eip == e.eax && d.esp == c.esp && SameCaller(c, d, live) && d.mem == e.mem
  {
    AddAdd(c.esp, -4, 4);
    AddZero(c.esp);
  }

  /** Failure: zero, and exactly the arguments popped. */
  lemma GiveUpFromMidway(t: Site, c: Cpu, e: Cpu, live: nat)
    requires Entered(t, c, live) && Midway(t, c, e, live)
    ensures var d := GivenUp(t, e);
      && d.eip == Load32(c.mem, c.esp) && d.esp == Add(c.esp, 4 + t.pops) && d.eax == 0
      && SameCaller(c, d, live) && d.mem == e.mem
  {
    hide Load32, Store32, ImageOf, Here;
    AddAdd(c.esp, -4, 4);
    AddAdd(c.esp, -4, 8 + t.pops);
    AddZero(c.esp);
    StackWord(c.mem, e.mem, c.esp, live);
  }

  /** Calling out with `pops` bytes of arguments below the caller's EBX, to come back at `back`. */
  predicate CallingOut(t: Site, c: Cpu, d: Cpu, live: nat, pops: nat, back: u32) {
    && d.called && d.esp == Add(c.esp, -(8 + pops)) && Load32(d.mem, d.esp) == back
    && d.ebx == t.base && d.ebp == c.ebp && d.esi == c.esi && d.edi == c.edi
    && Load32(d.mem, Add(c.esp, -4)) == c.ebx
    && SameStack(c.mem, d.mem, c.esp, live)
  }

  /**
   The environment of a use that started at `c`: `LoadLibraryA`, called with one argument to come back at 36, and
   `GetProcAddress`, called with two to come back at 54, return as stdcall functions do, with an answer outside the
   resolver, and leave the import cell of `GetProcAddress` pointing outside it.
  */
  ghost predicate Answers(t: Site, env: Cpu -> Cpu, c: Cpu, live: nat)
    requires SiteOk(t)
  {
    forall d ::
      && (CallingOut(t, c, d, live, 4, Here(t, 36)) ==> AnswersAs(t, d, env(d), live, 4))
      && (CallingOut(t, c, d, live, 8, Here(t, 54)) ==> AnswersAs(t, d, env(d), live, 8))
  }

  predicate AnswersAs(t: Site, d: Cpu, r: Cpu, live: nat, pops: nat)
    requires SiteOk(t)
  {
    && Returns(d, r, pops, live + 4)
    && !Inside(ImageOf(t), Load32(r.mem, FunctionCell(t)))
    && (r.eax != 0 ==> !Inside(ImageOf(t), r.eax))
  }

  /** Coming back from a call leads to the middle again. */
  lemma BackMidway(t: Site, c: Cpu, d: Cpu, r: Cpu, live: nat, pops: nat, back: u32)
    requires CallingOut(t, c, d, live, pops, back) && Returns(d, r, pops, live + 4)
    ensures Midway(t, c, r, live) && r.eip == back
  {
    hide Load32, Add;
    AddAdd(c.esp, -(8 + pops), 4 + pops);
    assert r.esp == Add(c.esp, -4);
    StackWord(d.mem, r.mem, r.esp, live + 4);
    forall k | 0 <= k < live ensures Byte(c.mem, Add(c.esp, k)) == Byte(r.mem, Add(c.esp, k)) {
      AddAdd(c.esp, -4, k + 4);
      assert Byte(d.mem, Add(r.esp, k + 4)) == Byte(r.mem, Add(r.esp, k + 4));
    }
  }

  /** Two words pushed below the one already there. */
  lemma TwoPushes(m: Memory, esp: u32, live: nat, a: u32, b: u32, cell: u32)
    requires live < WORD / 2 && Clear(esp, live, cell)
    ensures var n := Store32(Store32(m, Add(esp, -8), a), Add(esp, -12), b);
      && SameStack(m, n, esp, live) && Load32(n, Add(esp, -4)) == Load32(m, Add(esp, -4))
      && Load32(n, Add(esp, -8)) == a && Load32(n, Add(esp, -12)) == b
      && Load32(Store32(m, Add(esp, -8), a), cell) == Load32(m, cell) && Load32(n, cell) == Load32(m, cell)
  {
    hide Load32, Store32, Add;
    var m1 := Store32(m, Add(esp, -8), a);
    PushKeepsStack(m, esp, 8, a, live);
    PushKeepsStack(m1, esp, 12, b, live);
    SameStackTrans(m, m1, Store32(m1, Add(esp, -12), b), esp, live);
    OffsetsApart(esp, -8, -4);
    OffsetsApart(esp, -12, -4);
    OffsetsApart(esp, -12, -8);
    LoadStoreSame(m, Add(esp, -8), a);
    LoadStoreSame(m1, Add(esp, -12), b);
    LoadStoreApart(m, Add(esp, -8), a, Add(esp, -4));
    LoadStoreApart(m1, Add(esp, -12), b, Add(esp, -4));
    LoadStoreApart(m1, Add(esp, -12), b, Add(esp, -8));
    ClearApart(esp, live, cell, 8);
    ClearApart(esp, live, cell, 12);
    LoadStoreApart(m, Add(esp, -8), a, cell);
    LoadStoreApart(m1, Add(esp, -12), b, cell);
  }

  lemma LibraryCallOut(t: Site, c: Cpu, e: Cpu, live: nat)
    requires Entered(t, c, live) && Midway(t, c, e, live)
    ensures var d := LibraryCalled(t, e);
      && CallingOut(t, c, d, live, 4, Here(t, 36))
      && d.eip == Load32(e.mem, LibraryCell(t))
      && Load32(d.mem, Add(d.esp, 4)) == Add(t.base, STRINGS_RVA)
  {
    hide Load32, Store32, Add, Here, ImageOf;
    AddAdd(c.esp, -4, -4);
    AddAdd(c.esp, -4, -8);
    AddAdd(c.esp, -12, 4);
    TwoPushes(e.mem, c.esp, live, Add(t.base, STRINGS_RVA), Here(t, 36), LibraryCell(t));
    SameStackTrans(c.mem, e.mem, LibraryCalled(t, e).mem, c.esp, live);
  }

  lemma FunctionCallOut(t: Site, c: Cpu, e: Cpu, live: nat)
    requires Entered(t, c, live) && Midway(t, c, e, live)
    ensures var d := FunctionCalled(t, e);
      && CallingOut(t, c, d, live, 8, Here(t, 54))
      && d.eip == Load32(e.mem, FunctionCell(t))
      && Load32(d.mem, Add(d.esp, 4)) == e.eax && Load32(d.mem, Add(d.esp, 8)) == Add(t.base, t.name)
  {
    hide Load32, Store32, Add, Here, ImageOf;
    AddAdd(c.esp, -4, -4);
    AddAdd(c.esp, -4, -8);
    AddAdd(c.esp, -4, -12);
    AddAdd(c.esp, -16, 4);
    AddAdd(c.esp, -16, 8);
    var name, back := Add(t.base, t.name), Here(t, 54);
    TwoPushes(e.mem, c.esp, live, name, e.eax, FunctionCell(t));
    var m2 := Store32(Store32(e.mem, Add(c.esp, -8), name), Add(c.esp, -12), e.eax);
    PushKeepsStack(m2, c.esp, 16, back, live);
    SameStackTrans(c.mem, e.mem, m2, c.esp, live);
    SameStackTrans(c.mem, m2, Store32(m2, Add(c.esp, -16), back), c.esp, live);
    LoadStoreSame(m2, Add(c.esp, -16), back);
    OffsetsApart(c.esp, -16, -4);
    OffsetsApart(c.esp, -16, -8);
    OffsetsApart(c.esp, -16, -12);
    LoadStoreApart(m2, Add(c.esp, -16), back, Add(c.esp, -4));
    LoadStoreApart(m2, Add(c.esp, -16), back, Add(c.esp, -8));
    LoadStoreApart(m2, Add(c.esp, -16), back, Add(c.esp, -12));
  }

  /** Saving the answer touches the slot only. */
  lemma SaveStaysMidway(t: Site, c: Cpu, e: Cpu, live: nat)
    requires Entered(t, c, live) && Midway(t, c, e, live)
    ensures Midway(t, c, Saved(t, e), live) && Load32(Saved(t, e).mem, Slot(t)) == e.eax
  {
    hide Load32, Store32, Add, Here, ImageOf;
    LoadStoreSame(e.mem, Slot(t), e.eax);
    StoreKeepsStack(e.mem, Slot(t), e.eax, c.esp, live);
    SameStackTrans(c.mem, e.mem, Store32(e.mem, Slot(t), e.eax), c.esp, live);
    ClearApart(c.esp, live, Slot(t), 4);
    ApartSym(Add(c.esp, -4), Slot(t));
    LoadStoreApart(e.mem, Slot(t), e.eax, Add(c.esp, -4));
  }

  // ----- whole runs -----

  /** What the caller may rely on, whatever happened inside. */
  predicate TailCalled(c: Cpu, d: Cpu, target: u32, live: nat) {
    d.eip == target && d.esp == c.esp && SameCaller(c, d, live)
  }

  predicate ReturnedZero(t: Site, c: Cpu, d: Cpu, live: nat) {
    d.eip == Load32(c.mem, c.esp) && d.esp == Add(c.esp, 4 + t.pops) && d.eax == 0 && SameCaller(c, d, live)
  }

  predicate AskedForLibrary(t: Site, c: Cpu, call: Cpu) {
    call.eip == Load32(c.mem, LibraryCell(t)) && Load32(call.mem, Add(call.esp, 4)) == Add(t.base, STRINGS_RVA)
  }

  predicate AskedForFunction(t: Site, before: Cpu, call: Cpu) {
    && call.eip == Load32(before.mem, FunctionCell(t))
    && Load32(call.mem, Add(call.esp, 4)) == before.eax && Load32(call.mem, Add(call.esp, 8)) == Add(t.base, t.name)
  }

  /** `GetProcAddress` has answered with `found`: zero is passed on, anything else is saved and jumped to. */
  predicate Finished(t: Site, c: Cpu, found: Cpu, d: Cpu, live: nat) {
    if found.eax == 0 then
      ReturnedZero(t, c, d, live) && d.mem == found.mem
    else
      && TailCalled(c, d, found.eax, live)
      && d.mem == Store32(found.mem, Slot(t), found.eax) && Load32(d.mem, Slot(t)) == found.eax
  }

  /** Everything the resolver promises about one use of it. */
  ghost predicate Resolved(t: Site, env: Cpu -> Cpu, c: Cpu, live: nat, x: Exit<Cpu>) {
    var d, calls := x.last, x.calls;
    var cached := Load32(c.mem, Slot(t));
    if cached != 0 then
      && calls == [] && TailCalled(c, d, cached, live)
      && d.ecx == c.ecx && d.edx == c.edx && SameOutside(c.mem, d.mem, Add(c.esp, -8), 8)
    else
      && |calls| >= 1 && AskedForLibrary(t, c, calls[0])
      && var library := env(calls[0]);
      if library.eax == 0 then
        |calls| == 1 && ReturnedZero(t, c, d, live) && d.mem == library.mem
      else
        && |calls| == 2 && AskedForFunction(t, library, calls[1])
        && Finished(t, c, env(calls[1]), d, live)
  }

  ghost predicate Ends(t: Site, env: Cpu -> Cpu, c: Cpu, x: Exit<Cpu>)
    requires SiteOk(t)
  {
    exists fuel: nat :: Execute(ImageOf(t), env, c, fuel) == Some(x)
  }

  lemma EndsAfterSteps(t: Site, env: Cpu -> Cpu, c: Cpu, n: nat, d: Cpu, x: Exit<Cpu>)
    requires SiteOk(t) && Steps(Stepper(ImageOf(t)), c, n) == Some(d) && Ends(t, env, d, x)
    ensures Ends(t, env, c, x)
  {
    hide ImageOf, Stepper;
    var img := ImageOf(t);
    var fuel: nat :| Execute(img, env, d, fuel) == Some(x);
    RunSteps(Stepper(img), (y: Cpu) => !Inside(img, y.eip), (y: Cpu) => CallsOut(img, y), env, c, n, d, fuel);
    assert Execute(img, env, c, n + fuel) == Some(x);
  }

  lemma EndsOutside(t: Site, env: Cpu -> Cpu, c: Cpu)
    requires SiteOk(t) && !Inside(ImageOf(t), c.eip) && !c.called
    ensures Ends(t, env, c, Exit(c, []))
  {
    hide ImageOf;
    assert Stepper(ImageOf(t))(c) == None;
    assert Execute(ImageOf(t), env, c, 1) == Some(Exit(c, []));
  }

  lemma EndsAfterCall(t: Site, env: Cpu -> Cpu, c: Cpu, x: Exit<Cpu>)
    requires SiteOk(t) && CallsOut(ImageOf(t), c) && Ends(t, env, env(c), x)
    ensures Ends(t, env, c, Exit(x.last, [c] + x.calls))
  {
    hide ImageOf;
    var fuel: nat :| Execute(ImageOf(t), env, env(c), fuel) == Some(x);
    assert Stepper(ImageOf(t))(c) == None;
    assert Execute(ImageOf(t), env, c, fuel + 1) == Some(Exit(x.last, [c] + x.calls));
  }

  lemma LeaveEnds(t: Site, env: Cpu -> Cpu, c: Cpu, e: Cpu, live: nat)
    requires Entered(t, c, live) && Midway(t, c, e, live) && e.eip == Here(t, 64) && !Inside(ImageOf(t), e.eax)
    ensures Ends(t, env, e, Exit(Forwarded(e), [])) && TailCalled(c, Forwarded(e), e.eax, live)
  {
    hide ImageOf, Stepper, Here, Load32, Store32, Add, Ends;
    Leave(t, e);
    LeaveFromMidway(t, c, e, live);
    EndsOutside(t, env, Forwarded(e));
    EndsAfterSteps(t, env, e, 2, Forwarded(e), Exit(Forwarded(e), []));
  }

  lemma GiveUpEnds(t: Site, env: Cpu -> Cpu, c: Cpu, e: Cpu, live: nat)
    requires Entered(t, c, live) && Midway(t, c, e, live) && e.eip == Here(t, 67)
    ensures Ends(t, env, e, Exit(GivenUp(t, e), [])) && ReturnedZero(t, c, GivenUp(t, e), live)
  {
    hide ImageOf, Stepper, Here, Load32, Store32, Add, Ends;
    GiveUp(t, e);
    GiveUpFromMidway(t, c, e, live);
    EndsOutside(t, env, GivenUp(t, e));
    EndsAfterSteps(t, env, e, 3, GivenUp(t, e), Exit(GivenUp(t, e), []));
  }

  /** From the return of `GetProcAddress` on. */
  lemma FunctionAnswered(t: Site, env: Cpu -> Cpu, c: Cpu, r: Cpu, live: nat) returns (x: Exit<Cpu>)
    requires Entered(t, c, live) && Midway(t, c, r, live) && r.eip == Here(t, 54)
    requires r.eax != 0 ==> !Inside(ImageOf(t), r.eax)
    ensures Ends(t, env, r, x) && x.calls == []
    ensures Finished(t, c, r, x.last, live)
  {
    hide ImageOf, Stepper, Here, Load32, Store32, Add, Ends;
    TestFunction(t, r);
    var e := AnswerTested(t, r, 58);
    if r.eax == 0 {
      GiveUpEnds(t, env, c, e, live);
      x := Exit(GivenUp(t, e), []);
    } else {
      SaveStaysMidway(t, c, e, live);
      SaveAndLeave(t, e);
      var s := Saved(t, e);
      LeaveFromMidway(t, c, s, live);
      EndsOutside(t, env, Forwarded(s));
      x := Exit(Forwarded(s), []);
      EndsAfterSteps(t, env, e, 3, Forwarded(s), x);
    }
    EndsAfterSteps(t, env, r, 2, e, x);
  }

  /** From the return of `LoadLibraryA` on. */
  lemma LibraryAnswered(t: Site, env: Cpu -> Cpu, c: Cpu, r: Cpu, live: nat) returns (x: Exit<Cpu>)
    requires Entered(t, c, live) && Answers(t, env, c, live) && Midway(t, c, r, live) && r.eip == Here(t, 36)
    requires !Inside(ImageOf(t), Load32(r.mem, FunctionCell(t)))
    ensures Ends(t, env, r, x)
    ensures if r.eax == 0 then x.calls == [] && ReturnedZero(t, c, x.last, live) && x.last.mem == r.mem
            else
              && |x.calls| == 1 && AskedForFunction(t, r, x.calls[0])
              && Finished(t, c, env(x.calls[0]), x.last, live)
  {
    hide ImageOf, Stepper, Here, Load32, Store32, Add, Ends;
    TestLibrary(t, r);
    var e := AnswerTested(t, r, 40);
    if r.eax == 0 {
      GiveUpEnds(t, env, c, e, live);
      x := Exit(GivenUp(t, e), []);
    } else {
      CallFunction(t, e);
      FunctionCallOut(t, c, e, live);
      var d := FunctionCalled(t, e);
      HereDiffers(t);
      BackMidway(t, c, d, env(d), live, 8, Here(t, 54));
      var y := FunctionAnswered(t, env, c, env(d), live);
      EndsAfterCall(t, env, d, y);
      x := Exit(y.last, [d] + y.calls);
      EndsAfterSteps(t, env, e, 4, d, x);
    }
    EndsAfterSteps(t, env, r, 2, e, x);
  }

  lemma HereDiffers(t: Site)
    ensures Here(t, 36) != Here(t, 54)
  {
  }

  /** Some use of the resolver ends, with everything it promises. */
  lemma ResolverEnds(t: Site, env: Cpu -> Cpu, c: Cpu, live: nat) returns (x: Exit<Cpu>)
    requires Entered(t, c, live) && Answers(t, env, c, live)
    ensures Ends(t, env, c, x) && Resolved(t, env, c, live, x)
  {
    hide ImageOf, Stepper, Here, Load32, Store32, Add, Ends, AfterPrologue;
    Enter(t, c);
    var e0 := AfterPrologue(c, t.base, Add(t.base, t.rva));
    PrologueIsMidway(t, c, live);
    TestSlot(t, e0);
    var e := SlotTested(t, e0);
    PrologueKeepsScratch(c, t.base, Add(t.base, t.rva));
    if e.eax != 0 {
      LeaveEnds(t, env, c, e, live);
      x := Exit(Forwarded(e), []);
    } else {
      CallLibrary(t, e);
      LibraryCallOut(t, c, e, live);
      var d := LibraryCalled(t, e);
      BackMidway(t, c, d, env(d), live, 4, Here(t, 36));
      var y := LibraryAnswered(t, env, c, env(d), live);
      EndsAfterCall(t, env, d, y);
      x := Exit(y.last, [d] + y.calls);
      EndsAfterSteps(t, env, e, 3, d, x);
    }
    EndsAfterSteps(t, env, e0, 3, e, x);
    EndsAfterSteps(t, env, c, 4, e0, x);
  }

  lemma PrologueKeepsScratch(c: Cpu, base: u32, origin: u32)
    ensures AfterPrologue(c, base, origin).ecx == c.ecx && AfterPrologue(c, base, origin).edx == c.edx
  {
  }

  lemma EndsOnce(t: Site, env: Cpu -> Cpu, c: Cpu, x: Exit<Cpu>, y: Exit<Cpu>)
    requires SiteOk(t) && Ends(t, env, c, x) && Ends(t, env, c, y)
    ensures x == y
  {
    hide ImageOf;
    var img := ImageOf(t);
    var f: nat :| Execute(img, env, c, f) == Some(x);
    var g: nat :| Execute(img, env, c, g) == Some(y);
    if f <= g {
      RunMonotone(Stepper(img), (z: Cpu) => !Inside(img, z.eip), (z: Cpu) => CallsOut(img, z), env, c, f, g);
    } else {
      RunMonotone(Stepper(img), (z: Cpu) => !Inside(img, z.eip), (z: Cpu) => CallsOut(img, z), env, c, g, f);
    }
  }

  /**
   The resolver is a transparent tail call, wherever it is loaded and whatever its environment
   answers: every use of it ends, and every end is as promised.
  */
  lemma ResolverIsTransparent(t: Site, env: Cpu -> Cpu, c: Cpu, live: nat)
    requires Entered(t, c, live) && Answers(t, env, c, live)
    ensures exists x :: Ends(t, env, c, x)
    ensures forall x :: Ends(t, env, c, x) ==> Resolved(t, env, c, live, x)
  {
    hide ImageOf, Ends, Resolved;
    var x := ResolverEnds(t, env, c, live);
    forall y | Ends(t, env, c, y) ensures Resolved(t, env, c, live, y) {
      EndsOnce(t, env, c, x, y);
    }
  }

  /** After one success, every use while the slot keeps its value goes straight there, with no call at all. */
  lemma NoSecondLookup(
    t: Site, env: Cpu -> Cpu, c: Cpu, live: nat, x: Exit<Cpu>,
    env2: Cpu -> Cpu, c2: Cpu, live2: nat, y: Exit<Cpu>)
    requires Entered(t, c, live) && Answers(t, env, c, live) && Ends(t, env, c, x)
    requires |x.calls| == 2 && env(x.calls[1]).eax != 0
    requires Entered(t, c2, live2) && Answers(t, env2, c2, live2) && Ends(t, env2, c2, y)
    requires Load32(c2.mem, Slot(t)) == Load32(x.last.mem, Slot(t))
    ensures y.calls == [] && TailCalled(c2, y.last, env(x.calls[1]).eax, live2)
  {
    hide ImageOf, Ends, Load32, Store32, Add;
    ResolverIsTransparent(t, env, c, live);
    ResolverIsTransparent(t, env2, c2, live2);
  }
}
