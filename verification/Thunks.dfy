/**
 The two generators of position-independent machine code, byte by byte as they append and
 patch, each proved to emit the assembly of a fixed program.
*/
module Thunks {
  import opened Bytes
  import opened Sequences
  import opened Pieces
  import opened X86
  import opened X86Machine

  const STRINGS_RVA: u32 := 0x73A00
  const LOAD_LIBRARY_A_IAT_RVA: u32 := 0x2D10C
  const GET_PROC_ADDRESS_IAT_RVA: u32 := 0x2D0B8
  const RESOLVER_STRIDE := 0x50

  const HOOK_RVA: u32 := 0x73C00
  const JOB_SLOT_RVA: u32 := 0x6A5C4
  const EXTENDED_LIMITS: u8 := 9
  const KILL_ON_CLOSE: u32 := 0x2000

  predicate Fits32(v: int) { 0 <= v < WORD }

  predicate Fits16(v: int) { 0 <= v < 0x1_0000 }

  /** The packed operands of the resolver. */
  datatype Operands = Operands(
    anchor: seq<u8>, slot: seq<u8>, name: seq<u8>, pops: seq<u8>,
    strings: seq<u8>, loadLibrary: seq<u8>, getProcAddress: seq<u8>)

  predicate Sized(w: Operands) {
    && |w.anchor| == |w.slot| == |w.name| == |w.strings| == |w.loadLibrary| == |w.getProcAddress| == 4
    && |w.pops| == 2
  }

  /** The bytes of instruction `k` of the resolver; the three short displacements are given. */
  function ResolverPiece(k: nat, w: Operands, toJump: u8, noLibrary: u8, noFunction: u8): seq<u8>
    requires k < 24
  {
    match k
    case 0 => [0x53]                          // push ebx
    case 1 => [0xE8, 0, 0, 0, 0]              // call the next instruction
    case 2 => [0x5B]                          // pop ebx
    case 3 => [0x81, 0xEB] + w.anchor         // sub ebx, rva + 6
    case 4 => [0x8B, 0x83] + w.slot           // mov eax, [ebx + slot]
    case 5 => [0x85, 0xC0]                    // test eax, eax
    case 6 => [0x75, toJump]                  // jne success
    case 7 => [0x8D, 0x83] + w.strings        // lea eax, [ebx + library name]
    case 8 => [0x50]                          // push eax
    case 9 => [0xFF, 0x93] + w.loadLibrary    // call [ebx + LoadLibraryA]
    case 10 => [0x85, 0xC0]                   // test eax, eax
    case 11 => [0x74, noLibrary]              // je failure
    case 12 => [0x8D, 0x8B] + w.name          // lea ecx, [ebx + function name]
    case 13 => [0x51]                         // push ecx
    case 14 => [0x50]                         // push eax
    case 15 => [0xFF, 0x93] + w.getProcAddress // call [ebx + GetProcAddress]
    case 16 => [0x85, 0xC0]                   // test eax, eax
    case 17 => [0x74, noFunction]             // je failure
    case 18 => [0x89, 0x83] + w.slot          // mov [ebx + slot], eax
    case 19 => [0x5B]                         // success: pop ebx
    case 20 => [0xFF, 0xE0]                   // jmp eax
    case 21 => [0x5B]                         // failure: pop ebx
    case 22 => [0x31, 0xC0]                   // xor eax, eax
    case _ => [0xC2] + w.pops                 // ret pops
  }

  function ResolverPieces(w: Operands, toJump: u8, noLibrary: u8, noFunction: u8): seq<seq<u8>> {
    seq(24, k requires 0 <= k < 24 => ResolverPiece(k, w, toJump, noLibrary, noFunction))
  }

  function Packed(rva: u32, slot: u32, name: u32, pops: int): Operands
    requires rva + 6 < WORD && Fits16(pops)
  {
    Operands(Le32(rva + 6), Le32(slot), Le32(name), [pops % 0x100, pops / 0x100],
             Le32(STRINGS_RVA), Le32(LOAD_LIBRARY_A_IAT_RVA), Le32(GET_PROC_ADDRESS_IAT_RVA))
  }

  function Resolver(rva: u32, slot: u32, name: u32, pops: int): seq<seq<u8>>
    requires rva + 6 < WORD && Fits16(pops)
  {
    ResolverPieces(Packed(rva, slot, name, pops), 41, 27, 9)
  }

  /** The packed operands of the job hook. */
  datatype HookOperands = HookOperands(anchor: seq<u8>, mask: seq<u8>, slot: seq<u8>)

  function HookPieces(w: HookOperands, notExtended: u8, nullPointer: u8): seq<seq<u8>> {
    [ [0x53],                                            // push ebx
      [0xE8, 0, 0, 0, 0],                                // call the next instruction
      [0x5B],                                            // pop ebx
      [0x81, 0xEB] + w.anchor,                           // sub ebx, HOOK_RVA + 6
      [0x83, 0x7C, 0x24, 0x0C, EXTENDED_LIMITS],         // cmp [esp + 12], 9
      [0x75, notExtended],                               // jne forward
      [0x8B, 0x44, 0x24, 0x10],                          // mov eax, [esp + 16]
      [0x85, 0xC0],                                      // test eax, eax
      [0x74, nullPointer],                               // je forward
      [0x81, 0x60, 0x10] + w.mask,                       // and [eax + 16], mask
      [0x8B, 0x83] + w.slot,                             // forward: mov eax, [ebx + slot]
      [0x5B],                                            // pop ebx
      [0xFF, 0xE0] ]                                     // jmp eax
  }

  function PackedHook(): HookOperands {
    HookOperands(Le32(HOOK_RVA + 6), Le32(WORD - 1 - KILL_ON_CLOSE), Le32(JOB_SLOT_RVA))
  }

  function Hook(): seq<seq<u8>> {
    HookPieces(PackedHook(), 15, 7)
  }

  lemma ResolverStarts(w: Operands, a: u8, b: u8, c: u8)
    requires Sized(w)
    ensures var p := ResolverPieces(w, a, b, c);
      && |p| == 24
      && Start(p, 0) == 0 && Start(p, 1) == 1 && Start(p, 2) == 6 && Start(p, 3) == 7 && Start(p, 4) == 13
      && Start(p, 5) == 19 && Start(p, 6) == 21 && Start(p, 7) == 23 && Start(p, 8) == 29 && Start(p, 9) == 30
      && Start(p, 10) == 36 && Start(p, 11) == 38 && Start(p, 12) == 40 && Start(p, 13) == 46 && Start(p, 14) == 47
      && Start(p, 15) == 48 && Start(p, 16) == 54 && Start(p, 17) == 56 && Start(p, 18) == 58 && Start(p, 19) == 64
      && Start(p, 20) == 65 && Start(p, 21) == 67 && Start(p, 22) == 68 && Start(p, 23) == 70 && Start(p, 24) == 73
  {
    hide ResolverPieces, Start;
    FirstStarts(w, a, b, c);
    MiddleStarts(w, a, b, c);
    LastStarts(w, a, b, c);
  }

  lemma FirstStarts(w: Operands, a: u8, b: u8, c: u8)
    requires Sized(w)
    ensures var p := ResolverPieces(w, a, b, c);
      && |p| == 24
      && Start(p, 0) == 0 && Start(p, 1) == 1 && Start(p, 2) == 6 && Start(p, 3) == 7 && Start(p, 4) == 13
      && Start(p, 5) == 19 && Start(p, 6) == 21 && Start(p, 7) == 23 && Start(p, 8) == 29
  {
    var p := ResolverPieces(w, a, b, c);
    assert Start(p, 2) == 6 && Start(p, 4) == 13;
    assert Start(p, 6) == 21;
  }

  lemma MiddleStarts(w: Operands, a: u8, b: u8, c: u8)
    requires Sized(w) && |ResolverPieces(w, a, b, c)| == 24 && Start(ResolverPieces(w, a, b, c), 8) == 29
    ensures var p := ResolverPieces(w, a, b, c);
      && Start(p, 9) == 30 && Start(p, 10) == 36 && Start(p, 11) == 38 && Start(p, 12) == 40 && Start(p, 13) == 46
      && Start(p, 14) == 47 && Start(p, 15) == 48 && Start(p, 16) == 54
  {
    var p := ResolverPieces(w, a, b, c);
    assert Start(p, 10) == 36 && Start(p, 12) == 40;
    assert Start(p, 14) == 47;
  }

  lemma LastStarts(w: Operands, a: u8, b: u8, c: u8)
    requires Sized(w) && |ResolverPieces(w, a, b, c)| == 24 && Start(ResolverPieces(w, a, b, c), 16) == 54
    ensures var p := ResolverPieces(w, a, b, c);
      && Start(p, 17) == 56 && Start(p, 18) == 58 && Start(p, 19) == 64 && Start(p, 20) == 65 && Start(p, 21) == 67
      && Start(p, 22) == 68 && Start(p, 23) == 70 && Start(p, 24) == 73
  {
    var p := ResolverPieces(w, a, b, c);
    assert Start(p, 18) == 58 && Start(p, 20) == 65;
    assert Start(p, 22) == 68;
  }

  lemma HookStarts(w: HookOperands, a: u8, b: u8)
    requires |w.anchor| == |w.mask| == |w.slot| == 4
    ensures var p := HookPieces(w, a, b);
      && |p| == 13
      && Start(p, 0) == 0 && Start(p, 1) == 1 && Start(p, 2) == 6 && Start(p, 3) == 7 && Start(p, 4) == 13
      && Start(p, 5) == 18 && Start(p, 6) == 20 && Start(p, 7) == 24 && Start(p, 8) == 26 && Start(p, 9) == 28
      && Start(p, 10) == 35 && Start(p, 11) == 41 && Start(p, 12) == 42 && Start(p, 13) == 44
  {
    var p := HookPieces(w, a, b);
    assert Start(p, 2) == 6 && Start(p, 4) == 13;
    assert Start(p, 6) == 20 && Start(p, 8) == 26;
    assert Start(p, 10) == 35 && Start(p, 12) == 42;
  }

  // ----- the generators -----

  /** Appends the bytes of piece `n`. */
  method Emit(code: seq<u8>, bytes: seq<u8>, ghost pieces: seq<seq<u8>>, ghost n: nat) returns (r: seq<u8>)
    requires n < |pieces| && code == Flatten(pieces, n) && bytes == pieces[n]
    ensures r == Flatten(pieces, n + 1)
  {
    r := code + bytes;
  }

  /** Appends the bytes of piece `n` of the unpatched resolver. */
  method EmitPiece(code: seq<u8>, bytes: seq<u8>, ghost w: Operands, ghost n: nat) returns (r: seq<u8>)
    requires n < 24 && code == Flatten(ResolverPieces(w, 0, 0, 0), n) && bytes == ResolverPiece(n, w, 0, 0, 0)
    ensures r == Flatten(ResolverPieces(w, 0, 0, 0), n + 1)
    ensures |code| == Start(ResolverPieces(w, 0, 0, 0), n)
  {
    r := code + bytes;
  }

  lemma NothingEmitted(w: Operands)
    ensures |ResolverPieces(w, 0, 0, 0)| == 24 && Flatten(ResolverPieces(w, 0, 0, 0), 0) == []
  {
  }

  /** The resolver up to and including its call of `LoadLibraryA`. */
  method EmitLibraryPart(w: Operands) returns (code: seq<u8>, cachedJump: nat, loadFailure: nat)
    ensures code == Flatten(ResolverPieces(w, 0, 0, 0), 12)
    ensures cachedJump == Start(ResolverPieces(w, 0, 0, 0), 6) && loadFailure == Start(ResolverPieces(w, 0, 0, 0), 11)
  {
    hide Flatten, Start, ResolverPieces;
    NothingEmitted(w);
    code := EmitPiece([], [0x53], w, 0);
    code := EmitPiece(code, [0xE8, 0x00, 0x00, 0x00, 0x00], w, 1);
    code := EmitPiece(code, [0x5B], w, 2);
    code := EmitPiece(code, [0x81, 0xEB] + w.anchor, w, 3);
    code := EmitPiece(code, [0x8B, 0x83] + w.slot, w, 4);
    code := EmitPiece(code, [0x85, 0xC0], w, 5);
    cachedJump := |code|;
    code := EmitPiece(code, [0x75, 0x00], w, 6);
    code := EmitPiece(code, [0x8D, 0x83] + w.strings, w, 7);
    code := EmitPiece(code, [0x50], w, 8);
    code := EmitPiece(code, [0xFF, 0x93] + w.loadLibrary, w, 9);
    code := EmitPiece(code, [0x85, 0xC0], w, 10);
    loadFailure := |code|;
    code := EmitPiece(code, [0x74, 0x00], w, 11);
  }

  /** The call of `GetProcAddress` and the store of its answer. */
  method EmitFunctionPart(head: seq<u8>, w: Operands, ghost n: nat) returns (code: seq<u8>, procFailure: nat)
    requires n == 12 && head == Flatten(ResolverPieces(w, 0, 0, 0), n)
    ensures code == Flatten(ResolverPieces(w, 0, 0, 0), n + 6)
      && procFailure == Start(ResolverPieces(w, 0, 0, 0), n + 5)
  {
    hide Flatten, Start, ResolverPieces;
    NothingEmitted(w);
    code := EmitPiece(head, [0x8D, 0x8B] + w.name, w, n);
    code := EmitPiece(code, [0x51], w, n + 1);
    code := EmitPiece(code, [0x50], w, n + 2);
    code := EmitPiece(code, [0xFF, 0x93] + w.getProcAddress, w, n + 3);
    code := EmitPiece(code, [0x85, 0xC0], w, n + 4);
    procFailure := |code|;
    code := EmitPiece(code, [0x74, 0x00], w, n + 5);
  }

  /** The two exits: saving the answer and the tail jump, and the return of zero. */
  method EmitExits(head: seq<u8>, w: Operands, ghost n: nat) returns (code: seq<u8>, success: nat, failure: nat)
    requires n == 18 && head == Flatten(ResolverPieces(w, 0, 0, 0), n)
    ensures code == Flatten(ResolverPieces(w, 0, 0, 0), n + 6)
    ensures success == Start(ResolverPieces(w, 0, 0, 0), n + 1) && failure == Start(ResolverPieces(w, 0, 0, 0), n + 3)
  {
    hide Flatten, Start, ResolverPieces;
    NothingEmitted(w);
    code := EmitPiece(head, [0x89, 0x83] + w.slot, w, n);
    success := |code|;
    code := EmitPiece(code, [0x5B], w, n + 1);
    code := EmitPiece(code, [0xFF, 0xE0], w, n + 2);
    failure := |code|;
    code := EmitPiece(code, [0x5B], w, n + 3);
    code := EmitPiece(code, [0x31, 0xC0], w, n + 4);
    code := EmitPiece(code, [0xC2] + w.pops, w, n + 5);
  }

  /** Refuses arguments that `struct.pack` refuses; the range checks on the branches never fail. */
  method EmitResolver(rva: nat, slot: int, name: int, pops: int) returns (r: Option<seq<u8>>)
    ensures r.Some? <==> Fits32(rva + 6) && Fits32(slot) && Fits32(name) && Fits16(pops)
    ensures r.Some? ==> r.value == Flatten(Resolver(rva, slot, name, pops), 24) && |r.value| == 73 <= RESOLVER_STRIDE
  {
    if !Fits32(rva + 6) || !Fits32(slot) || !Fits32(name) || !Fits16(pops) { return None; }
    var w := Packed(rva, slot, name, pops);
    var code, cachedJump, loadFailure := EmitLibraryPart(w);
    var procFailure: nat, success: nat, failure: nat;
    code, procFailure := EmitFunctionPart(code, w, 12);
    code, success, failure := EmitExits(code, w, 18);
    ResolverStarts(w, 0, 0, 0);
    code := PatchBranches(code, [(cachedJump, success), (loadFailure, failure), (procFailure, failure)], w);
    r := Some(code);
  }

  /** The first `n` branches patched. */
  ghost function Patched(w: Operands, n: nat): seq<seq<u8>> {
    ResolverPieces(w, if n > 0 then 41 else 0, if n > 1 then 27 else 0, if n > 2 then 9 else 0)
  }

  lemma PatchOne(w: Operands, n: nat, k: nat, d: u8)
    requires (n == 0 && k == 6 && d == 41) || (n == 1 && k == 11 && d == 27) || (n == 2 && k == 17 && d == 9)
    ensures Start(Patched(w, n), k) + 1 < Start(Patched(w, n), 24)
    ensures Flatten(Patched(w, n), 24)[Start(Patched(w, n), k) + 1 := d] == Flatten(Patched(w, n + 1), 24)
  {
    var p, q := Patched(w, n), Patched(w, n + 1);
    var piece: seq<u8> := p[k];
    PatchedPieces(w, n, k, d);
    hide Patched, Flatten, Start;
    PatchPiece(p, 24, k, 1, d);
    assert p[k := piece[1 := d]] == q;
  }

  /** Only the patched piece differs, and only in its displacement. */
  lemma PatchedPieces(w: Operands, n: nat, k: nat, d: u8)
    requires (n == 0 && k == 6 && d == 41) || (n == 1 && k == 11 && d == 27) || (n == 2 && k == 17 && d == 9)
    ensures var p, q := Patched(w, n), Patched(w, n + 1);
      && |p| == |q| == 24 && |p[k]| == 2 && p[k][1 := d] == q[k]
      && forall j :: 0 <= j < 24 && j != k ==> p[j] == q[j]
  {
  }

  /** The back-patching loop; its range check is a fact about the layout. */
  method PatchBranches(open: seq<u8>, branches: seq<(nat, nat)>, ghost w: Operands) returns (code: seq<u8>)
    requires Sized(w) && open == Flatten(Patched(w, 0), 24)
    requires branches == [(21, 64), (38, 67), (56, 67)]
    ensures code == Flatten(ResolverPieces(w, 41, 27, 9), 24) && |code| == 73
  {
    code := open;
    for n := 0 to |branches|
      invariant code == Flatten(Patched(w, n), 24)
    {
      var (jump, target) := branches[n];
      var displacement := target - (jump + 2);
      assert -128 <= displacement <= 127;
      ResolverStarts(w, if n > 0 then 41 else 0, if n > 1 then 27 else 0, if n > 2 then 9 else 0);
      PatchOne(w, n, [6, 11, 17][n], displacement % 0x100);
      code := code[jump + 1 := displacement % 0x100];
    }
    ResolverStarts(w, 41, 27, 9);
  }

  method EmitHookEntry(w: HookOperands) returns (code: seq<u8>)
    ensures code == Flatten(HookPieces(w, 0, 0), 4)
  {
    hide Start;
    ghost var pieces := HookPieces(w, 0, 0);
    code := Emit([], [0x53], pieces, 0);
    code := Emit(code, [0xE8, 0x00, 0x00, 0x00, 0x00], pieces, 1);
    code := Emit(code, [0x5B], pieces, 2);
    code := Emit(code, [0x81, 0xEB] + w.anchor, pieces, 3);
  }

  /** The job hook up to the `and` that clears the bit. */
  method EmitHookHead(w: HookOperands) returns (code: seq<u8>, notExtended: nat, nullInformation: nat)
    ensures code == Flatten(HookPieces(w, 0, 0), 9)
    ensures notExtended == Start(HookPieces(w, 0, 0), 5) && nullInformation == Start(HookPieces(w, 0, 0), 8)
  {
    hide Start;
    ghost var pieces := HookPieces(w, 0, 0);
    code := EmitHookEntry(w);
    code := Emit(code, [0x83, 0x7C, 0x24, 0x0C] + [EXTENDED_LIMITS], pieces, 4);
    notExtended := |code|;
    code := Emit(code, [0x75, 0x00], pieces, 5);
    code := Emit(code, [0x8B, 0x44, 0x24, 0x10], pieces, 6);
    code := Emit(code, [0x85, 0xC0], pieces, 7);
    nullInformation := |code|;
    code := Emit(code, [0x74, 0x00], pieces, 8);
  }

  /** The job hook's generator: the same way of growing and patching. */
  method EmitHook() returns (code: seq<u8>)
    ensures code == Flatten(Hook(), 13) && |code| == 44
  {
    var w := PackedHook();
    var notExtended: nat, nullInformation: nat;
    code, notExtended, nullInformation := EmitHookHead(w);
    ghost var pieces := HookPieces(w, 0, 0);
    code := Emit(code, [0x81, 0x60, 0x10] + w.mask, pieces, 9);
    var forward := |code|;
    code := Emit(code, [0x8B, 0x83] + w.slot, pieces, 10);
    code := Emit(code, [0x5B], pieces, 11);
    code := Emit(code, [0xFF, 0xE0], pieces, 12);
    HookStarts(w, 0, 0);
    code := PatchHookBranches(code, [notExtended, nullInformation], forward, w);
  }

  method PatchHookBranches(open: seq<u8>, branches: seq<nat>, forward: nat, ghost w: HookOperands)
    returns (code: seq<u8>)
    requires |w.anchor| == |w.mask| == |w.slot| == 4
    requires open == Flatten(HookPieces(w, 0, 0), 13) && branches == [18, 26] && forward == 35
    ensures code == Flatten(HookPieces(w, 15, 7), 13) && |code| == 44
  {
    code := open;
    for n := 0 to |branches|
      invariant code == Flatten(HookPieces(w, if n > 0 then 15 else 0, if n > 1 then 7 else 0), 13)
    {
      var displacement := forward - (branches[n] + 2);
      assert -128 <= displacement <= 127;
      HookStarts(w, if n > 0 then 15 else 0, 0);
      PatchHook(w, n, [5, 8][n], displacement % 0x100);
      code := code[branches[n] + 1 := displacement % 0x100];
    }
    HookStarts(w, 15, 7);
  }

  lemma PatchHook(w: HookOperands, n: nat, k: nat, d: u8)
    requires (n == 0 && k == 5 && d == 15) || (n == 1 && k == 8 && d == 7)
    ensures var p, q := HookPieces(w, if n > 0 then 15 else 0, 0), HookPieces(w, 15, if n > 0 then 7 else 0);
      Start(p, k) + 1 < Start(p, 13) && Flatten(p, 13)[Start(p, k) + 1 := d] == Flatten(q, 13)
  {
    var p, q := HookPieces(w, if n > 0 then 15 else 0, 0), HookPieces(w, 15, if n > 0 then 7 else 0);
    var piece: seq<u8> := p[k];
    PatchPiece(p, 13, k, 1, d);
    assert piece[1 := d] == q[k];
    assert forall j :: 0 <= j < 13 && j != k ==> p[j] == q[j];
    assert p[k := piece[1 := d]] == q;
  }

  // ----- the branch from the export -----

  /** `struct.pack("<i", ...)` of the distance to the target, behind the opcode. */
  function RelativeBranch(opcode: u8, source: int, target: int): Option<seq<u8>> {
    var d := target - (source + 5);
    if -0x8000_0000 <= d < 0x8000_0000 then Some([opcode] + Le32(d % WORD)) else None
  }

  /** The distance from behind a branch at `source` fits the 32 signed bits it has for it. */
  predicate Reaches(source: int, target: int) { -0x8000_0000 <= target - (source + 5) < 0x8000_0000 }

  /** A branch is made exactly when it reaches, and within one image every branch does. */
  lemma BranchIsMade(opcode: u8, source: int, target: int)
    ensures RelativeBranch(opcode, source, target).Some? <==> Reaches(source, target)
    ensures 0 <= source < 0x7FFF_FFFB && 0 <= target < 0x8000_0000 ==> RelativeBranch(opcode, source, target).Some?
  {
  }

  /** At every load base the patched export goes straight to the resolver and touches nothing. */
  lemma BranchArrives(base: u32, source: u32, target: u32, c: Cpu)
    requires Reaches(source, target) && c.eip == Add(base, source)
    ensures RelativeBranch(0xE9, source, target).Some?
    ensures var img := Image(RelativeBranch(0xE9, source, target).value + [0x90], Add(base, source));
      Stepper(img)(c) == Some(c.(eip := Add(base, target), called := false))
  {
    var d := target - (source + 5);
    var bytes := [0xE9] + Le32(d % WORD);
    var img := Image(bytes + [0x90], Add(base, source));
    DecodeEncode(JmpRel(d % WORD), [0x90]);
    DistanceOf(Add(base, source), 0);
    AddZero(Add(base, source));
    assert img.code[0..] == Encode(JmpRel(d % WORD)) + [0x90];
    AddAdd(base, source, 5);
    AddAdd(base, source + 5, d);
    SignedDistance(d);
  }

  lemma SignedDistance(d: int)
    requires -0x8000_0000 <= d < 0x8000_0000
    ensures Signed32(d % WORD) == d
  {
  }
}
