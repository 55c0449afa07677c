/** The whole rebuild, from the two export lists to the output file, against a reader of that file. */
module PeRebuild {
  import opened Bits
  import opened Bytes
  import opened PeAlign
  import opened PeBlob
  import opened PeNames
  import opened PeReader
  import opened PeSection
  import opened Sequences

  // ----- the reader of the whole file -----

  /** The section whose header is at `at` holds the address. */
  predicate Holds(file: seq<u8>, at: nat, rva: nat) {
    var va, size, raw := Dword(file, at + 12), Dword(file, at + 8), Dword(file, at + 16);
    va <= rva < va + if size > raw then size else raw
  }

  /** The first section from `k` on that holds the address, in a table of `n` at `table`. */
  function SectionHolding(file: seq<u8>, table: nat, n: nat, rva: nat, k: nat): (r: nat)
    requires k <= n
    ensures k <= r <= n && (r < n ==> Holds(file, table + 40 * r, rva))
    ensures forall i :: k <= i < r ==> !Holds(file, table + 40 * i, rva)
    decreases n - k
  {
    if k == n || Holds(file, table + 40 * k, rva) then k else SectionHolding(file, table, n, rva, k + 1)
  }

  /** The bytes from `rva` on of the section whose header is at `at`, as the loader maps them. */
  function BytesFrom(file: seq<u8>, at: nat, rva: nat): seq<u8> {
    var start, size, skip := Dword(file, at + 20), Dword(file, at + 16), rva - Dword(file, at + 12);
    if start + size <= |file| && 0 <= skip <= size then file[start + skip..start + size] else []
  }

  /** What importing `name` resolves to, from the file whose PE header is at `lfanew` and nothing else. */
  function Import(file: seq<u8>, lfanew: nat, name: Name): Option<Found> {
    var n, table := Hword(file, lfanew + 6), lfanew + 24 + Hword(file, lfanew + 20);
    var directory, size := Dword(file, lfanew + 120), Dword(file, lfanew + 124);
    var k := SectionHolding(file, table, n, directory, 0);
    if k == n then None else LookUp(BytesFrom(file, table + 40 * k, directory), directory, size, name)
  }

  lemma FieldKept(data: seq<u8>, h: Headers, out: seq<u8>, o: nat, n: nat)
    requires o + n <= |data| <= |out|
    requires forall i :: 0 <= i < |data| && !h.Touched(i) ==> out[i] == data[i]
    requires forall i :: o <= i < o + n ==> !h.Touched(i)
    ensures n == 2 ==> Hword(out, o) == Hword(data, o)
    ensures n == 4 ==> Dword(out, o) == Dword(data, o)
  {
    assert forall i :: o <= i < o + n ==> out[i] == data[i];
  }

  /** The rebuild leaves the headers of the input's sections alone. */
  lemma OldHeadersKept(data: seq<u8>, h: Headers, out: seq<u8>, k: nat)
    requires h.Fits(data) && h.Describes(data) && k < |h.sections| && |data| <= |out|
    requires forall i :: 0 <= i < |data| && !h.Touched(i) ==> out[i] == data[i]
    ensures DescribedAt(out, h.SectionAt(k), h.sections[k]) && Hword(out, h.lfanew + 20) == h.optionalSize
  {
    hide Dword, Hword;
    var at := h.SectionAt(k);
    FieldKept(data, h, out, at + 8, 4);
    FieldKept(data, h, out, at + 12, 4);
    FieldKept(data, h, out, at + 16, 4);
    FieldKept(data, h, out, at + 20, 4);
    FieldKept(data, h, out, h.lfanew + 20, 2);
  }

  /** Of all sections of the output, the new one and no other holds the export directory. */
  lemma OnlyTheNewHolds(data: seq<u8>, h: Headers, blob: seq<u8>, checksum: u32, out: seq<u8>, k: nat)
    requires h.Fits(data) && h.Describes(data) && blob != [] && Appended(data, h, blob, checksum, out)
    requires k <= |h.sections|
    ensures Holds(out, h.SectionAt(k), PlaceFor(h, |data|, |blob|).va) <==> k == |h.sections|
  {
    hide Dword, Hword, PlaceFor;
    if k < |h.sections| {
      OldHeadersKept(data, h, out, k);
      NewSectionIsClear(h, |data|, |blob|, k);
    }
  }

  lemma SearchStops(file: seq<u8>, table: nat, n: nat, rva: nat, k: nat)
    requires k < n && forall i :: 0 <= i < n ==> (Holds(file, table + 40 * i, rva) <==> i == k)
    ensures SectionHolding(file, table, n, rva, 0) == k
  {
    hide Holds;
    assert Holds(file, table + 40 * k, rva);
    var r := SectionHolding(file, table, n, rva, 0);
  }

  lemma SearchFindsNew(data: seq<u8>, h: Headers, blob: seq<u8>, checksum: u32, out: seq<u8>)
    requires h.Fits(data) && h.Describes(data) && blob != [] && Appended(data, h, blob, checksum, out)
    ensures var p, n := PlaceFor(h, |data|, |blob|), |h.sections| + 1;
      SectionHolding(out, h.SectionAt(0), n, p.va, 0) == |h.sections|
  {
    hide PlaceFor, Holds, SectionHolding, Appended;
    var p, n, table := PlaceFor(h, |data|, |blob|), |h.sections| + 1, h.SectionAt(0);
    forall k | 0 <= k < n ensures Holds(out, table + 40 * k, p.va) <==> k == |h.sections| {
      OnlyTheNewHolds(data, h, blob, checksum, out, k);
    }
    SearchStops(out, table, n, p.va, |h.sections|);
  }

  /** So the search finds the padded blob. */
  lemma FindsNewSection(data: seq<u8>, h: Headers, blob: seq<u8>, checksum: u32, out: seq<u8>, name: Name)
    requires h.Fits(data) && h.Describes(data) && blob != [] && Appended(data, h, blob, checksum, out)
    ensures var p := PlaceFor(h, |data|, |blob|);
      && |blob| <= p.size
      && Import(out, h.lfanew, name) == LookUp(blob + Zeros(p.size - |blob|), p.va, p.size, name)
  {
    hide Dword, Hword, PlaceFor, LookUp, Holds, SectionHolding, BytesFrom, Appended;
    SearchFindsNew(data, h, blob, checksum, out);
    NewBytes(data, h, blob, checksum, out);
  }

  lemma NewBytes(data: seq<u8>, h: Headers, blob: seq<u8>, checksum: u32, out: seq<u8>)
    requires h.Fits(data) && h.Describes(data) && Appended(data, h, blob, checksum, out)
    ensures Hword(out, h.lfanew + 20) == h.optionalSize
    ensures var p := PlaceFor(h, |data|, |blob|);
      && |blob| <= p.size && Dword(out, h.ExportEntryAt()) == p.va && Dword(out, h.ExportEntryAt() + 4) == p.size
      && Hword(out, h.NumberOfSectionsAt()) == |h.sections| + 1
      && BytesFrom(out, h.NewHeaderAt(), p.va) == blob + Zeros(p.size - |blob|)
  {
    hide Dword, Hword, PlaceFor;
    var p := PlaceFor(h, |data|, |blob|);
    OldHeadersKept(data, h, out, 0);
    assert out[p.raw..p.raw + p.size] == out[p.raw..];
  }

  // ----- the output is a file a loader takes -----

  /** Where the section whose header is at `at` ends in memory. */
  function EndOf(file: seq<u8>, at: nat): nat {
    var size, raw := Dword(file, at + 8), Dword(file, at + 16);
    Dword(file, at + 12) + if size > raw then size else raw
  }

  /** The section's bytes are in the file and its place is in the image. */
  predicate Placeable(file: seq<u8>, at: nat, imageSize: nat) {
    at + 40 <= |file| && Dword(file, at + 20) + Dword(file, at + 16) <= |file| && EndOf(file, at) <= imageSize
  }

  /** No two sections share an address. */
  predicate Clear(file: seq<u8>, at: nat, other: nat) {
    EndOf(file, at) <= Dword(file, other + 12) || EndOf(file, other) <= Dword(file, at + 12)
  }

  /** What a loader asks of the section table. */
  ghost predicate Loadable(file: seq<u8>, lfanew: nat) {
    var n, table := Hword(file, lfanew + 6), lfanew + 24 + Hword(file, lfanew + 20);
    && (forall k :: 0 <= k < n ==> Placeable(file, table + 40 * k, Dword(file, lfanew + 80)))
    && forall j, k :: 0 <= j < k < n ==> Clear(file, table + 40 * j, table + 40 * k)
  }

  /** The rebuild keeps a loadable file loadable. */
  lemma StaysLoadable(data: seq<u8>, h: Headers, blob: seq<u8>, checksum: u32, out: seq<u8>)
    requires h.Fits(data) && h.Describes(data) && Appended(data, h, blob, checksum, out) && Loadable(data, h.lfanew)
    ensures Loadable(out, h.lfanew)
  {
    hide Dword, Hword, PlaceFor, Holds, BytesFrom, Appended, Placeable, Clear;
    var n, table := |h.sections|, h.SectionAt(0);
    NewBytes(data, h, blob, checksum, out);
    LoaderFields(data, h, blob, checksum, out);
    forall k | 0 <= k < n + 1 ensures Placeable(out, table + 40 * k, Dword(out, h.lfanew + 80)) {
      if k < n { assert Placeable(data, table + 40 * k, Dword(data, h.lfanew + 80)); }
      StaysPlaceable(data, h, blob, checksum, out, k);
    }
    forall j, k | 0 <= j < k < n + 1 ensures Clear(out, table + 40 * j, table + 40 * k) {
      if k < n { assert Clear(data, table + 40 * j, table + 40 * k); }
      StaysClear(data, h, blob, checksum, out, j, k);
    }
  }

  lemma LoaderFields(data: seq<u8>, h: Headers, blob: seq<u8>, checksum: u32, out: seq<u8>)
    requires h.Fits(data) && h.Describes(data) && Appended(data, h, blob, checksum, out)
    ensures Hword(out, h.lfanew + 6) == |h.sections| + 1 && Hword(data, h.lfanew + 6) == |h.sections|
    ensures Dword(out, h.lfanew + 80) == PlaceFor(h, |data|, |blob|).imageSize
  {
    hide Dword, Hword, PlaceFor;
  }

  lemma StaysPlaceable(data: seq<u8>, h: Headers, blob: seq<u8>, checksum: u32, out: seq<u8>, k: nat)
    requires h.Fits(data) && h.Describes(data) && Appended(data, h, blob, checksum, out) && k <= |h.sections|
    requires k < |h.sections| ==> Placeable(data, h.SectionAt(k), Dword(data, h.lfanew + 80))
    ensures Placeable(out, h.SectionAt(k), PlaceFor(h, |data|, |blob|).imageSize)
  {
    hide Dword, Hword, PlaceFor;
    if k < |h.sections| {
      OldHeadersKept(data, h, out, k);
      NewSectionIsClear(h, |data|, |blob|, k);
    } else {
      NewSectionIsClear(h, |data|, |blob|, 0);
    }
  }

  lemma StaysClear(data: seq<u8>, h: Headers, blob: seq<u8>, checksum: u32, out: seq<u8>, j: nat, k: nat)
    requires h.Fits(data) && h.Describes(data) && Appended(data, h, blob, checksum, out) && j < k <= |h.sections|
    requires k < |h.sections| ==> Clear(data, h.SectionAt(j), h.SectionAt(k))
    ensures Clear(out, h.SectionAt(j), h.SectionAt(k))
  {
    hide Dword, Hword, PlaceFor;
    OldHeadersKept(data, h, out, j);
    NewSectionIsClear(h, |data|, |blob|, j);
    if k < |h.sections| { OldHeadersKept(data, h, out, k); }
  }

  // ----- zero padding behind the strings changes nothing that is read -----

  lemma DwordOfPrefix(s: seq<u8>, more: seq<u8>, o: nat)
    ensures o + 4 <= |s| ==> Dword(s + more, o) == Dword(s, o)
    ensures o + 2 <= |s| ==> Hword(s + more, o) == Hword(s, o)
  {
  }

  lemma TablesKeepUnderPadding(s: seq<u8>, more: seq<u8>, t: seq<Assignment>, count: nat, va: nat, first: nat)
    requires 40 + 4 * count + 6 * |t| <= |s|
    requires AddressesWritten(s, t, count, |t|) && PointersWritten(s, t, count, va, first, |t|)
    ensures AddressesWritten(s + more, t, count, |t|) && PointersWritten(s + more, t, count, va, first, |t|)
  {
    hide Dword, Hword, NameOffset, Entry;
    forall o | 0 <= o < count ensures Dword(s + more, Slot(40, o)) == Entry(t, |t|, o) {
      DwordOfPrefix(s, more, Slot(40, o));
    }
    forall k | 0 <= k < |t| ensures Dword(s + more, Slot(40 + 4 * count, k)) == va + NameOffset(t, first, k) {
      DwordOfPrefix(s, more, Slot(40 + 4 * count, k));
    }
    forall k | 0 <= k < |t| ensures Hword(s + more, HalfSlot(40 + 4 * count + 4 * |t|, k)) == t[k].ordinal - 1 {
      DwordOfPrefix(s, more, HalfSlot(40 + 4 * count + 4 * |t|, k));
    }
  }

  lemma DirectoryKeepsUnderPadding(s: seq<u8>, more: seq<u8>, t: seq<Assignment>, count: nat, va: nat, stamp: u32)
    requires 40 <= |s| && DirectoryWritten(s, t, count, va, stamp)
    ensures DirectoryWritten(s + more, t, count, va, stamp)
  {
    hide Dword, Hword;
    forall o | o in {0, 4, 8, 10, 12, 16, 20, 24, 28, 32, 36}
      ensures (o + 4 <= |s| ==> Dword(s + more, o) == Dword(s, o))
        && (o + 2 <= |s| ==> Hword(s + more, o) == Hword(s, o))
    {
      DwordOfPrefix(s, more, o);
    }
  }

  lemma WrittenKeepsUnderPadding(
    s: seq<u8>, more: seq<u8>, t: seq<Assignment>, count: nat, va: nat, library: Name, stamp: u32)
    requires Written(s, t, count, va, library, stamp)
    requires |s| == NameOffset(t, FirstName(t, count, library), |t|)
    ensures Written(s + more, t, count, va, library, stamp)
  {
    hide DirectoryWritten, AddressesWritten, PointersWritten, StringsWritten, StringIn, NameOffset, StringsAt;
    var first := FirstName(t, count, library);
    Layout(count, |t|);
    TablesKeepUnderPadding(s, more, t, count, va, first);
    DirectoryKeepsUnderPadding(s, more, t, count, va, stamp);
    StringsStay(s, more, t, first, |t|);
    StringStays(s, more, StringsAt(count, |t|), library);
  }

  // ----- the rebuild -----

  /** The bytes the names take up, each with its NUL. */
  function NameBytes(inputs: seq<Export>): nat {
    if inputs == [] then 0 else |inputs[0].name| + 1 + NameBytes(inputs[1..])
  }

  function Highest(inputs: seq<Export>, reference: map<Name, nat>): (count: nat)
    requires inputs != [] && AllKnown(inputs, reference)
    ensures IsHighest(count, inputs, reference)
  {
    GreatestIsHighest(inputs, reference);
    Greatest(WithOrdinals(inputs, reference))
  }

  /** The bytes of the tables and strings: they depend on the names and the highest ordinal, and on nothing else. */
  function SectionSize(inputs: seq<Export>, reference: map<Name, nat>, library: Name): nat
    requires inputs != [] && AllKnown(inputs, reference)
  {
    StringsAt(Highest(inputs, reference), |inputs|) + |library| + 1 + NameBytes(inputs)
  }

  /** Where the export section goes. */
  function NewPlace(data: seq<u8>, h: Headers, inputs: seq<Export>, reference: map<Name, nat>, library: Name): Place
    requires h.fileAlignment > 0 && h.sectionAlignment > 0 && h.sections != []
    requires inputs != [] && AllKnown(inputs, reference)
  {
    PlaceFor(h, |data|, SectionSize(inputs, reference, library))
  }

  /** Exactly when the rebuild produces a file: the reference suits the inputs and every number fits its field. */
  ghost predicate Succeeds(
    data: seq<u8>, h: Headers, inputs: seq<Export>, reference: map<Name, nat>, library: Name)
    requires h.Fits(data)
  {
    && Acceptable(inputs, reference)
    && (forall i :: 0 <= i < |inputs| ==> inputs[i].rva < WORD && reference[inputs[i].name] <= 0x1_0000)
    && Representable(h, NewPlace(data, h, inputs, reference, library))
  }

  /** The new export section would cover the address. */
  ghost predicate Taken(
    data: seq<u8>, h: Headers, inputs: seq<Export>, reference: map<Name, nat>, library: Name, rva: nat)
    requires h.Fits(data) && inputs != [] && AllKnown(inputs, reference)
  {
    var p := NewPlace(data, h, inputs, reference, library);
    Covers(p.va, p.size, rva)
  }

  function TableBytes(t: seq<Assignment>): nat {
    if t == [] then 0 else |t[0].name| + 1 + TableBytes(t[1..])
  }

  lemma {:induction false} InsertBytes(a: Assignment, t: seq<Assignment>)
    ensures TableBytes(Insert(a, t)) == |a.name| + 1 + TableBytes(t)
  {
    if t != [] && !Before(a.name, t[0].name) { InsertBytes(a, t[1..]); }
  }

  lemma {:induction false} SortBytes(t: seq<Assignment>)
    ensures TableBytes(Sort(t)) == TableBytes(t)
  {
    if t != [] {
      SortBytes(t[1..]);
      InsertBytes(t[0], Sort(t[1..]));
    }
  }

  lemma {:induction false} InputBytes(inputs: seq<Export>, reference: map<Name, nat>)
    requires AllKnown(inputs, reference)
    ensures TableBytes(WithOrdinals(inputs, reference)) == NameBytes(inputs)
  {
    if inputs != [] {
      InputBytes(inputs[1..], reference);
      assert WithOrdinals(inputs, reference)[1..] == WithOrdinals(inputs[1..], reference);
    }
  }

  lemma {:induction false} OffsetIsBytes(t: seq<Assignment>, first: nat, k: nat)
    requires k <= |t|
    ensures NameOffset(t, first, |t|) == NameOffset(t, first, k) + TableBytes(t[k..])
    decreases |t| - k
  {
    if k < |t| {
      OffsetIsBytes(t, first, k + 1);
      assert t[k..][1..] == t[k + 1..];
    }
  }

  /** The table the assignment hands on is as long as the inputs say. */
  lemma TableSize(inputs: seq<Export>, reference: map<Name, nat>, library: Name)
    requires AssignSpec(inputs, reference).Assigned?
    ensures inputs != [] && AllKnown(inputs, reference)
    ensures var Assigned(t, count) := AssignSpec(inputs, reference);
      NameOffset(t, FirstName(t, count, library), |t|) == SectionSize(inputs, reference, library)
  {
    hide Sort, Greatest, NameOffset, StringsAt;
    var Assigned(t, count) := AssignSpec(inputs, reference);
    var all := WithOrdinals(inputs, reference);
    SortBytes(all);
    SortKeepsMembers(all);
    InputBytes(inputs, reference);
    OffsetIsBytes(t, FirstName(t, count, library), 0);
    assert t[0..] == t && NameOffset(t, FirstName(t, count, library), 0) == FirstName(t, count, library) by {
      OffsetStart(t, FirstName(t, count, library));
    }
  }

  lemma OffsetStart(t: seq<Assignment>, first: nat)
    ensures NameOffset(t, first, 0) == first
  {
  }

  /** What the writers check one by one is what the inputs say. */
  lemma SucceedsExactly(data: seq<u8>, h: Headers, inputs: seq<Export>, reference: map<Name, nat>, library: Name)
    requires h.Fits(data) && DistinctNames(inputs) && AssignSpec(inputs, reference).Assigned?
    ensures var Assigned(t, count) := AssignSpec(inputs, reference);
      var size := NameOffset(t, FirstName(t, count, library), |t|);
      Packable(t, count, PlaceFor(h, |data|, 0).va, library) && Representable(h, PlaceFor(h, |data|, size)) <==>
      Succeeds(data, h, inputs, reference, library)
  {
    hide AssignSpec, NameOffset, FirstName, SectionSize, Acceptable, AlignUp, VirtualEnd, DistinctNames;
    var Assigned(t, count) := AssignSpec(inputs, reference);
    TableSize(inputs, reference, library);
    assert Acceptable(inputs, reference) by { OutcomeExplained(inputs, reference); }
    TableFits(inputs, reference);
    var first := FirstName(t, count, library);
    if Representable(h, PlaceFor(h, |data|, NameOffset(t, first, |t|))) {
      NewSectionIsClear(h, |data|, NameOffset(t, first, |t|), 0);
      forall k | 0 <= k < |t| ensures NameOffset(t, first, k) <= NameOffset(t, first, |t|) {
        NameOffsetGrows(t, first, k, |t|);
      }
    }
  }

  lemma TableFits(inputs: seq<Export>, reference: map<Name, nat>)
    requires DistinctNames(inputs) && AssignSpec(inputs, reference).Assigned? && AllKnown(inputs, reference)
    ensures var t := AssignSpec(inputs, reference).assignments;
      (forall k :: 0 <= k < |t| ==> t[k].rva < WORD && t[k].ordinal <= 0x1_0000) <==>
      forall i :: 0 <= i < |inputs| ==> inputs[i].rva < WORD && reference[inputs[i].name] <= 0x1_0000
  {
    hide AssignSpec, DistinctNames;
    var t := AssignSpec(inputs, reference).assignments;
    forall k | 0 <= k < |t| ensures t[k] in t {}
    forall a { TableIsInputs(inputs, reference, a); }
    forall i | 0 <= i < |inputs| ensures Assignment(inputs[i].name, reference[inputs[i].name], inputs[i].rva) in t {}
  }

  /** Every input export keeps its reference ordinal and its address. */
  ghost predicate Preserves(file: seq<u8>, lfanew: nat, inputs: seq<Export>, reference: map<Name, nat>) {
    && AllKnown(inputs, reference)
    && forall i :: 0 <= i < |inputs| ==>
      Import(file, lfanew, inputs[i].name) == Some(Found(reference[inputs[i].name], Address(inputs[i].rva)))
  }

  /** What every name resolves to, in a file whose export directory is at `va` with `size` bytes. */
  ghost predicate Answers(
    file: seq<u8>, lfanew: nat, inputs: seq<Export>, reference: map<Name, nat>, va: nat, size: nat)
  {
    && AllKnown(inputs, reference)
    && (forall i :: 0 <= i < |inputs| ==>
      Import(file, lfanew, inputs[i].name) == Some(Found(reference[inputs[i].name], TargetOf(inputs[i].rva, va, size))))
    && (forall name: Name :: (forall i :: 0 <= i < |inputs| ==> inputs[i].name != name) ==>
      Import(file, lfanew, name) == None)
  }

  /** The exact condition under which all addresses come through: none of them falls into the new section. */
  lemma PreservesExactly(
    file: seq<u8>, lfanew: nat, inputs: seq<Export>, reference: map<Name, nat>, va: nat, size: nat)
    requires Answers(file, lfanew, inputs, reference, va, size)
    ensures Preserves(file, lfanew, inputs, reference) <==>
      forall i :: 0 <= i < |inputs| ==> !Covers(va, size, inputs[i].rva)
  {
    hide Import;
    if i :| 0 <= i < |inputs| && Covers(va, size, inputs[i].rva) {
      assert Import(file, lfanew, inputs[i].name) != Some(Found(reference[inputs[i].name], Address(inputs[i].rva)));
    }
  }

  /** Addresses inside the input's own sections are never taken. */
  lemma OwnAddressesAreFree(
    data: seq<u8>, h: Headers, inputs: seq<Export>, reference: map<Name, nat>, library: Name, rva: nat)
    requires h.Fits(data) && inputs != [] && AllKnown(inputs, reference) && rva < VirtualEnd(h.sections)
    ensures !Taken(data, h, inputs, reference, library, rva)
  {
    hide SectionSize;
    var k :| 0 <= k < |h.sections| && h.sections[k].VirtualEnd() == VirtualEnd(h.sections);
    NewSectionIsClear(h, |data|, SectionSize(inputs, reference, library), k);
  }

  // ----- addresses the new section takes -----

  lemma {:induction false} MovedBytes(inputs: seq<Export>, i: nat, va: nat)
    requires i < |inputs|
    ensures NameBytes(inputs[i := Export(inputs[i].name, va)]) == NameBytes(inputs)
  {
    var moved := inputs[i := Export(inputs[i].name, va)];
    if i > 0 {
      MovedBytes(inputs[1..], i - 1, va);
      assert moved[1..] == inputs[1..][i - 1 := Export(inputs[i].name, va)];
    } else {
      assert moved[1..] == inputs[1..];
    }
  }

  /** Moving an address leaves the names and the highest ordinal, and so the section's size. */
  lemma MovedSize(inputs: seq<Export>, i: nat, va: nat, reference: map<Name, nat>, library: Name)
    requires i < |inputs| && Acceptable(inputs, reference)
    ensures var moved := inputs[i := Export(inputs[i].name, va)];
      Acceptable(moved, reference) && SectionSize(moved, reference, library) == SectionSize(inputs, reference, library)
  {
    hide NameBytes, Highest;
    var moved := inputs[i := Export(inputs[i].name, va)];
    assert forall j :: 0 <= j < |inputs| ==> moved[j].name == inputs[j].name;
    MovedBytes(inputs, i, va);
    SameHighest(inputs, moved, reference);
  }

  lemma SameHighest(inputs: seq<Export>, moved: seq<Export>, reference: map<Name, nat>)
    requires inputs != [] && AllKnown(inputs, reference)
    requires |moved| == |inputs| && forall j :: 0 <= j < |inputs| ==> moved[j].name == inputs[j].name
    ensures AllKnown(moved, reference) && Highest(moved, reference) == Highest(inputs, reference)
  {
    hide Greatest;
    var m, n := Highest(moved, reference), Highest(inputs, reference);
  }

  /**
   No rebuild is safe from it: whenever one succeeds, it would have succeeded with any one address moved to the start of
   the new section, and taken that address.
  */
  lemma AnyAddressCanBeTaken(
    data: seq<u8>, h: Headers, inputs: seq<Export>, reference: map<Name, nat>, library: Name, i: nat)
    requires h.Fits(data) && i < |inputs| && Succeeds(data, h, inputs, reference, library)
    ensures var va := PlaceFor(h, |data|, 0).va; var moved := inputs[i := Export(inputs[i].name, va)];
      && Succeeds(data, h, moved, reference, library) && Taken(data, h, moved, reference, library, va)
  {
    hide Acceptable, SectionSize, AlignUp, VirtualEnd;
    var va := PlaceFor(h, |data|, 0).va;
    MovedSize(inputs, i, va, reference, library);
    SizeIsPositive(inputs, reference, library);
    NewSectionIsClear(h, |data|, SectionSize(inputs, reference, library), 0);
  }

  lemma SizeIsPositive(inputs: seq<Export>, reference: map<Name, nat>, library: Name)
    requires Acceptable(inputs, reference)
    ensures inputs != [] && AllKnown(inputs, reference) && SectionSize(inputs, reference, library) > 0
  {
  }

  const NAME: Name := [0x61]

  /** A library of one section, with its headers where a linker puts them. */
  const PLAIN: Headers :=
    Headers(0x80, 224, 0x400, 0x200, 0x1000, 0x200, 0, [Section(0x1000, 0x200, 0x200, 0x400)])

  /** An input it happens to: a file with such headers whose only export is at 0x2000, the page behind its section. */
  lemma AddressCanBeTaken(data: seq<u8>)
    requires |data| == 0x600
    ensures PLAIN.Fits(data)
    ensures var inputs := [Export(NAME, 0x2000)];
      Succeeds(data, PLAIN, inputs, map[NAME := 1], NAME) && Taken(data, PLAIN, inputs, map[NAME := 1], NAME, 0x2000)
  {
    hide AlignUp, SectionSize;
    var inputs := [Export(NAME, 0x2000)];
    assert inputs[0].name == NAME && map[NAME := 1][NAME] == 1;
    SmallSection(inputs, map[NAME := 1]);
    PlainPlaces(SectionSize(inputs, map[NAME := 1], NAME));
  }

  lemma SmallSection(inputs: seq<Export>, reference: map<Name, nat>)
    requires |inputs| == 1 && inputs[0].name == NAME && AllKnown(inputs, reference) && reference[NAME] == 1
    ensures 0 < SectionSize(inputs, reference, NAME) < 64
  {
    hide AlignUp, Highest;
    assert Highest(inputs, reference) == 1;
    AlignUpIsAbove(DIRECTORY_SIZE, 4);
    AlignUpIsAbove(OrdinalsAt(1, 1) + 2, 4);
    assert NameBytes(inputs) == 2;
  }

  /** Where a section of less than one file alignment goes in such a file. */
  lemma PlainPlaces(size: nat)
    requires size < 64
    ensures PlaceFor(PLAIN, 0x600, size) ==
      if size > 0 then Place(0x2000, 0x600, 0x200, 0x3000) else Place(0x2000, 0x600, 0, 0x2000)
  {
    hide AlignUp;
    RoundsTo(0x1200, 12, 2);
    RoundsTo(0x600, 9, 3);
    RoundsTo(size, 9, if size > 0 then 1 else 0);
    RoundsTo(if size > 0 then 0x2200 else 0x2000, 12, if size > 0 then 3 else 2);
    PageSizes();
  }

  lemma PageSizes()
    ensures Pow2(9) == 0x200 && Pow2(12) == 0x1000
  {
    assert Pow2(4) == 16;
    assert Pow2(8) == 16 * Pow2(4);
    assert Pow2(12) == 16 * Pow2(8);
  }

  lemma RoundsTo(value: nat, k: nat, q: nat)
    requires value <= q * Pow2(k) < value + Pow2(k)
    ensures AlignUp(value, Pow2(k)) == q * Pow2(k)
  {
    hide AlignUp, Pow2;
    var r := AlignsToPowerOfTwo(value, k);
    if r < q { LessBelow(r, q, Pow2(k)); }
  }

  /**
   Every input export keeps the ordinal the reference gives its name, and the address it had if and only if the new
   section does not cover it, which no address inside the input's own sections is; no other name resolves; and the
   rest of the file is the input's.
  */
  method Rebuild(
    data: seq<u8>, h: Headers, inputs: seq<Export>, reference: map<Name, nat>, library: Name, checksum: u32)
    returns (r: Option<seq<u8>>)
    requires h.Fits(data) && h.Describes(data) && DistinctNames(inputs)
    requires forall i :: 0 <= i < |inputs| ==> inputs[i].name != [] && 0 !in inputs[i].name
    ensures r.Some? <==> Succeeds(data, h, inputs, reference, library)
    ensures r.Some? ==>
      var p := NewPlace(data, h, inputs, reference, library);
      Answers(r.value, h.lfanew, inputs, reference, p.va, p.size)
    ensures r.Some? ==> (Preserves(r.value, h.lfanew, inputs, reference) <==>
      forall i :: 0 <= i < |inputs| ==> !Taken(data, h, inputs, reference, library, inputs[i].rva))
    ensures r.Some? && (forall i :: 0 <= i < |inputs| ==> inputs[i].rva < VirtualEnd(h.sections)) ==>
      Preserves(r.value, h.lfanew, inputs, reference)
    ensures r.Some? && Loadable(data, h.lfanew) ==> Loadable(r.value, h.lfanew)
    ensures r.Some? ==> forall i :: 0 <= i < |data| && !h.Touched(i) ==> i < |r.value| && r.value[i] == data[i]
  {
    hide AssignSpec, Packable, Written, Representable, Import, NameOffset, FirstName, LookUp;
    hide SortedByName, DistinctOrdinals, Explains, Acceptable, SectionSize, Loadable;
    var outcome := AssignOrdinals(inputs, reference);
    if outcome.Refused? { return None; }
    var Assigned(t, count) := outcome;
    AssignedIsReady(inputs, reference);
    TableSize(inputs, reference, library);
    SucceedsExactly(data, h, inputs, reference, library);
    var va := PlaceFor(h, |data|, 0).va;
    var blob := BuildBlob(t, count, va, library, h.stamp);
    if blob == None { return None; }
    r := AppendSection(data, h, blob.value, checksum);
    if r == None { return None; }
    ImportsAreInputs(data, h, inputs, reference, library, checksum, blob.value, r.value);
    if Loadable(data, h.lfanew) { StaysLoadable(data, h, blob.value, checksum, r.value); }
    ghost var p := NewPlace(data, h, inputs, reference, library);
    PreservesExactly(r.value, h.lfanew, inputs, reference, p.va, p.size);
    forall i | 0 <= i < |inputs| && inputs[i].rva < VirtualEnd(h.sections)
      ensures !Taken(data, h, inputs, reference, library, inputs[i].rva)
    {
      OwnAddressesAreFree(data, h, inputs, reference, library, inputs[i].rva);
    }
  }

  lemma {:induction false} TableIsInputs(inputs: seq<Export>, reference: map<Name, nat>, a: Assignment)
    requires DistinctNames(inputs) && AssignSpec(inputs, reference).Assigned?
    ensures AllKnown(inputs, reference)
    ensures a in AssignSpec(inputs, reference).assignments <==>
      exists i :: 0 <= i < |inputs| && a == Assignment(inputs[i].name, reference[inputs[i].name], inputs[i].rva)
  {
    hide Sort;
    var all := WithOrdinals(inputs, reference);
    SortKeepsMembers(all);
    if a in all {
      var i :| 0 <= i < |all| && all[i] == a;
      assert a == Assignment(inputs[i].name, reference[inputs[i].name], inputs[i].rva);
    }
    if i :| 0 <= i < |inputs| && a == Assignment(inputs[i].name, reference[inputs[i].name], inputs[i].rva) {
      assert all[i] == a;
    }
  }

  lemma ImportsAreInputs(
    data: seq<u8>, h: Headers, inputs: seq<Export>, reference: map<Name, nat>, library: Name, checksum: u32,
    blob: seq<u8>, out: seq<u8>)
    requires h.Fits(data) && h.Describes(data) && DistinctNames(inputs) && AssignSpec(inputs, reference).Assigned?
    requires forall i :: 0 <= i < |inputs| ==> 0 !in inputs[i].name
    requires var Assigned(t, count) := AssignSpec(inputs, reference);
      && Ready(t, count) && Written(blob, t, count, PlaceFor(h, |data|, 0).va, library, h.stamp)
      && |blob| == NameOffset(t, FirstName(t, count, library), |t|)
    requires Appended(data, h, blob, checksum, out)
    ensures var p := PlaceFor(h, |data|, |blob|); Answers(out, h.lfanew, inputs, reference, p.va, p.size)
  {
    hide AssignSpec, Written, NameOffset, FirstName, Appended, Ready, ReadsAs, PlaceFor;
    var Assigned(t, count) := AssignSpec(inputs, reference);
    var p := PlaceFor(h, |data|, |blob|);
    forall k | 0 <= k < |t| ensures 0 !in t[k].name { TableIsInputs(inputs, reference, t[k]); }
    forall name: Name ensures ReadsAs(out, h.lfanew, t, p.va, p.size, name) {
      ReadName(data, h, t, count, library, checksum, blob, out, name);
    }
    InputsFromTable(inputs, reference, out, h.lfanew, p.va, p.size);
  }

  /** The file answers for `name` what the table says. */
  predicate ReadsAs(file: seq<u8>, lfanew: nat, t: seq<Assignment>, va: nat, size: nat, name: Name) {
    match Import(file, lfanew, name)
    case Some(found) =>
      && Assignment(name, found.ordinal, found.target.rva) in t
      && (found.target.Address? <==> !Covers(va, size, found.target.rva))
    case None => forall k :: 0 <= k < |t| ==> t[k].name != name
  }

  lemma ReadName(
    data: seq<u8>, h: Headers, t: seq<Assignment>, count: nat, library: Name, checksum: u32, blob: seq<u8>,
    out: seq<u8>, name: Name)
    requires h.Fits(data) && h.Describes(data) && Ready(t, count) && NulFree(t)
    requires Written(blob, t, count, PlaceFor(h, |data|, 0).va, library, h.stamp)
    requires |blob| == NameOffset(t, FirstName(t, count, library), |t|)
    requires Appended(data, h, blob, checksum, out)
    ensures var p := PlaceFor(h, |data|, |blob|); ReadsAs(out, h.lfanew, t, p.va, p.size, name)
  {
    hide Written, LookUp, NameOffset, Appended, Ready, Import, AlignUp, VirtualEnd;
    var p := PlaceFor(h, |data|, |blob|);
    Layout(count, |t|);
    hide FirstName, StringsAt;
    FindsNewSection(data, h, blob, checksum, out, name);
    WrittenKeepsUnderPadding(blob, Zeros(p.size - |blob|), t, count, p.va, library, h.stamp);
    RoundTrip(blob + Zeros(p.size - |blob|), t, count, p.va, p.size, library, h.stamp, name);
  }

  /** From answers in terms of the table to answers in terms of the two input lists. */
  lemma InputsFromTable(
    inputs: seq<Export>, reference: map<Name, nat>, out: seq<u8>, lfanew: nat, va: nat, size: nat)
    requires DistinctNames(inputs) && AssignSpec(inputs, reference).Assigned?
    requires var t := AssignSpec(inputs, reference).assignments;
      forall name: Name :: ReadsAs(out, lfanew, t, va, size, name)
    ensures Answers(out, lfanew, inputs, reference, va, size)
  {
    hide AssignSpec, Import;
    var t := AssignSpec(inputs, reference).assignments;
    TableIsInputs(inputs, reference, Assignment([], 0, 0));
    forall i | 0 <= i < |inputs|
      ensures Import(out, lfanew, inputs[i].name)
        == Some(Found(reference[inputs[i].name], TargetOf(inputs[i].rva, va, size)))
    {
      var a := Assignment(inputs[i].name, reference[inputs[i].name], inputs[i].rva);
      TableIsInputs(inputs, reference, a);
      assert a in t && ReadsAs(out, lfanew, t, va, size, inputs[i].name);
      var found := Import(out, lfanew, inputs[i].name);
      var b := Assignment(inputs[i].name, found.value.ordinal, found.value.target.rva);
      TableIsInputs(inputs, reference, b);
    }
    forall name: Name | forall i :: 0 <= i < |inputs| ==> inputs[i].name != name
      ensures Import(out, lfanew, name) == None
    {
      assert ReadsAs(out, lfanew, t, va, size, name);
      var found := Import(out, lfanew, name);
      if found.Some? {
        TableIsInputs(inputs, reference, Assignment(name, found.value.ordinal, found.value.target.rva));
      }
    }
  }
}
