/**
 The export section as the writer builds it: directory, address table, name pointers, ordinals and
 strings, following section 6.3 of the Microsoft PE/COFF specification.
*/
module PeBlob {
  import opened Bytes
  import opened PeAlign
  import opened PeNames
  import opened Sequences

  // ----- layout -----

  const DIRECTORY_SIZE := 40

  function EatAt(): nat { AlignUp(DIRECTORY_SIZE, 4) }

  function NamesAt(count: nat): nat { EatAt() + count * 4 }

  function OrdinalsAt(count: nat, n: nat): nat { NamesAt(count) + n * 4 }

  function StringsAt(count: nat, n: nat): nat { AlignUp(OrdinalsAt(count, n) + n * 2, 4) }

  lemma Layout(count: nat, n: nat)
    ensures EatAt() == 40 && NamesAt(count) == 40 + 4 * count && OrdinalsAt(count, n) == 40 + 4 * count + 4 * n
    ensures 40 + 4 * count + 6 * n <= StringsAt(count, n)
  {
    AlignFour(OrdinalsAt(count, n) + n * 2);
  }

  /** Where name `k` starts when the first starts at `first`; each carries its NUL. */
  function NameOffset(t: seq<Assignment>, first: nat, k: nat): (o: nat)
    requires k <= |t|
    ensures o >= first
  {
    if k == 0 then first else NameOffset(t, first, k - 1) + |t[k - 1].name| + 1
  }

  lemma NextOffset(t: seq<Assignment>, first: nat, k: nat)
    requires k < |t|
    ensures NameOffset(t, first, k + 1) == NameOffset(t, first, k) + |t[k].name| + 1
  {
  }

  lemma {:induction false} NameOffsetGrows(t: seq<Assignment>, first: nat, j: nat, k: nat)
    requires j < k <= |t|
    ensures NameOffset(t, first, j) + |t[j].name| + 1 <= NameOffset(t, first, k)
  {
    if j < k - 1 { NameOffsetGrows(t, first, j, k - 1); }
  }

  /** Where the first exported name goes: behind the tables and the library's own name. */
  function FirstName(t: seq<Assignment>, count: nat, library: Name): nat {
    StringsAt(count, |t|) + |library| + 1
  }

  // ----- what a well-written section holds -----

  predicate Ready(t: seq<Assignment>, count: nat) {
    && t != [] && SortedByName(t) && DistinctOrdinals(t)
    && forall k :: 0 <= k < |t| ==> 1 <= t[k].ordinal <= count
  }

  /** Every value that has to be packed fits its field. */
  predicate Packable(t: seq<Assignment>, count: nat, va: nat, library: Name) {
    && (forall k :: 0 <= k < |t| ==> t[k].rva < WORD && t[k].ordinal <= 0x1_0000)
    && (forall k :: 0 <= k < |t| ==> va + NameOffset(t, FirstName(t, count, library), k) < WORD)
  }

  /** A NUL-terminated string is in place. */
  predicate StringIn(blob: seq<u8>, o: nat, name: Name) {
    o + |name| < |blob| && blob[o..o + |name|] == name && blob[o + |name|] == 0
  }

  predicate StringsWritten(blob: seq<u8>, t: seq<Assignment>, first: nat, n: nat)
    requires n <= |t|
  {
    forall k :: 0 <= k < n ==> StringIn(blob, NameOffset(t, first, k), t[k].name)
  }

  /** What address slot `o` holds once the first `n` assignments are stored. */
  function Entry(t: seq<Assignment>, n: nat, o: nat): nat
    requires n <= |t|
  {
    if n == 0 then 0 else if t[n - 1].ordinal == o + 1 then t[n - 1].rva else Entry(t, n - 1, o)
  }

  /** Every claimed slot holds its export's address and every other slot holds zero. */
  lemma {:induction false} EntryOf(t: seq<Assignment>, n: nat, o: nat)
    requires n <= |t| && DistinctOrdinals(t)
    ensures forall k :: 0 <= k < n && t[k].ordinal == o + 1 ==> Entry(t, n, o) == t[k].rva
    ensures (forall k :: 0 <= k < n ==> t[k].ordinal != o + 1) ==> Entry(t, n, o) == 0
  {
    if n > 0 { EntryOf(t, n - 1, o); }
  }

  function Slot(base: nat, k: nat): nat { base + 4 * k }

  function HalfSlot(base: nat, k: nat): nat { base + 2 * k }

  predicate AddressesWritten(blob: seq<u8>, t: seq<Assignment>, count: nat, n: nat)
    requires n <= |t|
  {
    forall o :: 0 <= o < count ==> Dword(blob, Slot(40, o)) == Entry(t, n, o)
  }

  predicate PointersWritten(blob: seq<u8>, t: seq<Assignment>, count: nat, va: nat, first: nat, n: nat)
    requires n <= |t|
  {
    && (forall k :: 0 <= k < n ==> Dword(blob, Slot(40 + 4 * count, k)) == va + NameOffset(t, first, k))
    && (forall k :: 0 <= k < n ==> Hword(blob, HalfSlot(40 + 4 * count + 4 * |t|, k)) == t[k].ordinal - 1)
  }

  predicate DirectoryWritten(blob: seq<u8>, t: seq<Assignment>, count: nat, va: nat, stamp: u32) {
    && Dword(blob, 0) == 0 && Dword(blob, 4) == stamp && Hword(blob, 8) == 0 && Hword(blob, 10) == 0
    && Dword(blob, 12) == va + StringsAt(count, |t|)
    && Dword(blob, 16) == 1 && Dword(blob, 20) == count && Dword(blob, 24) == |t|
    && Dword(blob, 28) == va + 40
    && Dword(blob, 32) == va + 40 + 4 * count
    && Dword(blob, 36) == va + 40 + 4 * count + 4 * |t|
  }

  predicate Written(blob: seq<u8>, t: seq<Assignment>, count: nat, va: nat, library: Name, stamp: u32) {
    var first := FirstName(t, count, library);
    && DirectoryWritten(blob, t, count, va, stamp)
    && AddressesWritten(blob, t, count, |t|)
    && PointersWritten(blob, t, count, va, first, |t|)
    && StringsWritten(blob, t, first, |t|)
    && StringIn(blob, StringsAt(count, |t|), library)
  }

  // ----- the writer -----

  lemma StringStays(blob: seq<u8>, more: seq<u8>, o: nat, name: Name)
    requires StringIn(blob, o, name)
    ensures StringIn(blob + more, o, name)
  {
    assert (blob + more)[o..o + |name|] == blob[o..o + |name|];
  }

  lemma StringLands(blob: seq<u8>, name: Name)
    ensures StringIn(blob + (name + [0]), |blob|, name)
  {
    assert (blob + (name + [0]))[|blob|..|blob| + |name|] == name;
  }

  lemma StringsStay(blob: seq<u8>, more: seq<u8>, t: seq<Assignment>, first: nat, n: nat)
    requires n <= |t| && StringsWritten(blob, t, first, n)
    ensures StringsWritten(blob + more, t, first, n)
  {
    hide StringIn, NameOffset;
    forall k | 0 <= k < n ensures StringIn(blob + more, NameOffset(t, first, k), t[k].name) {
      StringStays(blob, more, NameOffset(t, first, k), t[k].name);
    }
  }

  /** Only the bytes from `from` on matter to the strings. */
  lemma StringsAreBehind(
    blob: seq<u8>, after: seq<u8>, from: nat, t: seq<Assignment>, first: nat, o: nat, library: Name)
    requires |after| == |blob| && forall i :: from <= i < |blob| ==> after[i] == blob[i]
    requires from <= first && from <= o
    requires StringsWritten(blob, t, first, |t|) && StringIn(blob, o, library)
    ensures StringsWritten(after, t, first, |t|) && StringIn(after, o, library)
  {
    hide NameOffset;
    forall k | 0 <= k < |t| ensures StringIn(after, NameOffset(t, first, k), t[k].name) {
      var p := NameOffset(t, first, k);
      assert StringIn(blob, p, t[k].name);
      assert after[p..p + |t[k].name|] == blob[p..p + |t[k].name|];
    }
    assert after[o..o + |library|] == blob[o..o + |library|];
  }

  /** The section so far: empty tables, the library's name and the first `n` exports' names. */
  ghost predicate StringsAppended(blob: seq<u8>, t: seq<Assignment>, tables: nat, library: Name, n: nat)
    requires n <= |t|
  {
    && |blob| == NameOffset(t, tables + |library| + 1, n)
    && (forall i :: 0 <= i < tables ==> blob[i] == 0)
    && StringIn(blob, tables, library)
    && StringsWritten(blob, t, tables + |library| + 1, n)
  }

  lemma AppendFirst(tables: seq<u8>, t: seq<Assignment>, library: Name)
    requires forall i :: 0 <= i < |tables| ==> tables[i] == 0
    ensures StringsAppended(tables + (library + [0]), t, |tables|, library, 0)
  {
    StringLands(tables, library);
  }

  lemma AppendNext(blob: seq<u8>, t: seq<Assignment>, tables: nat, library: Name, k: nat)
    requires k < |t| && StringsAppended(blob, t, tables, library, k)
    ensures StringsAppended(blob + (t[k].name + [0]), t, tables, library, k + 1)
  {
    hide StringIn, NameOffset;
    var more, first := t[k].name + [0], tables + |library| + 1;
    StringLands(blob, t[k].name);
    StringsStay(blob, more, t, first, k);
    StringStays(blob, more, tables, library);
    NextOffset(t, first, k);
  }

  lemma NamesDiffer(t: seq<Assignment>, k: nat)
    requires k < |t| && SortedByName(t)
    ensures forall j :: 0 <= j < |t| && j != k ==> t[j].name != t[k].name
  {
    hide Before;
    forall j | 0 <= j < |t| && j != k ensures t[j].name != t[k].name { BeforeTotal(t[j].name, t[k].name); }
  }

  /** Zeroed tables, then the library's name, then each export's, remembering where each starts. */
  method AppendStrings(t: seq<Assignment>, tables: nat, library: Name) returns (blob: seq<u8>, offsets: map<Name, nat>)
    requires SortedByName(t)
    ensures StringsAppended(blob, t, tables, library, |t|)
    ensures forall k :: 0 <= k < |t| ==>
      t[k].name in offsets && offsets[t[k].name] == NameOffset(t, tables + |library| + 1, k)
  {
    hide StringIn, StringsWritten, SortedByName, NameOffset;
    blob := seq(tables, _ => 0);
    AppendFirst(blob, t, library);
    blob := blob + (library + [0]);
    offsets := map[];
    for k := 0 to |t|
      invariant StringsAppended(blob, t, tables, library, k)
      invariant forall j :: 0 <= j < k ==>
        t[j].name in offsets && offsets[t[j].name] == NameOffset(t, tables + |library| + 1, j)
    {
      NamesDiffer(t, k);
      AppendNext(blob, t, tables, library, k);
      offsets := offsets[t[k].name := |blob|];
      blob := blob + (t[k].name + [0]);
    }
  }

  /** The address table; slots no ordinal claims stay zero. Fails on an address wider than its field. */
  method PackAddresses(start: seq<u8>, t: seq<Assignment>, count: nat) returns (r: Option<seq<u8>>)
    requires Ready(t, count) && 40 + 4 * count <= |start|
    requires AddressesWritten(start, t, count, 0)
    ensures r.Some? <==> forall k :: 0 <= k < |t| ==> t[k].rva < WORD
    ensures r.Some? ==> |r.value| == |start| && AddressesWritten(r.value, t, count, |t|)
    ensures r.Some? ==> forall i :: 0 <= i < |start| && !(40 <= i < 40 + 4 * count) ==> r.value[i] == start[i]
  {
    hide Dword, Hword, SortedByName, DistinctOrdinals;
    var blob := start;
    for k := 0 to |t|
      invariant |blob| == |start|
      invariant forall i :: 0 <= i < |start| && !(40 <= i < 40 + 4 * count) ==> blob[i] == start[i]
      invariant forall j :: 0 <= j < k ==> t[j].rva < WORD
      invariant AddressesWritten(blob, t, count, k)
    {
      if t[k].rva >= WORD { return None; }
      blob := PackDword(blob, Slot(40, t[k].ordinal - 1), t[k].rva);
    }
    return Some(blob);
  }

  /** The name pointers and the ordinal table, both in name order. */
  method PackPointers(
    start: seq<u8>, t: seq<Assignment>, count: nat, va: nat, ghost first: nat, offsets: map<Name, nat>)
    returns (r: Option<seq<u8>>)
    requires Ready(t, count) && 40 + 4 * count + 6 * |t| <= |start|
    requires forall k :: 0 <= k < |t| ==> t[k].name in offsets && offsets[t[k].name] == NameOffset(t, first, k)
    ensures r.Some? <==> forall k :: 0 <= k < |t| ==> va + NameOffset(t, first, k) < WORD && t[k].ordinal <= 0x1_0000
    ensures r.Some? ==> |r.value| == |start| && PointersWritten(r.value, t, count, va, first, |t|)
    ensures r.Some? ==>
      forall i :: 0 <= i < |start| && !(40 + 4 * count <= i < 40 + 4 * count + 6 * |t|) ==> r.value[i] == start[i]
  {
    hide Dword, Hword, SortedByName, DistinctOrdinals, NameOffset;
    var blob := start;
    for k := 0 to |t|
      invariant |blob| == |start|
      invariant forall i :: 0 <= i < |start| && !(40 + 4 * count <= i < 40 + 4 * count + 6 * |t|) ==>
        blob[i] == start[i]
      invariant forall j :: 0 <= j < k ==> va + NameOffset(t, first, j) < WORD && t[j].ordinal <= 0x1_0000
      invariant PointersWritten(blob, t, count, va, first, k)
    {
      if va + offsets[t[k].name] >= WORD { return None; }
      blob := PackDword(blob, Slot(40 + 4 * count, k), va + offsets[t[k].name]);
      if t[k].ordinal - 1 >= 0x1_0000 { return None; }
      blob := PackHword(blob, HalfSlot(40 + 4 * count + 4 * |t|, k), t[k].ordinal - 1);
    }
    return Some(blob);
  }

  /** The eleven fields of the export directory. */
  method PackDirectory(start: seq<u8>, t: seq<Assignment>, count: nat, va: nat, strings: nat, stamp: u32)
    returns (blob: seq<u8>)
    requires 40 + 4 * count + 6 * |t| <= strings <= |start| && va + strings < WORD
    ensures |blob| == |start| && forall i :: 40 <= i < |start| ==> blob[i] == start[i]
    ensures forall p :: p >= 40 ==> Dword(blob, p) == Dword(start, p) && Hword(blob, p) == Hword(start, p)
    ensures strings == StringsAt(count, |t|) ==> DirectoryWritten(blob, t, count, va, stamp)
  {
    hide Dword, Hword, StringsAt;
    blob := PackDword(start, 0, 0);
    blob := PackDword(blob, 4, stamp);
    blob := PackHword(blob, 8, 0);
    blob := PackHword(blob, 10, 0);
    blob := PackDword(blob, 12, va + strings);
    blob := PackDword(blob, 16, 1);
    blob := PackDword(blob, 20, count);
    blob := PackDword(blob, 24, |t|);
    blob := PackDword(blob, 28, va + 40);
    blob := PackDword(blob, 32, va + 40 + 4 * count);
    blob := PackDword(blob, 36, va + 40 + 4 * count + 4 * |t|);
  }

  /** Buffers that agree below `to` agree on every address slot. */
  lemma AddressesAreBefore(blob: seq<u8>, after: seq<u8>, t: seq<Assignment>, count: nat)
    requires |after| == |blob| && forall i :: 40 <= i < 40 + 4 * count && i < |blob| ==> after[i] == blob[i]
    requires AddressesWritten(blob, t, count, |t|)
    ensures AddressesWritten(after, t, count, |t|)
  {
    forall o | 0 <= o < count ensures Dword(after, Slot(40, o)) == Entry(t, |t|, o) {
      SameDword(after, blob, Slot(40, o));
    }
  }

  /**
   The whole section. It is refused exactly when some address, ordinal or name position does not fit its field, and
   otherwise every table and every string is what section 6.3 asks for.
  */
  method BuildBlob(t: seq<Assignment>, count: nat, va: nat, library: Name, stamp: u32) returns (r: Option<seq<u8>>)
    requires Ready(t, count)
    ensures r.Some? <==> Packable(t, count, va, library)
    ensures r.Some? ==> Written(r.value, t, count, va, library, stamp)
    ensures r.Some? ==> |r.value| == NameOffset(t, FirstName(t, count, library), |t|)
  {
    hide Dword, StringIn, NameOffset, StringsAt, SortedByName, DistinctOrdinals, Entry, EatAt;
    Layout(count, |t|);
    ghost var first := FirstName(t, count, library);
    var strings := StringsAt(count, |t|);
    var blob, offsets := AppendStrings(t, strings, library);
    ghost var plain := blob;
    assert AddressesWritten(blob, t, count, 0) by { Untouched(blob, t, count, strings); }
    var addressed := PackAddresses(blob, t, count);
    if addressed == None { return None; }
    var pointed := PackPointers(addressed.value, t, count, va, first, offsets);
    if pointed == None { return None; }
    assert va + NameOffset(t, first, 0) < WORD;
    blob := PackDirectory(pointed.value, t, count, va, strings, stamp);
    StringsAreBehind(plain, blob, strings, t, first, strings, library);
    AddressesAreBefore(addressed.value, blob, t, count);
    return Some(blob);
  }

  lemma Untouched(blob: seq<u8>, t: seq<Assignment>, count: nat, tables: nat)
    requires 40 + 4 * count <= tables <= |blob| && forall i :: 0 <= i < tables ==> blob[i] == 0
    ensures AddressesWritten(blob, t, count, 0)
  {
    forall o | 0 <= o < count ensures Dword(blob, Slot(40, o)) == Entry(t, 0, o) {
      var p := Slot(40, o);
      assert blob[p] == 0 && blob[p + 1] == 0 && blob[p + 2] == 0 && blob[p + 3] == 0;
    }
  }
}
