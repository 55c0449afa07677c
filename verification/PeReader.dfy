/**
 A reader that knows only section 6.3 of the Microsoft PE/COFF specification, and the round trip: whatever the writer
 stored, the reader recovers.
*/
module PeReader {
  import opened Bytes
  import opened PeAlign
  import opened PeBlob
  import opened PeNames
  import opened Sequences

  // ----- the reader -----

  /** What an entry of the address table stands for: an address, or a forwarder's name kept at that address. */
  datatype Target = Address(rva: nat) | Forwarder(rva: nat)

  datatype Found = Found(ordinal: nat, target: Target)

  /** The export directory covers the address. */
  predicate Covers(va: nat, size: nat, rva: nat) { va <= rva < va + size }

  /** The forwarder rule: an entry that points into the export directory itself names another export. */
  function TargetOf(rva: nat, va: nat, size: nat): Target {
    if Covers(va, size, rva) then Forwarder(rva) else Address(rva)
  }

  /** The NUL-terminated string at `o`. */
  function CString(s: seq<u8>, o: int): Option<Name> {
    if !(0 <= o <= |s|) then None else
      var end := Find(s, 0, o);
      if end < |s| then Some(s[o..end]) else None
  }

  /** Name `i` of the pointer table, in a section loaded at `va`. */
  function NameAt(s: seq<u8>, va: nat, i: nat): Option<Name> {
    CString(s, Dword(s, Dword(s, 32) - va + 4 * i) - va)
  }

  /** Binary search of the name pointers. */
  function Search(s: seq<u8>, va: nat, name: Name, lo: nat, hi: nat): Option<nat>
    decreases hi - lo
  {
    if lo >= hi then None else
      var mid := (lo + hi) / 2;
      match NameAt(s, va, mid)
      case None => None
      case Some(m) =>
        if m == name then Some(mid)
        else if Before(m, name) then Search(s, va, name, mid + 1, hi)
        else Search(s, va, name, lo, mid)
  }

  /** The entry of the address table for an ordinal. */
  function AddressEntry(s: seq<u8>, va: nat, ordinal: nat): nat {
    Dword(s, Dword(s, 28) - va + 4 * (ordinal - Dword(s, 16)))
  }

  /** What an ordinal stands for, with the directory entry's address and size. */
  function ByOrdinal(s: seq<u8>, va: nat, size: nat, ordinal: nat): Target {
    TargetOf(AddressEntry(s, va, ordinal), va, size)
  }

  /** Name to ordinal to address or forwarder. */
  function LookUp(s: seq<u8>, va: nat, size: nat, name: Name): Option<Found> {
    match Search(s, va, name, 0, Dword(s, 24))
    case None => None
    case Some(i) =>
      var ordinal := Dword(s, 16) + Hword(s, Dword(s, 36) - va + 2 * i);
      Some(Found(ordinal, ByOrdinal(s, va, size, ordinal)))
  }

  // ----- the round trip -----

  predicate NulFree(t: seq<Assignment>) {
    forall k :: 0 <= k < |t| ==> 0 !in t[k].name
  }

  lemma ReadsString(s: seq<u8>, o: nat, name: Name)
    requires StringIn(s, o, name) && 0 !in name
    ensures CString(s, o) == Some(name)
  {
    var end := Find(s, 0, o);
    assert forall i :: o <= i < o + |name| ==> s[i] == s[o..o + |name|][i - o];
    assert s[o + |name|] == 0;
    assert end == o + |name|;
  }

  lemma NamesRead(s: seq<u8>, t: seq<Assignment>, count: nat, va: nat, library: Name, stamp: u32)
    requires Written(s, t, count, va, library, stamp) && NulFree(t)
    ensures forall k :: 0 <= k < |t| ==> NameAt(s, va, k) == Some(t[k].name)
  {
    hide Written, NameAt;
    forall k | 0 <= k < |t| ensures NameAt(s, va, k) == Some(t[k].name) {
      NameRead(s, t, count, va, library, stamp, k);
    }
  }

  lemma NameRead(s: seq<u8>, t: seq<Assignment>, count: nat, va: nat, library: Name, stamp: u32, k: nat)
    requires Written(s, t, count, va, library, stamp) && k < |t| && 0 !in t[k].name
    ensures NameAt(s, va, k) == Some(t[k].name)
  {
    hide StringIn, Dword, NameOffset, CString, StringsAt;
    var first := FirstName(t, count, library);
    assert StringIn(s, NameOffset(t, first, k), t[k].name);
    ReadsString(s, NameOffset(t, first, k), t[k].name);
    assert Dword(s, Slot(40 + 4 * count, k)) == va + NameOffset(t, first, k);
  }

  /** In a sorted table binary search finds a name where it is, and only then. */
  lemma {:induction false} SearchFinds(s: seq<u8>, va: nat, t: seq<Assignment>, name: Name, lo: nat, hi: nat)
    requires lo <= hi <= |t| && SortedByName(t)
    requires forall k :: 0 <= k < |t| ==> NameAt(s, va, k) == Some(t[k].name)
    ensures match Search(s, va, name, lo, hi)
      case Some(k) => lo <= k < hi && t[k].name == name
      case None => forall k :: lo <= k < hi ==> t[k].name != name
    decreases hi - lo
  {
    hide Before, NameAt;
    if lo < hi {
      var mid := (lo + hi) / 2;
      assert NameAt(s, va, mid) == Some(t[mid].name);
      if t[mid].name != name {
        BeforeTotal(t[mid].name, name);
        if Before(t[mid].name, name) {
          forall k | lo <= k <= mid ensures t[k].name != name {
            BeforeTotal(t[k].name, t[mid].name);
          }
          SearchFinds(s, va, t, name, mid + 1, hi);
        } else {
          forall k | mid <= k < hi ensures t[k].name != name {
            BeforeTotal(t[mid].name, t[k].name);
          }
          SearchFinds(s, va, t, name, lo, mid);
        }
      }
    }
  }

  /**
   Every exported name leads to its ordinal and its address, or to a forwarder exactly when that address lies in the
   export directory, and no other name leads anywhere.
  */
  lemma RoundTrip(
    s: seq<u8>, t: seq<Assignment>, count: nat, va: nat, size: nat, library: Name, stamp: u32, name: Name)
    requires Written(s, t, count, va, library, stamp) && Ready(t, count) && NulFree(t)
    ensures match LookUp(s, va, size, name)
      case Some(found) =>
        && Assignment(name, found.ordinal, found.target.rva) in t
        && (found.target.Address? <==> !Covers(va, size, found.target.rva))
      case None => forall k :: 0 <= k < |t| ==> t[k].name != name
  {
    hide Written, NameAt, SortedByName, DistinctOrdinals, LookUp;
    NamesRead(s, t, count, va, library, stamp);
    SearchFinds(s, va, t, name, 0, |t|);
    LookUpReads(s, t, count, va, size, library, stamp, name);
  }

  lemma LookUpReads(
    s: seq<u8>, t: seq<Assignment>, count: nat, va: nat, size: nat, library: Name, stamp: u32, name: Name)
    requires Written(s, t, count, va, library, stamp) && Ready(t, count)
    requires var hit := Search(s, va, name, 0, |t|); hit.Some? ==> hit.value < |t| && t[hit.value].name == name
    ensures match Search(s, va, name, 0, |t|)
      case Some(k) => LookUp(s, va, size, name) == Some(Found(t[k].ordinal, TargetOf(t[k].rva, va, size)))
      case None => LookUp(s, va, size, name) == None
  {
    hide StringIn, Dword, Hword, NameOffset, Search, StringsAt, FirstName, SortedByName, Entry, DistinctOrdinals;
    hide AddressEntry;
    var hit := Search(s, va, name, 0, |t|);
    if hit.Some? {
      assert Hword(s, HalfSlot(40 + 4 * count + 4 * |t|, hit.value)) == t[hit.value].ordinal - 1;
      OrdinalsRead(s, t, count, va, library, stamp, hit.value);
    }
  }

  lemma OrdinalsRead(s: seq<u8>, t: seq<Assignment>, count: nat, va: nat, library: Name, stamp: u32, k: nat)
    requires Written(s, t, count, va, library, stamp) && Ready(t, count) && k < |t|
    ensures AddressEntry(s, va, t[k].ordinal) == t[k].rva
  {
    hide StringIn, Dword, NameOffset, StringsAt, FirstName, SortedByName, Entry;
    EntryOf(t, |t|, t[k].ordinal - 1);
    assert Dword(s, Slot(40, t[k].ordinal - 1)) == Entry(t, |t|, t[k].ordinal - 1);
  }

  /** An ordinal in range that no export claims has a zero address. */
  lemma UnclaimedOrdinals(s: seq<u8>, t: seq<Assignment>, count: nat, va: nat, library: Name, stamp: u32, ordinal: nat)
    requires Written(s, t, count, va, library, stamp) && Ready(t, count) && 1 <= ordinal <= count
    requires forall k :: 0 <= k < |t| ==> t[k].ordinal != ordinal
    ensures AddressEntry(s, va, ordinal) == 0
  {
    hide StringIn, Dword, NameOffset, StringsAt, FirstName, SortedByName, Entry;
    EntryOf(t, |t|, ordinal - 1);
    assert Dword(s, Slot(40, ordinal - 1)) == Entry(t, |t|, ordinal - 1);
  }

  /** The directory's own fields: the library's name, the ordinal base, and how much there is of each table. */
  lemma DirectoryReads(s: seq<u8>, t: seq<Assignment>, count: nat, va: nat, library: Name, stamp: u32)
    requires Written(s, t, count, va, library, stamp) && 0 !in library
    ensures CString(s, Dword(s, 12) - va) == Some(library)
    ensures Dword(s, 16) == 1 && Dword(s, 20) == count && Dword(s, 24) == |t| && Dword(s, 4) == stamp
  {
    hide Dword, StringIn, CString, NameOffset;
    ReadsString(s, StringsAt(count, |t|), library);
  }

  // ----- the pieces do not overlap -----

  datatype Extent = Extent(start: nat, end: nat)

  /** Directory, address table, name pointers, ordinals, the library's name, then each export's name. */
  function Piece(t: seq<Assignment>, count: nat, library: Name, i: nat): Extent
    requires i < 5 + |t|
  {
    if i == 0 then Extent(0, DIRECTORY_SIZE)
    else if i == 1 then Extent(EatAt(), EatAt() + 4 * count)
    else if i == 2 then Extent(NamesAt(count), NamesAt(count) + 4 * |t|)
    else if i == 3 then Extent(OrdinalsAt(count, |t|), OrdinalsAt(count, |t|) + 2 * |t|)
    else if i == 4 then Extent(StringsAt(count, |t|), StringsAt(count, |t|) + |library| + 1)
    else
      var o := NameOffset(t, FirstName(t, count, library), i - 5);
      Extent(o, o + |t[i - 5].name| + 1)
  }

  /** All tables and strings lie in the section. */
  lemma TablesInside(t: seq<Assignment>, count: nat, library: Name, i: nat)
    requires i < 5 + |t|
    ensures var p := Piece(t, count, library, i);
      p.start <= p.end <= NameOffset(t, FirstName(t, count, library), |t|)
  {
    hide StringsAt, EatAt, NameOffset;
    Layout(count, |t|);
    if i >= 5 { NameOffsetGrows(t, FirstName(t, count, library), i - 5, |t|); }
  }

  /** They lie one behind the other, so no two of them share a byte. */
  lemma TablesDisjoint(t: seq<Assignment>, count: nat, library: Name, i: nat, j: nat)
    requires i < j < 5 + |t|
    ensures Piece(t, count, library, i).end <= Piece(t, count, library, j).start
  {
    hide StringsAt, EatAt, NameOffset;
    Layout(count, |t|);
    if i >= 5 { NameOffsetGrows(t, FirstName(t, count, library), i - 5, j - 5); }
  }

  /**
   And they lie as close as they can: each begins where the one before it ends, the strings on the next multiple of 4.
  */
  lemma TablesTight(t: seq<Assignment>, count: nat, library: Name, i: nat)
    requires i < 4 + |t|
    ensures Piece(t, count, library, 0).start == 0
    ensures var end, next := Piece(t, count, library, i).end, Piece(t, count, library, i + 1).start;
      if i == 3 then end <= next < end + 4 && next % 4 == 0 else next == end
  {
    hide StringsAt, EatAt, NamesAt, OrdinalsAt, NameOffset, FirstName;
    if i <= 3 {
      TablesStart(count, |t|);
    } else {
      NamesFollow(t, count, library, i);
    }
  }

  lemma TablesStart(count: nat, n: nat)
    ensures EatAt() == DIRECTORY_SIZE && NamesAt(count) == EatAt() + 4 * count
    ensures OrdinalsAt(count, n) == NamesAt(count) + 4 * n
    ensures
      var end := OrdinalsAt(count, n) + 2 * n;
      end <= StringsAt(count, n) < end + 4 && StringsAt(count, n) % 4 == 0
  {
    hide StringsAt, EatAt;
    Layout(count, n);
    StringsTight(count, n);
  }

  lemma NamesFollow(t: seq<Assignment>, count: nat, library: Name, i: nat)
    requires 4 <= i < 4 + |t|
    ensures Piece(t, count, library, i + 1).start == Piece(t, count, library, i).end
  {
    hide StringsAt, EatAt, NameOffset;
    var first := FirstName(t, count, library);
    if i == 4 { OffsetStarts(t, first); } else { NextOffset(t, first, i - 5); }
  }

  /** The last of them ends where the section's contents end. */
  lemma TablesEnd(t: seq<Assignment>, count: nat, library: Name)
    ensures Piece(t, count, library, 4 + |t|).end == NameOffset(t, FirstName(t, count, library), |t|)
  {
    hide StringsAt, EatAt, NameOffset;
    var first := FirstName(t, count, library);
    if t == [] { OffsetStarts(t, first); } else { NextOffset(t, first, |t| - 1); }
  }

  lemma StringsTight(count: nat, n: nat)
    ensures
      var end := OrdinalsAt(count, n) + n * 2;
      end <= StringsAt(count, n) < end + 4 && StringsAt(count, n) % 4 == 0
  {
    hide AlignUp, OrdinalsAt;
    AlignFour(OrdinalsAt(count, n) + n * 2);
  }

  lemma OffsetStarts(t: seq<Assignment>, first: nat)
    ensures NameOffset(t, first, 0) == first
  {
  }
}
