/** Adding the export section to a PE32 file that has room for one more section header. */
module PeSection {
  import opened Bits
  import opened Bytes
  import opened PeAlign
  import opened Sequences

  datatype Section = Section(virtualAddress: nat, virtualSize: nat, rawSize: nat, rawOffset: nat) {
    function VirtualEnd(): nat { virtualAddress + if virtualSize > rawSize then virtualSize else rawSize }
  }

  predicate DescribedAt(data: seq<u8>, at: nat, s: Section) {
    && Dword(data, at + 8) == s.virtualSize && Dword(data, at + 12) == s.virtualAddress
    && Dword(data, at + 16) == s.rawSize && Dword(data, at + 20) == s.rawOffset
  }

  /** The parsed headers of the input. */
  datatype Headers = Headers(
    lfanew: nat, optionalSize: nat, sizeOfHeaders: nat, fileAlignment: nat, sectionAlignment: nat,
    initializedData: u32, stamp: u32, sections: seq<Section>)
  {
    function NumberOfSectionsAt(): nat { lfanew + 6 }
    function OptionalAt(): nat { lfanew + 24 }
    function InitializedDataAt(): nat { OptionalAt() + 8 }
    function SizeOfImageAt(): nat { OptionalAt() + 56 }
    function CheckSumAt(): nat { OptionalAt() + 64 }
    function ExportEntryAt(): nat { OptionalAt() + 96 }
    function SectionAt(k: nat): nat { OptionalAt() + optionalSize + 40 * k }
    function NewHeaderAt(): nat { SectionAt(|sections|) }

    /** A file with an export entry, its headers inside it, at least one section and room for one more header. */
    ghost predicate Fits(data: seq<u8>) {
      && fileAlignment > 0 && sectionAlignment > 0 && optionalSize >= 104 && sections != []
      && NewHeaderAt() + 40 <= sizeOfHeaders <= |data|
    }

    /** The section table and the fields that lead to it say what was parsed from them. */
    ghost predicate Describes(data: seq<u8>) {
      && Hword(data, NumberOfSectionsAt()) == |sections| && Hword(data, lfanew + 20) == optionalSize
      && forall k :: 0 <= k < |sections| ==> DescribedAt(data, SectionAt(k), sections[k])
    }

    /** The header bytes the rebuild writes. */
    predicate Touched(i: nat) {
      || NumberOfSectionsAt() <= i < NumberOfSectionsAt() + 2
      || InitializedDataAt() <= i < InitializedDataAt() + 4
      || SizeOfImageAt() <= i < SizeOfImageAt() + 4
      || CheckSumAt() <= i < CheckSumAt() + 4
      || ExportEntryAt() <= i < ExportEntryAt() + 8
      || NewHeaderAt() <= i < NewHeaderAt() + 40
    }
  }

  function VirtualEnd(sections: seq<Section>): (end: nat)
    requires sections != []
    ensures forall k :: 0 <= k < |sections| ==> sections[k].VirtualEnd() <= end
    ensures exists k :: 0 <= k < |sections| && sections[k].VirtualEnd() == end
  {
    if |sections| == 1 then sections[0].VirtualEnd()
    else
      var end := VirtualEnd(sections[1..]);
      assert forall k :: 1 <= k < |sections| ==> sections[k] == sections[1..][k - 1];
      if sections[0].VirtualEnd() >= end then sections[0].VirtualEnd() else end
  }

  datatype Place = Place(va: nat, raw: nat, size: nat, imageSize: nat)

  /** Where the new section goes and how large it gets. */
  function PlaceFor(h: Headers, dataSize: nat, blobSize: nat): Place
    requires h.fileAlignment > 0 && h.sectionAlignment > 0 && h.sections != []
  {
    var va := AlignUp(VirtualEnd(h.sections), h.sectionAlignment);
    var size := AlignUp(blobSize, h.fileAlignment);
    Place(va, AlignUp(dataSize, h.fileAlignment), size, AlignUp(va + size, h.sectionAlignment))
  }

  /** The new section overlaps no other, neither in memory nor in the file, and holds the blob. */
  lemma NewSectionIsClear(h: Headers, dataSize: nat, blobSize: nat, k: nat)
    requires h.fileAlignment > 0 && h.sectionAlignment > 0 && k < |h.sections|
    ensures var p := PlaceFor(h, dataSize, blobSize);
      && h.sections[k].VirtualEnd() <= p.va && p.va + p.size <= p.imageSize
      && (h.sections[k].rawOffset + h.sections[k].rawSize <= dataSize ==>
        h.sections[k].rawOffset + h.sections[k].rawSize <= p.raw)
      && dataSize <= p.raw && blobSize <= p.size
  {
    hide AlignUp, VirtualEnd;
    var p := PlaceFor(h, dataSize, blobSize);
    AlignUpIsAbove(VirtualEnd(h.sections), h.sectionAlignment);
    AlignUpIsAbove(dataSize, h.fileAlignment);
    AlignUpIsAbove(blobSize, h.fileAlignment);
    AlignUpIsAbove(p.va + p.size, h.sectionAlignment);
  }

  /** The least multiple of `of` that is not below `value`. */
  ghost predicate LeastMultiple(m: nat, value: nat, of: nat) {
    Multiple(m, of) && value <= m && forall q: nat :: value <= q * of ==> m <= q * of
  }

  /** With power-of-two alignments everything goes to the first place on them, as the loader demands, leaving no gap. */
  lemma NewSectionIsAligned(h: Headers, dataSize: nat, blobSize: nat, file: nat, section: nat)
    requires h.fileAlignment == Pow2(file) && h.sectionAlignment == Pow2(section) && h.sections != []
    ensures var p := PlaceFor(h, dataSize, blobSize);
      && LeastMultiple(p.va, VirtualEnd(h.sections), h.sectionAlignment)
      && LeastMultiple(p.imageSize, p.va + p.size, h.sectionAlignment)
      && LeastMultiple(p.raw, dataSize, h.fileAlignment) && LeastMultiple(p.size, blobSize, h.fileAlignment)
  {
    hide AlignUp, VirtualEnd, LeastMultiple, Pow2;
    var p := PlaceFor(h, dataSize, blobSize);
    AlignsToLeast(VirtualEnd(h.sections), section);
    AlignsToLeast(p.va + p.size, section);
    AlignsToLeast(dataSize, file);
    AlignsToLeast(blobSize, file);
  }

  lemma AlignsToLeast(value: nat, k: nat)
    ensures LeastMultiple(AlignUp(value, Pow2(k)), value, Pow2(k))
  {
    hide AlignUp, Pow2;
    var q := AlignsToPowerOfTwo(value, k);
    forall p: nat | value <= p * Pow2(k) ensures q * Pow2(k) <= p * Pow2(k) {
      if q < p { LessBelow(q, p, Pow2(k)); }
    }
  }

  ghost predicate Multiple(value: nat, of: nat) { exists q: nat :: value == q * of }

  // ----- the writer -----

  const SECTION_NAME: seq<u8> := [0x2E, 0x77, 0x32, 0x6B, 0x65, 0x78, 0x70, 0]
  const CHARACTERISTICS: u32 := 0x4000_0040

  function Zeros(n: nat): seq<u8> { seq(n, _ => 0) }

  predicate HeaderWritten(out: seq<u8>, at: nat, p: Place) {
    && at + 40 <= |out| && out[at..at + 8] == SECTION_NAME
    && Dword(out, at + 8) == p.size && Dword(out, at + 12) == p.va
    && Dword(out, at + 16) == p.size && Dword(out, at + 20) == p.raw
    && Dword(out, at + 24) == 0 && Dword(out, at + 28) == 0 && Hword(out, at + 32) == 0 && Hword(out, at + 34) == 0
    && Dword(out, at + 36) == CHARACTERISTICS
  }

  /** The forty bytes of the new section's header. */
  method WriteHeader(data: seq<u8>, at: nat, p: Place) returns (out: seq<u8>)
    requires at + 40 <= |data| && p.size < WORD && p.va < WORD && p.raw < WORD
    ensures |out| == |data| && HeaderWritten(out, at, p)
    ensures forall i :: 0 <= i < |data| && !(at <= i < at + 40) ==> out[i] == data[i]
  {
    hide Dword, Hword;
    out := PackInto(data, at, SECTION_NAME);
    ghost var named := out;
    out := PackDword(out, at + 8, p.size);
    out := PackDword(out, at + 12, p.va);
    out := PackDword(out, at + 16, p.size);
    out := PackDword(out, at + 20, p.raw);
    out := PackDword(out, at + 24, 0);
    out := PackDword(out, at + 28, 0);
    out := PackHword(out, at + 32, 0);
    out := PackHword(out, at + 34, 0);
    out := PackDword(out, at + 36, CHARACTERISTICS);
    assert forall i :: at <= i < at + 8 ==> out[i] == named[i];
    assert out[at..at + 8] == SECTION_NAME;
  }

  predicate FieldsWritten(out: seq<u8>, h: Headers, p: Place, checksum: u32) {
    && Hword(out, h.NumberOfSectionsAt()) == |h.sections| + 1
    && Dword(out, h.SizeOfImageAt()) == p.imageSize
    && Dword(out, h.InitializedDataAt()) == h.initializedData + p.size
    && Dword(out, h.ExportEntryAt()) == p.va && Dword(out, h.ExportEntryAt() + 4) == p.size
    && Dword(out, h.CheckSumAt()) == checksum
  }

  /** The fields of the existing headers that count the new section in. */
  method WriteFields(data: seq<u8>, h: Headers, p: Place, checksum: u32) returns (out: seq<u8>)
    requires h.ExportEntryAt() + 8 <= |data|
    requires p.size < WORD && p.va < WORD && p.imageSize < WORD
    requires |h.sections| + 1 < 0x1_0000 && h.initializedData + p.size < WORD
    ensures |out| == |data| && FieldsWritten(out, h, p, checksum)
    ensures forall i :: 0 <= i < |data| && !h.Touched(i) ==> out[i] == data[i]
    ensures forall i :: h.ExportEntryAt() + 8 <= i < |data| ==> out[i] == data[i]
  {
    hide Dword, Hword;
    out := PackHword(data, h.NumberOfSectionsAt(), |h.sections| + 1);
    out := PackDword(out, h.SizeOfImageAt(), p.imageSize);
    out := PackDword(out, h.InitializedDataAt(), h.initializedData + p.size);
    out := PackDword(out, h.ExportEntryAt(), p.va);
    out := PackDword(out, h.ExportEntryAt() + 4, p.size);
    out := PackDword(out, h.CheckSumAt(), 0);
    out := PackDword(out, h.CheckSumAt(), checksum);
  }

  /** Every number the headers have to hold fits its field. */
  predicate Representable(h: Headers, p: Place) {
    && p.size < WORD && p.va < WORD && p.raw < WORD && p.imageSize < WORD
    && |h.sections| + 1 < 0x1_0000 && h.initializedData + p.size < WORD
  }

  /** `data` padded to the file alignment, the padded blob behind it, and the headers brought up to date. */
  method AppendSection(data: seq<u8>, h: Headers, blob: seq<u8>, checksum: u32) returns (r: Option<seq<u8>>)
    requires h.Fits(data)
    ensures r.Some? <==> Representable(h, PlaceFor(h, |data|, |blob|))
    ensures r.Some? ==> Appended(data, h, blob, checksum, r.value)
  {
    hide AlignUp, HeaderWritten, FieldsWritten;
    var p := PlaceFor(h, |data|, |blob|);
    NewSectionIsClear(h, |data|, |blob|, 0);
    if !(p.size < WORD && p.va < WORD && p.raw < WORD && p.imageSize < WORD) { return None; }
    if !(|h.sections| + 1 < 0x1_0000 && h.initializedData + p.size < WORD) { return None; }
    var padded := blob + Zeros(p.size - |blob|);
    var out := data + Zeros(p.raw - |data|) + padded;
    ghost var joined := out;
    out := WriteFields(out, h, p, checksum);
    ghost var counted := out;
    out := WriteHeader(out, h.NewHeaderAt(), p);
    FieldsStay(counted, out, h, p, checksum);
    assert out[p.raw..] == padded;
    return Some(out);
  }

  lemma FieldsStay(s: seq<u8>, t: seq<u8>, h: Headers, p: Place, checksum: u32)
    requires FieldsWritten(s, h, p, checksum) && |s| == |t| && h.optionalSize >= 104
    requires forall i :: 0 <= i < |s| && !(h.NewHeaderAt() <= i < h.NewHeaderAt() + 40) ==> t[i] == s[i]
    ensures FieldsWritten(t, h, p, checksum)
  {
    SameDword(t, s, h.SizeOfImageAt());
    SameDword(t, s, h.InitializedDataAt());
    SameDword(t, s, h.CheckSumAt());
    SameDword(t, s, h.ExportEntryAt());
    SameDword(t, s, h.ExportEntryAt() + 4);
    assert forall i :: h.NumberOfSectionsAt() <= i < h.NumberOfSectionsAt() + 2 && i < |s| ==> t[i] == s[i];
  }

  /** What the output file is: the input outside the listed header bytes, then the section, described by its header. */
  ghost predicate Appended(data: seq<u8>, h: Headers, blob: seq<u8>, checksum: u32, out: seq<u8>)
    requires h.Fits(data)
  {
    var p := PlaceFor(h, |data|, |blob|);
    && |data| <= p.raw && |blob| <= p.size && |out| == p.raw + p.size
    && (forall i :: 0 <= i < |data| && !h.Touched(i) ==> out[i] == data[i])
    && (forall i :: |data| <= i < p.raw ==> out[i] == 0)
    && out[p.raw..] == blob + Zeros(p.size - |blob|)
    && FieldsWritten(out, h, p, checksum) && HeaderWritten(out, h.NewHeaderAt(), p)
  }
}
