/** Where the patched library keeps its resolvers, their slots and the names they look up. */
module ThunkLayout {
  import opened Bytes
  import opened Thunks

  const RESOLVERS_RVA := 0x73400
  const SLOTS_RVA := 0x73900
  const RESOLVER_SIZE := 73
  const BRIDGES_AT_MOST := 16

  datatype Record = Record(resolver: nat, slot: nat, name: nat)

  /** Addresses from `start` up to `end`. */
  datatype Range = Range(start: nat, end: nat)

  predicate Apart(a: Range, b: Range) { a.end <= b.start || b.end <= a.start }

  function ResolverRange(r: Record): Range { Range(r.resolver, r.resolver + RESOLVER_SIZE) }

  function SlotRange(r: Record): Range { Range(r.slot, r.slot + 4) }

  /** No resolver, slot or block of names shares a byte with another. */
  predicate Separate(records: seq<Record>, names: Range) {
    && (forall j, k :: 0 <= j < k < |records| ==> Apart(ResolverRange(records[j]), ResolverRange(records[k])))
    && (forall j, k :: 0 <= j < k < |records| ==> Apart(SlotRange(records[j]), SlotRange(records[k])))
    && (forall j, k :: 0 <= j < |records| && 0 <= k < |records| ==>
      Apart(ResolverRange(records[j]), SlotRange(records[k])))
    && (forall j :: 0 <= j < |records| ==>
      Apart(ResolverRange(records[j]), names) && Apart(SlotRange(records[j]), names))
  }

  predicate Placed(records: seq<Record>) {
    forall k :: 0 <= k < |records| ==>
      && records[k].resolver == RESOLVERS_RVA + k * RESOLVER_STRIDE && records[k].slot == SLOTS_RVA + k * 4
  }

  /** The areas hold sixteen bridges and no more: with a seventeenth its resolver lies on the first slot. */
  lemma SeparateUpToSixteen(records: seq<Record>, size: nat)
    requires Placed(records)
    ensures Separate(records, Range(STRINGS_RVA, STRINGS_RVA + size)) <==> |records| <= BRIDGES_AT_MOST
  {
    if |records| > BRIDGES_AT_MOST {
      assert !Apart(ResolverRange(records[16]), SlotRange(records[0]));
    }
  }

  lemma NothingPlaced()
    ensures Placed([])
  {
  }

  lemma PlacedMore(records: seq<Record>, name: nat)
    requires Placed(records)
    ensures var k := |records|;
      Placed(records + [Record(RESOLVERS_RVA + k * RESOLVER_STRIDE, SLOTS_RVA + k * 4, name)])
  {
  }

  lemma StillThere(s: seq<u8>, more: seq<u8>, from: nat, n: nat)
    requires from + n <= |s|
    ensures (s + more)[from..][..n] == s[from..][..n]
  {
    assert (s + more)[from..] == s[from..] + more;
  }

  /** Where each bridge's resolver, slot and name go, and the block of names itself. */
  method LayOut(library: seq<u8>, bridges: seq<seq<u8>>) returns (records: seq<Record>, names: seq<u8>)
    ensures |records| == |bridges|
    ensures Placed(records)
    ensures Separate(records, Range(STRINGS_RVA, STRINGS_RVA + |names|)) <==> |bridges| <= BRIDGES_AT_MOST
    ensures forall j, k :: 0 <= j < k < |records| ==> records[j].name + |bridges[j]| <= records[k].name
    ensures forall k :: 0 <= k < |records| ==>
      && STRINGS_RVA + |library| <= records[k].name && records[k].name - STRINGS_RVA + |bridges[k]| <= |names|
      && names[records[k].name - STRINGS_RVA..][..|bridges[k]|] == bridges[k]
    ensures library <= names
  {
    hide Placed, Separate;
    names, records := library, [];
    NothingPlaced();
    for index := 0 to |bridges|
      invariant |records| == index && library <= names
      invariant Placed(records)
      invariant forall j, k :: 0 <= j < k < index ==> records[j].name + |bridges[j]| <= records[k].name
      invariant forall k :: 0 <= k < index ==>
        && STRINGS_RVA + |library| <= records[k].name && records[k].name - STRINGS_RVA + |bridges[k]| <= |names|
        && names[records[k].name - STRINGS_RVA..][..|bridges[k]|] == bridges[k]
    {
      ghost var before := names;
      var resolver, slot := RESOLVERS_RVA + index * RESOLVER_STRIDE, SLOTS_RVA + index * 4;
      PlacedMore(records, STRINGS_RVA + |names|);
      records := records + [Record(resolver, slot, STRINGS_RVA + |names|)];
      names := names + bridges[index];
      forall k | 0 <= k < index { StillThere(before, bridges[index], records[k].name - STRINGS_RVA, |bridges[k]|); }
      assert names[|before|..] == bridges[index];
    }
    SeparateUpToSixteen(records, |names|);
  }
}
