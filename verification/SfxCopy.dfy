/** The self-extractor's copy of its payload, a buffer at a time, with the checksum run along. */
module SfxCopy {
  import opened Bits
  import opened Bytes
  import opened Crc32
  import opened Sequences

  const FOOTER_SIZE := 208
  const COPY_BUFFER_SIZE := 65536

  datatype Outcome = BadFormat | ReadFault | WriteFault | CrcMismatch | Verified

  /** The footer's payload size fits between the program and the footer. */
  predicate WellFormed(file: seq<u8>, size: nat) {
    |file| >= FOOTER_SIZE && 0 < size <= |file| - FOOTER_SIZE
  }

  function Payload(file: seq<u8>, size: nat): (payload: seq<u8>)
    requires WellFormed(file, size)
    ensures |payload| == size
  {
    file[|file| - FOOTER_SIZE - size..|file| - FOOTER_SIZE]
  }

  /** Buffer number `k` of the copy holds some of the payload. */
  predicate Needed(k: nat, size: nat) { k * COPY_BUFFER_SIZE < size }

  /** Every read and every write the copy asks for delivers all it was asked for. */
  ghost predicate AllDelivered(readOk: nat -> bool, writeOk: nat -> bool, size: nat) {
    forall k: nat :: Needed(k, size) ==> readOk(k) && writeOk(k)
  }

  /** `ReadFile`: the next `request` bytes into the front of the buffer. */
  method ReadInto(buffer: array<u8>, file: seq<u8>, at: nat, request: nat)
    requires at + request <= |file| && request <= buffer.Length
    modifies buffer
    ensures buffer[..request] == file[at..at + request]
  {
    for i := 0 to request
      invariant buffer[..i] == file[at..at + i]
    {
      buffer[i] := file[at + i];
    }
  }

  /**
   The loop over the payload. `readOk(k)` and `writeOk(k)` say whether the k-th read and write deliver everything. A
   verified copy is the whole payload, and one with the expected checksum; with no fault in the way only the checksum
   decides.
  */
  method CopyAndCheck(
    table: array<nat>, file: seq<u8>, size: nat, expected: u32, readOk: nat -> bool, writeOk: nat -> bool)
    returns (outcome: Outcome, written: seq<u8>)
    requires Filled(table[..])
    ensures outcome == BadFormat <==> !WellFormed(file, size)
    ensures outcome in {ReadFault, WriteFault} <==> WellFormed(file, size) && !AllDelivered(readOk, writeOk, size)
    ensures outcome == Verified <==>
      WellFormed(file, size) && AllDelivered(readOk, writeOk, size) && Crc(Payload(file, size)) == expected
    ensures WellFormed(file, size) ==> written <= Payload(file, size)
    ensures outcome in {Verified, CrcMismatch} ==> written == Payload(file, size)
  {
    hide Feed, Xor, MessageBits;
    written := [];
    if |file| < FOOTER_SIZE || size == 0 || size > |file| - FOOTER_SIZE { return BadFormat, []; }
    var buffer := new u8[COPY_BUFFER_SIZE];
    ghost var payload := Payload(file, size);
    var start := |file| - FOOTER_SIZE - size;
    var remaining := size;
    var crc: nat := 0xFFFF_FFFF;
    var turn: nat := 0;
    EmptyFeed(crc);
    while remaining > 0
      invariant 0 <= remaining <= size && written == payload[..size - remaining]
      invariant crc == Feed(0xFFFF_FFFF, MessageBits(written))
      invariant remaining > 0 ==> size - remaining == turn * COPY_BUFFER_SIZE
      invariant remaining == 0 ==> size <= turn * COPY_BUFFER_SIZE
      invariant forall j: nat :: j < turn ==> readOk(j) && writeOk(j)
    {
      var request := if remaining > COPY_BUFFER_SIZE then COPY_BUFFER_SIZE else remaining;
      ghost var chunk := payload[size - remaining..size - remaining + request];
      assert Needed(turn, size);
      if !readOk(turn) { return ReadFault, written; }
      ReadInto(buffer, file, start + (size - remaining), request);
      PayloadSlice(file, size, size - remaining, request);
      assert buffer[..request] == chunk;
      crc := UpdateCrc32(table, crc, buffer, request);
      ChecksumGoesOn(0xFFFF_FFFF, written, chunk);
      NextStretch(payload, size - remaining, request);
      if !writeOk(turn) { return WriteFault, written; }
      written := written + buffer[..request];
      remaining := remaining - request;
      turn := turn + 1;
    }
    assert payload[..size] == payload;
    crc := Xor(crc, 0xFFFF_FFFF);
    if crc != expected { return CrcMismatch, written; }
    return Verified, written;
  }

  lemma NextStretch(s: seq<u8>, at: nat, n: nat)
    requires at + n <= |s|
    ensures s[..at] + s[at..at + n] == s[..at + n]
  {
  }

  /** A program with a payload and a footer behind it: the payload is what lies between. */
  lemma PayloadBeforeFooter(program: seq<u8>, payload: seq<u8>, footer: seq<u8>)
    requires |footer| == 208 && payload != []
    ensures WellFormed(program + payload + footer, |payload|)
    ensures Payload(program + payload + footer, |payload|) == payload
  {
    var file := program + payload + footer;
    assert file[|program|..|program| + |payload|] == payload;
  }

  lemma PayloadSlice(file: seq<u8>, size: nat, at: nat, n: nat)
    requires WellFormed(file, size) && at + n <= size
    ensures
      var start := |file| - FOOTER_SIZE - size;
      Payload(file, size)[at..at + n] == file[start + at..start + at + n]
  {
    SliceOfSlice(file, |file| - FOOTER_SIZE - size, |file| - FOOTER_SIZE, at, n);
  }

  /** The running checksum of a concatenation. */
  lemma ChecksumGoesOn(c: nat, a: seq<u8>, b: seq<u8>)
    ensures Feed(c, MessageBits(a + b)) == Feed(Feed(c, MessageBits(a)), MessageBits(b))
  {
    hide Feed, MessageBits;
    MessageBitsJoin(a, b);
    FeedJoins(c, MessageBits(a), MessageBits(b));
  }
}
