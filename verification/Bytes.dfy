/** Bytes, and the little-endian words both binary formats are made of. */
module Bytes {

  const WORD := 0x1_0000_0000

  type u8 = x: int | 0 <= x < 0x100
  type u32 = x: int | 0 <= x < 0x1_0000_0000

  function Le32(v: u32): (b: seq<u8>)
    ensures |b| == 4
  {
    [v % 0x100, v / 0x100 % 0x100, v / 0x1_0000 % 0x100, v / 0x100_0000]
  }

  function WordAt(s: seq<u8>, k: nat): u32
    requires k + 4 <= |s|
  {
    s[k] + 0x100 * s[k + 1] as int + 0x1_0000 * s[k + 2] as int + 0x100_0000 * s[k + 3] as int
  }

  lemma WordLe32(v: u32)
    ensures WordAt(Le32(v), 0) == v
  {
    assert v == v % 0x100 + 0x100 * (v / 0x100);
    assert v / 0x100 == v / 0x100 % 0x100 + 0x100 * (v / 0x1_0000);
    assert v / 0x1_0000 == v / 0x1_0000 % 0x100 + 0x100 * (v / 0x100_0000);
  }

  lemma WordAtLe32(s: seq<u8>, k: nat, v: u32)
    requires k + 4 <= |s| && s[k..k + 4] == Le32(v)
    ensures WordAt(s, k) == v
  {
    hide Le32;
    WordLe32(v);
    var b := s[k..k + 4];
    assert s[k] == b[0] && s[k + 1] == b[1] && s[k + 2] == b[2] && s[k + 3] == b[3];
  }

  function Le16(v: int): (b: seq<u8>)
    requires 0 <= v < 0x1_0000
    ensures |b| == 2
  {
    [v % 0x100, v / 0x100]
  }

  // ----- fields of a buffer -----

  /** The word at `o`, or zero where the buffer does not reach. */
  function Dword(s: seq<u8>, o: int): u32 {
    if 0 <= o && o + 4 <= |s| then WordAt(s, o) else 0
  }

  function Hword(s: seq<u8>, o: int): int {
    if 0 <= o && o + 2 <= |s| then s[o] as int + 0x100 * s[o + 1] as int else 0
  }

  /** `struct.pack_into`: `bytes` written over `s` at `o`. */
  function PackInto(s: seq<u8>, o: nat, bytes: seq<u8>): (r: seq<u8>)
    requires o + |bytes| <= |s|
    ensures |r| == |s|
    ensures forall i :: 0 <= i < |s| ==> r[i] == if o <= i < o + |bytes| then bytes[i - o] else s[i]
  {
    s[..o] + bytes + s[o + |bytes|..]
  }

  /** Buffers that agree on a field's bytes agree on the field. */
  lemma SameDword(s: seq<u8>, t: seq<u8>, o: int)
    requires |s| == |t| && forall i :: o <= i < o + 4 && 0 <= i < |s| ==> s[i] == t[i]
    ensures Dword(s, o) == Dword(t, o)
  {
  }

  /** `struct.pack_into("<I", …)`: the field holds the value, and every byte and field clear of it stays. */
  method PackDword(s: seq<u8>, o: nat, v: u32) returns (r: seq<u8>)
    requires o + 4 <= |s|
    ensures |r| == |s| && Dword(r, o) == v
    ensures forall i :: 0 <= i < |s| && !(o <= i < o + 4) ==> r[i] == s[i]
    ensures forall p :: p + 4 <= o || o + 4 <= p ==> Dword(r, p) == Dword(s, p)
    ensures forall p :: p + 2 <= o || o + 4 <= p ==> Hword(r, p) == Hword(s, p)
  {
    hide Le32;
    r := PackInto(s, o, Le32(v));
    assert r[o..o + 4] == Le32(v);
    WordAtLe32(r, o, v);
  }

  /** `struct.pack_into("<H", …)`. */
  method PackHword(s: seq<u8>, o: nat, v: int) returns (r: seq<u8>)
    requires o + 2 <= |s| && 0 <= v < 0x1_0000
    ensures |r| == |s| && Hword(r, o) == v
    ensures forall i :: 0 <= i < |s| && !(o <= i < o + 2) ==> r[i] == s[i]
    ensures forall p :: p + 4 <= o || o + 2 <= p ==> Dword(r, p) == Dword(s, p)
    ensures forall p :: p + 2 <= o || o + 2 <= p ==> Hword(r, p) == Hword(s, p)
  {
    r := PackInto(s, o, Le16(v));
  }
}
