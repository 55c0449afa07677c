/** The IPv4 printer, and the proof that what it prints is parsed back to the same address. */
module Ipv4Print {
  import opened Bytes
  import opened Ipv4Text
  import opened Numerals
  import opened Sequences

  function Letter(v: nat): char
    requires v < 10
  {
    (v + '0' as int) as char
  }

  /** The decimal text of a byte. */
  function Decimal(v: u8): (d: string)
    ensures 1 <= |d| <= 3
  {
    if v >= 100 then [Letter(v / 100), Letter(v % 100 / 10), Letter(v % 10)]
    else if v >= 10 then [Letter(v / 10), Letter(v % 10)]
    else [Letter(v)]
  }

  /** It is a run of digits with the byte's value, and starts with 0 only when it is all of it. */
  lemma DecimalValue(v: u8)
    ensures Digits(Decimal(v)) && Value(Decimal(v)) == v
    ensures Decimal(v)[0] == '0' ==> v == 0
  {
    var d := Decimal(v);
    assert Value([]) == 0;
    hide Value;
    OneMore([], d[0]);
    assert [] + [d[0]] == [d[0]];
    if v >= 10 {
      OneMore([d[0]], d[1]);
      assert [d[0]] + [d[1]] == [d[0], d[1]];
    }
    if v >= 100 {
      OneMore([d[0], d[1]], d[2]);
      assert [d[0], d[1]] + [d[2]] == d;
    }
  }

  lemma OneMore(d: string, c: char)
    requires Digit(c) && forall k :: 0 <= k < |d| ==> Digit(d[k])
    ensures Value(d + [c]) == 10 * Value(d) + DigitValue(c)
  {
    assert (d + [c])[..|d|] == d;
  }

  function Decimals(b: seq<u8>): (parts: seq<string>)
    ensures |parts| == |b|
  {
    seq(|b|, k requires 0 <= k < |b| => Decimal(b[k]))
  }

  /** The text of an address. */
  function Render(b: seq<u8>): string { Join(Decimals(b)) }

  /** Printing and parsing gives the address back. */
  lemma RoundTrip(b: seq<u8>)
    requires |b| == 4
    ensures Parse(Render(b), 4) == Some(b)
  {
    hide Decimal, Parse, Value, Join;
    var parts := Decimals(b);
    forall k | 0 <= k < 4 ensures Digits(parts[k]) && Value(parts[k]) == b[k] { DecimalValue(b[k]); }
    ParseAccepts(parts);
    assert Values(parts) == b;
  }

  /** With its NUL the text never needs more than 16 bytes, nor fewer than 8. */
  lemma RenderLength(b: seq<u8>)
    requires |b| == 4
    ensures 8 <= |Render(b)| + 1 <= 16
  {
    hide Decimal;
    var parts := Decimals(b);
    JoinFour(parts);
  }

  lemma JoinFour(parts: seq<string>)
    requires |parts| == 4
    ensures Join(parts) == parts[0] + "." + parts[1] + "." + parts[2] + "." + parts[3]
  {
    assert parts[1..][1..] == parts[2..] && parts[2..][1..] == [parts[3]];
    assert Join([parts[3]]) == parts[3];
    hide Join;
    JoinTail(parts);
    JoinTail(parts[1..]);
    JoinTail(parts[2..]);
  }

  // ----- the printer -----

  const AF_INET := 2

  datatype Printed = Unsupported | Fault | Text

  /** Writes the decimal text of a byte and moves the cursor behind it. */
  method AppendDecimalByte(output: array<char>, start: nat, byte: u8) returns (cursor: nat)
    requires start + 3 <= output.Length
    modifies output
    ensures start < cursor <= start + 3 && output[..cursor] == old(output[..start]) + Decimal(byte)
  {
    cursor := start;
    var value: nat := byte;
    if value >= 100 {
      output[cursor] := Letter(value / 100);
      cursor := cursor + 1;
      value := value % 100;
      output[cursor] := Letter(value / 10);
      cursor := cursor + 1;
    } else if value >= 10 {
      output[cursor] := Letter(value / 10);
      cursor := cursor + 1;
    }
    output[cursor] := Letter(value % 10);
    cursor := cursor + 1;
  }

  /** The first `n` parts, each but a fourth with its dot. */
  ghost function Dotted(parts: seq<string>, n: nat): string
    requires n <= |parts| == 4
  {
    if n == 0 then "" else Dotted(parts, n - 1) + parts[n - 1] + if n == 4 then "" else "."
  }

  lemma DottedFour(parts: seq<string>)
    requires |parts| == 4
    ensures Dotted(parts, 4) == Join(parts)
  {
    JoinFour(parts);
    hide Join;
    assert Dotted(parts, 1) == parts[0] + ".";
    assert Dotted(parts, 2) == parts[0] + "." + parts[1] + ".";
    assert Dotted(parts, 3) == parts[0] + "." + parts[1] + "." + parts[2] + ".";
  }

  /** The loop over the four bytes, into a buffer of 16. */
  method RenderInto(rendered: array<char>, bytes: seq<u8>) returns (cursor: nat)
    requires rendered.Length == 16 && |bytes| == 4
    modifies rendered
    ensures 1 <= cursor <= 16 && rendered[..cursor] == Render(bytes) + ['\0']
  {
    hide Decimal, Join;
    cursor := 0;
    ghost var parts := Decimals(bytes);
    for index := 0 to 4
      invariant cursor <= 4 * index && (index == 4 ==> cursor <= 15)
      invariant rendered[..cursor] == Dotted(parts, index)
    {
      cursor := AppendDecimalByte(rendered, cursor, bytes[index]);
      if index != 3 {
        rendered[cursor] := '.';
        cursor := cursor + 1;
      }
    }
    DottedFour(parts);
    rendered[cursor] := '\0';
    cursor := cursor + 1;
  }

  /** `lstrcpyA`: the first `n` characters, NUL and all. */
  method CopyText(buffer: array<char>, rendered: array<char>, n: nat)
    requires n <= buffer.Length && n <= rendered.Length && buffer != rendered
    modifies buffer
    ensures buffer[..] == rendered[..n] + old(buffer[n..])
  {
    for i := 0 to n
      invariant buffer[..i] == rendered[..i] && buffer[i..] == old(buffer[i..])
    {
      ghost var rest := buffer[i..];
      buffer[i] := rendered[i];
      assert buffer[i + 1..] == rest[1..];
    }
    assert buffer[..] == buffer[..n] + buffer[n..];
  }

  /**
   `inet_ntop`. It fills the caller's buffer exactly when the family is IPv4, both pointers are given and the text
   with its NUL fits, and otherwise leaves it alone.
  */
  method InetNtop(family: int, address: Option<seq<u8>>, buffer: array?<char>, size: nat) returns (r: Printed)
    requires address.Some? ==> |address.value| == 4
    requires buffer != null ==> size <= buffer.Length
    modifies buffer
    ensures r == Unsupported <==> family != AF_INET
    ensures r == Text <==> family == AF_INET && address.Some? && buffer != null && |Render(address.value)| + 1 <= size
    ensures r == Text ==> buffer[..] == Render(address.value) + ['\0'] + old(buffer[|Render(address.value)| + 1..])
    ensures r != Text && buffer != null ==> buffer[..] == old(buffer[..])
  {
    hide Render;
    if family != AF_INET { return Unsupported; }
    if address == None || buffer == null { return Fault; }
    var rendered := new char[16];
    var cursor := RenderInto(rendered, address.value);
    assert cursor == |Render(address.value) + ['\0']|;
    if size < cursor { return Fault; }
    CopyText(buffer, rendered, cursor);
    return Text;
  }
}
