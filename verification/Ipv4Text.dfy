/** Dotted-decimal IPv4 text: the bridge's parser against the grammar, its printer, and the round trip. */
module Ipv4Text {
  import opened Bytes
  import opened Numerals
  import opened Sequences

  // ----- the grammar -----

  /** Digit runs of any length, each worth at most 255. */
  ghost predicate Parts(parts: seq<string>) {
    forall k :: 0 <= k < |parts| ==> Digits(parts[k]) && Value(parts[k]) <= 255
  }

  function Values(parts: seq<string>): (v: seq<nat>)
    requires Parts(parts)
    ensures |v| == |parts|
  {
    seq(|parts|, k requires 0 <= k < |parts| => Value(parts[k]))
  }

  // ----- the parser -----

  /** The values of `n` dot-separated parts that make up all of `s`. */
  function Parse(s: string, n: nat): Option<seq<nat>>
    decreases n
  {
    var e := DigitsEnd(s, 0);
    if n == 0 || e == 0 || Value(s[..e]) > 255 then None
    else if n == 1 then if e == |s| then Some([Value(s[..e])]) else None
    else if e == |s| || s[e] != '.' then None
    else Prepend(Value(s[..e]), Parse(s[e + 1..], n - 1))
  }

  function Prepend(v: nat, rest: Option<seq<nat>>): Option<seq<nat>> {
    if rest.Some? then Some([v] + rest.value) else None
  }

  lemma RunEnds(d: string, more: string)
    requires Digits(d) && (more == [] || !Digit(more[0]))
    ensures DigitsEnd(d + more, 0) == |d| && (d + more)[..|d|] == d
  {
    var s, e := d + more, DigitsEnd(d + more, 0);
    assert forall k :: 0 <= k < |d| ==> s[k] == d[k];
    if more != [] { assert s[|d|] == more[0]; }
  }

  lemma PartsTail(parts: seq<string>)
    requires parts != [] && Parts(parts)
    ensures Parts(parts[1..]) && Values(parts) == [Value(parts[0])] + Values(parts[1..])
  {
    hide Value;
    forall k | 0 <= k < |parts[1..]| ensures Digits(parts[1..][k]) && Value(parts[1..][k]) <= 255 {
      assert parts[1..][k] == parts[k + 1];
    }
  }

  /** Everything the grammar spells is accepted, with the values of its parts. */
  lemma {:induction false} ParseAccepts(parts: seq<string>)
    requires parts != [] && Parts(parts)
    ensures Parse(Join(parts), |parts|) == Some(Values(parts))
  {
    hide Value, DigitsEnd;
    var d := parts[0];
    if |parts| == 1 {
      RunEnds(d, []);
      assert d + [] == d && Values(parts) == [Value(d)];
    } else {
      hide Values, Join, Parse;
      var rest := Join(parts[1..]);
      PartsTail(parts);
      ParseAccepts(parts[1..]);
      JoinTail(parts);
      assert Join(parts) == d + ("." + rest);
      ParsePart(d, rest, |parts|);
    }
  }

  lemma ParsePart(d: string, rest: string, n: nat)
    requires Digits(d) && Value(d) <= 255 && n > 1
    ensures Parse(d + ("." + rest), n) == Prepend(Value(d), Parse(rest, n - 1))
  {
    hide Value, DigitsEnd;
    PartThenRest(d, rest);
  }

  lemma PartThenRest(d: string, rest: string)
    requires Digits(d)
    ensures var s := d + ("." + rest);
      DigitsEnd(s, 0) == |d| && s[..|d|] == d && s[|d|] == '.' && s[|d| + 1..] == rest
  {
    RunEnds(d, "." + rest);
  }

  /** And nothing else is. */
  lemma {:induction false} ParseSpells(s: string, n: nat) returns (parts: seq<string>)
    requires Parse(s, n).Some?
    ensures |parts| == n && parts != [] && Parts(parts) && s == Join(parts) && Parse(s, n) == Some(Values(parts))
    decreases n
  {
    hide Value, DigitsEnd, Join, Digits, Parse, Values;
    var e := DigitsEnd(s, 0);
    var d := s[..e];
    FirstPart(s, n);
    if n == 1 {
      parts := [d];
      JoinOne(d);
    } else {
      var rest := ParseSpells(s[e + 1..], n - 1);
      parts := [d] + rest;
      assert parts[1..] == rest;
      JoinTail(parts);
      assert s == d + "." + s[e + 1..];
    }
    ParseAccepts(parts);
  }

  lemma FirstPart(s: string, n: nat)
    requires Parse(s, n).Some?
    ensures var e := DigitsEnd(s, 0);
      && n > 0 && Digits(s[..e]) && Value(s[..e]) <= 255
      && if n == 1 then e == |s| else e < |s| && s[e] == '.' && Parse(s[e + 1..], n - 1).Some?
  {
    hide Value, DigitsEnd;
  }

  /** The nested loops over parts and digits, with their early exits. `None` stands for a refusal. */
  method ParseIpv4(text: Option<string>) returns (r: Option<seq<u8>>)
    requires text.Some? ==> '\0' !in text.value
    ensures r.Some? ==> |r.value| == 4
    ensures r == if text.Some? then Parse(text.value, 4) else None
  {
    hide Value, DigitsEnd, Parse;
    if text == None || text.value == [] {
      if text.Some? { NoDigits(text.value, 4); }
      return None;
    }
    var s := text.value;
    var parts: seq<nat> := [];
    var cursor := 0;
    assert s[0..] == s;
    PrependNothing(Parse(s, 4));
    for index := 0 to 4
      invariant cursor <= |s| && |parts| == index && forall k :: 0 <= k < index ==> parts[k] <= 255
      invariant index < 4 ==> Parse(s, 4) == PrependAll(parts, Parse(s[cursor..], 4 - index))
      invariant index == 4 ==> Parse(s, 4) == if cursor == |s| then Some(parts) else None
    {
      ghost var start := cursor;
      var part, digits := 0, 0;
      NoValue(s, start);
      while cursor < |s| && Digit(s[cursor])
        invariant cursor == start + digits <= |s|
        invariant forall k :: start <= k < cursor ==> Digit(s[k])
        invariant part == Value(s[start..cursor]) && part <= 255
        decreases |s| - cursor
      {
        NextDigit(s, start, cursor);
        part := part * 10 + DigitValue(s[cursor]);
        if part > 255 {
          assert s[start..][..digits + 1] == s[start..cursor + 1];
          OverflowRefuses(s[start..], digits + 1, 4 - index);
          return None;
        }
        cursor := cursor + 1;
        digits := digits + 1;
      }
      assert s[start..][..digits] == s[start..cursor];
      PartTurn(s[start..], digits, 4 - index);
      if digits == 0 { return None; }
      parts := parts + [part];
      if index != 3 {
        if cursor == |s| || s[cursor] != '.' { return None; }
        assert s[start..][digits + 1..] == s[cursor + 1..];
        PrependMore(parts[..index], part, Parse(s[cursor + 1..], 3 - index));
        assert parts[..index] + [part] == parts;
        cursor := cursor + 1;
      }
    }
    if cursor < |s| { return None; }
    return Some(parts);
  }

  function PrependAll(parts: seq<nat>, rest: Option<seq<nat>>): Option<seq<nat>> {
    if rest.Some? then Some(parts + rest.value) else None
  }

  lemma PrependMore(parts: seq<nat>, part: nat, rest: Option<seq<nat>>)
    ensures PrependAll(parts, Prepend(part, rest)) == PrependAll(parts + [part], rest)
  {
    if rest.Some? { assert parts + ([part] + rest.value) == parts + [part] + rest.value; }
  }

  lemma PrependNothing(rest: Option<seq<nat>>)
    ensures PrependAll([], rest) == rest
  {
    if rest.Some? { assert [] + rest.value == rest.value; }
  }

  lemma NoDigits(s: string, n: nat)
    requires s == [] || !Digit(s[0])
    ensures Parse(s, n) == None
  {
  }

  /** Once the first digits of a run exceed 255 the whole run does, so giving up early refuses nothing valid. */
  lemma OverflowRefuses(s: string, digits: nat, n: nat)
    requires digits <= |s| && (forall k :: 0 <= k < digits ==> Digit(s[k])) && Value(s[..digits]) > 255
    ensures Parse(s, n) == None
  {
    hide Value;
    ValueGrows(s, digits, DigitsEnd(s, 0));
  }

  lemma {:induction false} ValueGrows(s: string, m: nat, e: nat)
    requires m <= |s| && e <= |s| && (e < |s| ==> !Digit(s[e]))
    requires forall k :: 0 <= k < m || 0 <= k < e ==> Digit(s[k])
    ensures m <= e && Value(s[..m]) <= Value(s[..e])
    decreases e
  {
    if m < e {
      assert s[..e][..e - 1] == s[..e - 1];
      ValueUpTo(s, m, e);
    }
  }

  lemma {:induction false} ValueUpTo(s: string, m: nat, e: nat)
    requires m <= e <= |s| && forall k :: 0 <= k < e ==> Digit(s[k])
    ensures Value(s[..m]) <= Value(s[..e])
    decreases e
  {
    if m < e {
      assert s[..e][..e - 1] == s[..e - 1];
      ValueUpTo(s, m, e - 1);
    }
  }

  /** What a whole run of digits settles. */
  lemma PartTurn(s: string, digits: nat, n: nat)
    requires n > 0 && digits <= |s| && (forall k :: 0 <= k < digits ==> Digit(s[k]))
      && (digits < |s| ==> !Digit(s[digits]))
    requires Value(s[..digits]) <= 255
    ensures digits == 0 ==> Parse(s, n) == None
    ensures digits > 0 && n == 1 ==> Parse(s, n) == if digits == |s| then Some([Value(s[..digits])]) else None
    ensures digits > 0 && n > 1 && (digits == |s| || s[digits] != '.') ==> Parse(s, n) == None
    ensures digits > 0 && n > 1 && digits < |s| && s[digits] == '.' ==>
      Parse(s, n) == Prepend(Value(s[..digits]), Parse(s[digits + 1..], n - 1))
  {
    hide Value;
    assert DigitsEnd(s, 0) == digits;
  }
}
