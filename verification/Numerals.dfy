/** Decimal digits, what a run of them is worth, and runs with dots between them. */
module Numerals {

  predicate Digit(c: char) { '0' <= c <= '9' }

  /** A non-empty run of digits. */
  predicate Digits(d: string) {
    d != [] && forall k :: 0 <= k < |d| ==> Digit(d[k])
  }

  function DigitValue(c: char): nat
    requires Digit(c)
  {
    c as int - '0' as int
  }

  function Value(d: string): nat
    requires forall k :: 0 <= k < |d| ==> Digit(d[k])
  {
    if d == [] then 0 else 10 * Value(d[..|d| - 1]) + DigitValue(d[|d| - 1])
  }

  /** The end of the run of digits at `i`. */
  function DigitsEnd(s: string, i: nat): (e: nat)
    requires i <= |s|
    ensures i <= e <= |s| && (forall k :: i <= k < e ==> Digit(s[k])) && (e < |s| ==> !Digit(s[e]))
    decreases |s| - i
  {
    if i < |s| && Digit(s[i]) then DigitsEnd(s, i + 1) else i
  }

  lemma NoValue(s: string, i: nat)
    requires i <= |s|
    ensures Value(s[i..i]) == 0
  {
  }

  lemma NextDigit(s: string, start: nat, cursor: nat)
    requires start <= cursor < |s| && forall k :: start <= k <= cursor ==> Digit(s[k])
    ensures Value(s[start..cursor + 1]) == 10 * Value(s[start..cursor]) + DigitValue(s[cursor])
  {
    assert s[start..cursor + 1][..cursor - start] == s[start..cursor];
  }

  /** The parts with dots between them. */
  function Join(parts: seq<string>): string {
    if parts == [] then [] else if |parts| == 1 then parts[0] else parts[0] + "." + Join(parts[1..])
  }

  lemma JoinTail(parts: seq<string>)
    requires |parts| > 1
    ensures Join(parts) == parts[0] + "." + Join(parts[1..])
  {
  }

  lemma JoinOne(d: string)
    ensures Join([d]) == d
  {
  }
}
