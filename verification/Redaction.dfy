/**
 What the launcher's redactor rewrites, as a function of the whole text. Text is a C string: no NUL inside, a NUL one
 past the end. Letter cases and classes are those of the C locale.
*/
module Redaction {
  import opened Numerals

  // ----- characters -----

  predicate Alpha(c: char) { 'A' <= c <= 'Z' || 'a' <= c <= 'z' }

  predicate Space(c: char) { c == ' ' || '\t' <= c <= '\r' }

  function Lower(c: char): char {
    if 'A' <= c <= 'Z' then (c as int + 32) as char else c
  }

  predicate TokenBoundary(c: char) { c == '\0' || !(Alpha(c) || Digit(c) || c == '_' || c == '-') }

  predicate StrongDelimiter(c: char) {
    || c == '\0' || c == '\r' || c == '\n' || c == '\"' || c == '\'' || c == '<' || c == '>' || c == '|'
    || c == ',' || c == ';' || c == ')' || c == ']' || c == '}'
  }

  /** The character at `i`, or the terminating NUL. */
  function At(s: string, i: nat): char { if i < |s| then s[i] else '\0' }

  // ----- what stands at a position -----

  predicate StartsWith(s: string, i: nat, prefix: string) {
    i + |prefix| <= |s| && forall k :: 0 <= k < |prefix| ==> Lower(s[i + k]) == Lower(prefix[k])
  }

  predicate UrlAt(s: string, i: nat) {
    StartsWith(s, i, "http://") || StartsWith(s, i, "https://") || StartsWith(s, i, "file://")
      || StartsWith(s, i, "blob:")
  }

  predicate PathAt(s: string, i: nat) {
    || (Alpha(At(s, i)) && At(s, i + 1) == ':' && (At(s, i + 2) == '\\' || At(s, i + 2) == '/'))
    || (At(s, i) == '\\' && At(s, i + 1) == '\\')
  }

  predicate LabelAt(s: string, i: nat) {
    || StartsWith(s, i, "username=") || StartsWith(s, i, "user_name=")
    || StartsWith(s, i, "user-name=") || StartsWith(s, i, "computername=")
  }

  /** A whole word that is the sensitive one. */
  predicate WordAt(s: string, i: nat, word: string) {
    && (i == 0 || TokenBoundary(At(s, i - 1)))
    && word != [] && StartsWith(s, i, word) && TokenBoundary(At(s, i + |word|))
  }

  /** Where `n` dot-separated groups of one to three digits, each at most 255, end; 0 when there are none. */
  function GroupsEnd(s: string, i: nat, n: nat): (e: nat)
    requires i <= |s| && n > 0
    ensures e == 0 || i < e <= |s|
    decreases n
  {
    var e := DigitsEnd(s, i);
    if e == i || e > i + 3 || Value(s[i..e]) > 255 then 0
    else if n == 1 then e
    else if At(s, e) != '.' then 0
    else GroupsEnd(s, e + 1, n - 1)
  }

  /** The length of the IPv4 address at `i`, or 0. */
  function Ipv4Length(s: string, i: nat): (n: nat)
    requires i <= |s|
    ensures i + n <= |s|
  {
    var e := GroupsEnd(s, i, 4);
    if e > 0 && (TokenBoundary(At(s, e)) || At(s, e) in {':', '/', ','}) then e - i else 0
  }

  /** The end of the value at `i`: the next space or strong delimiter. */
  function ValueEnd(s: string, i: nat): (e: nat)
    requires i <= |s|
    ensures i <= e <= |s|
    ensures forall k :: i <= k < e ==> !Space(s[k]) && !StrongDelimiter(s[k])
    decreases |s| - i
  {
    if i < |s| && !Space(s[i]) && !StrongDelimiter(s[i]) then ValueEnd(s, i + 1) else i
  }

  /** The end of the path at `i`, which may hold spaces. */
  function PathEnd(s: string, i: nat): (e: nat)
    requires i <= |s|
    ensures i <= e <= |s|
    decreases |s| - i
  {
    if i < |s| && !StrongDelimiter(s[i]) then PathEnd(s, i + 1) else i
  }

  /** The last `@` in `s[i..e]`, or `e`. */
  function LastAt(s: string, i: nat, e: nat): (at: nat)
    requires i <= e <= |s|
    ensures i <= at <= e && (at < e ==> s[at] == '@')
    ensures forall k :: i <= k < e && s[k] == '@' ==> k <= at < e
    decreases e - i
  {
    if i == e then e
    else
      var later := LastAt(s, i + 1, e);
      if later < e then later else if s[i] == '@' then i else e
  }

  /** A token whose last `@` has something on both sides. */
  predicate EmailAt(s: string, i: nat)
    requires i <= |s|
  {
    var e := ValueEnd(s, i);
    i < LastAt(s, i, e) && LastAt(s, i, e) + 1 < e
  }

  /** The length of the label at `i`, up to and with its `=`. */
  function LabelLength(s: string, i: nat): (n: nat)
    requires LabelAt(s, i)
    ensures 9 <= n && i + n <= |s|
  {
    if StartsWith(s, i, "username=") then 9
    else if StartsWith(s, i, "user_name=") || StartsWith(s, i, "user-name=") then 10
    else 13
  }

  // ----- the rewriting -----

  const URL := "<web-url-redacted>"
  const PATH := "<local-path-redacted>"
  const LABELLED := "<redacted>"
  const COMPUTER := "<computer-name-redacted>"
  const USER := "<username-redacted>"
  const ADDRESS := "<ip-address-redacted>"
  const EMAIL := "<email-redacted>"

  /** What one turn of the loop puts out, and where it goes on. */
  datatype Turn = Turn(text: string, next: nat)

  function TurnAt(s: string, i: nat, user: string, computer: string): (t: Turn)
    requires i < |s|
    ensures i < t.next <= |s|
  {
    if UrlAt(s, i) then UrlAdvances(s, i); Turn(URL, ValueEnd(s, i))
    else if PathAt(s, i) then Turn(PATH, PathEnd(s, i))
    else if LabelAt(s, i) then
      var e := i + LabelLength(s, i);
      Turn(s[i..e] + LABELLED, ValueEnd(s, e))
    else if WordAt(s, i, computer) then Turn(COMPUTER, i + |computer|)
    else if WordAt(s, i, user) then Turn(USER, i + |user|)
    else if Ipv4Length(s, i) > 0 then Turn(ADDRESS, i + Ipv4Length(s, i))
    else if EmailAt(s, i) then Turn(EMAIL, ValueEnd(s, i))
    else Turn([s[i]], i + 1)
  }

  lemma UrlAdvances(s: string, i: nat)
    requires UrlAt(s, i)
    ensures i < |s| && ValueEnd(s, i) > i
  {
    FirstLetter(s, i, "http://");
    FirstLetter(s, i, "https://");
    FirstLetter(s, i, "file://");
    FirstLetter(s, i, "blob:");
  }

  lemma FirstLetter(s: string, i: nat, prefix: string)
    ensures StartsWith(s, i, prefix) && prefix != [] ==> Lower(s[i]) == Lower(prefix[0])
  {
    if StartsWith(s, i, prefix) && prefix != [] { assert Lower(s[i + 0]) == Lower(prefix[0]); }
  }

  /** The whole rewritten text from `i` on, whatever its length. */
  function Rewrite(s: string, i: nat, user: string, computer: string): string
    requires i <= |s|
    decreases |s| - i
  {
    if i == |s| then []
    else
      var t := TurnAt(s, i, user, computer);
      t.text + Rewrite(s, t.next, user, computer)
  }

  function Truncated(s: string, n: nat): (r: string) { if |s| <= n then s else s[..n] }

  lemma TruncatedTwice(a: string, b: string, n: nat)
    ensures Truncated(Truncated(a, n) + b, n) == Truncated(a + b, n)
  {
  }
}
