/**
 What is redacted, said of the text alone: at the first place where any of the seven things stands, exactly that stretch
 gives way to its own marker, and the rewriting goes on behind it.
*/
module RedactionCases {
  import opened Numerals
  import opened Redaction
  import opened SanitizeText
  import opened Sequences

  // ----- the seven things -----

  datatype Case = WebUrl | LocalPath | Label | ComputerName | UserName | IpAddress | EMail

  predicate StopsValue(c: char) { Space(c) || StrongDelimiter(c) }

  /** From `i` to `e` the value goes on as far as it can. */
  ghost predicate WholeValue(s: string, i: nat, e: nat) {
    i <= e <= |s| && (forall k :: i <= k < e ==> !StopsValue(s[k])) && (e < |s| ==> StopsValue(s[e]))
  }

  /** From `i` to `e` the path goes on as far as it can; it may hold spaces. */
  ghost predicate WholePath(s: string, i: nat, e: nat) {
    i <= e <= |s| && (forall k :: i <= k < e ==> !StrongDelimiter(s[k])) && (e < |s| ==> StrongDelimiter(s[e]))
  }

  /** A label up to and with its only equals sign. */
  ghost predicate WholeLabel(s: string, i: nat, m: nat) {
    i < m <= |s| && s[m - 1] == '=' && '=' !in s[i..m - 1]
  }

  predicate OctetText(d: string) { Digits(d) && |d| <= 3 && Value(d) <= 255 }

  /** Dotted decimal of `n` groups. */
  ghost predicate Groups(text: string, n: nat) {
    exists parts: seq<string> :: |parts| == n && (forall k :: 0 <= k < n ==> OctetText(parts[k])) && text == Join(parts)
  }

  /** Four groups, with a boundary, a port, a path or a comma behind. */
  ghost predicate WholeAddress(s: string, i: nat, e: nat) {
    i <= e <= |s| && Groups(s[i..e], 4) && (TokenBoundary(At(s, e)) || At(s, e) in {':', '/', ','})
  }

  /** A token whose last at sign, at `p`, has something on both sides. */
  ghost predicate WholeEmail(s: string, i: nat, p: nat, e: nat) {
    WholeValue(s, i, e) && i < p && p + 1 < e && s[p] == '@' && forall q :: p < q < e ==> s[q] != '@'
  }

  /** The thing stands at `i`. */
  ghost predicate Stands(c: Case, s: string, i: nat, user: string, computer: string) {
    match c
    case WebUrl =>
      || StartsWith(s, i, "http://") || StartsWith(s, i, "https://")
      || StartsWith(s, i, "file://") || StartsWith(s, i, "blob:")
    case LocalPath =>
      || (Alpha(At(s, i)) && At(s, i + 1) == ':' && At(s, i + 2) in {'\\', '/'})
      || (At(s, i) == '\\' && At(s, i + 1) == '\\')
    case Label =>
      || StartsWith(s, i, "username=") || StartsWith(s, i, "user_name=")
      || StartsWith(s, i, "user-name=") || StartsWith(s, i, "computername=")
    case ComputerName => WordAt(s, i, computer)
    case UserName => WordAt(s, i, user)
    case IpAddress => exists e: nat :: WholeAddress(s, i, e)
    case EMail => exists p: nat, e: nat :: WholeEmail(s, i, p, e)
  }

  /** The order in which they are looked for. */
  function Rank(c: Case): nat {
    match c
    case WebUrl => 0 case LocalPath => 1 case Label => 2 case ComputerName => 3
    case UserName => 4 case IpAddress => 5 case EMail => 6
  }

  ghost predicate StandsFirst(c: Case, s: string, i: nat, user: string, computer: string) {
    Stands(c, s, i, user, computer) && forall d: Case :: Rank(d) < Rank(c) ==> !Stands(d, s, i, user, computer)
  }

  ghost predicate Nothing(s: string, i: nat, user: string, computer: string) {
    forall c: Case :: !Stands(c, s, i, user, computer)
  }

  /** The stretch of the thing, from `i` to `e`, and the text that takes its place. */
  ghost predicate GivesWay(c: Case, s: string, i: nat, e: nat, text: string, user: string, computer: string) {
    i <= e <= |s| &&
    match c
    case WebUrl => WholeValue(s, i, e) && text == "<web-url-redacted>"
    case LocalPath => WholePath(s, i, e) && text == "<local-path-redacted>"
    case Label =>
      exists m: nat :: WholeLabel(s, i, m) && WholeValue(s, m, e) && text == s[i..m] + "<redacted>"
    case ComputerName => e == i + |computer| && text == "<computer-name-redacted>"
    case UserName => e == i + |user| && text == "<username-redacted>"
    case IpAddress => WholeAddress(s, i, e) && text == "<ip-address-redacted>"
    case EMail => (exists p: nat :: WholeEmail(s, i, p, e)) && text == "<email-redacted>"
  }

  // ----- the groups of an address -----

  lemma {:induction false} GroupsFound(s: string, i: nat, n: nat) returns (parts: seq<string>)
    requires i <= |s| && n > 0 && GroupsEnd(s, i, n) > 0
    ensures |parts| == n && forall k :: 0 <= k < n ==> OctetText(parts[k])
    ensures s[i..GroupsEnd(s, i, n)] == Join(parts)
    ensures GroupsEnd(s, i, n) < |s| ==> !Digit(s[GroupsEnd(s, i, n)])
    decreases n
  {
    hide Value, DigitsEnd;
    var e := DigitsEnd(s, i);
    assert OctetText(s[i..e]);
    if n == 1 {
      parts := [s[i..e]];
      JoinOne(s[i..e]);
    } else {
      var rest := GroupsFound(s, e + 1, n - 1);
      parts := [s[i..e]] + rest;
      assert parts[1..] == rest;
      JoinTail(parts);
      hide Join;
      var end := GroupsEnd(s, e + 1, n - 1);
      assert s[i..end] == s[i..e] + "." + s[e + 1..end];
    }
  }

  /** A run of digits that something else follows ends where it ends. */
  lemma RunOf(s: string, i: nat, d: string)
    requires Digits(d) && i + |d| <= |s| && s[i..i + |d|] == d && (i + |d| < |s| ==> !Digit(s[i + |d|]))
    ensures DigitsEnd(s, i) == i + |d|
  {
    var e := DigitsEnd(s, i);
    assert forall k :: i <= k < i + |d| ==> s[k] == d[k - i];
  }

  lemma {:induction false} GroupsTaken(s: string, i: nat, parts: seq<string>)
    requires parts != [] && forall k :: 0 <= k < |parts| ==> OctetText(parts[k])
    requires i + |Join(parts)| <= |s| && s[i..i + |Join(parts)|] == Join(parts)
    requires i + |Join(parts)| < |s| ==> !Digit(s[i + |Join(parts)|])
    ensures GroupsEnd(s, i, |parts|) == i + |Join(parts)|
    decreases |parts|
  {
    hide Value, DigitsEnd, Join, GroupsEnd;
    var d := parts[0];
    if |parts| == 1 {
      JoinOne(d);
      assert parts == [d];
      RunOf(s, i, d);
      LastGroup(s, i);
    } else {
      FirstGroup(s, i, parts);
      RunOf(s, i, d);
      GroupsTaken(s, i + |d| + 1, parts[1..]);
      NextGroup(s, i, |parts|);
    }
  }

  lemma LastGroup(s: string, i: nat)
    requires i <= |s|
    ensures var e := DigitsEnd(s, i); OctetText(s[i..e]) ==> GroupsEnd(s, i, 1) == e
  {
    hide Value, DigitsEnd;
  }

  lemma NextGroup(s: string, i: nat, n: nat)
    requires i <= |s| && n > 1
    ensures var e := DigitsEnd(s, i);
      OctetText(s[i..e]) && At(s, e) == '.' ==> e < |s| && GroupsEnd(s, i, n) == GroupsEnd(s, e + 1, n - 1)
  {
    hide Value, DigitsEnd;
  }

  /** The first of several groups, its dot, and the others behind it. */
  lemma FirstGroup(s: string, i: nat, parts: seq<string>)
    requires |parts| > 1 && i + |Join(parts)| <= |s| && s[i..i + |Join(parts)|] == Join(parts)
    ensures var e := i + |parts[0]|;
      && e < |s| && s[i..e] == parts[0] && s[e] == '.' && !Digit(s[e])
      && |Join(parts)| == |parts[0]| + 1 + |Join(parts[1..])|
      && s[e + 1..i + |Join(parts)|] == Join(parts[1..])
  {
    JoinTail(parts);
    hide Join;
    var d, rest := parts[0], Join(parts[1..]);
    var whole := d + "." + rest;
    assert whole[..|d|] == d && whole[|d|] == '.' && whole[|d| + 1..] == rest;
    Inside(s, i, whole, 0, |d|);
    Inside(s, i, whole, |d| + 1, |whole|);
    assert s[i + |d|] == s[i..i + |whole|][|d|];
  }

  lemma Inside(s: string, i: nat, whole: string, from: nat, to: nat)
    requires from <= to <= |whole| && i + |whole| <= |s| && s[i..i + |whole|] == whole
    ensures s[i + from..i + to] == whole[from..to]
  {
    SliceOfSlice(s, i, i + |whole|, from, to - from);
  }

  /** The length is that of an address there, and is zero exactly when there is none. */
  lemma AddressLength(s: string, i: nat)
    requires i <= |s|
    ensures Ipv4Length(s, i) > 0 ==> WholeAddress(s, i, i + Ipv4Length(s, i))
    ensures Ipv4Length(s, i) > 0 <==> exists e: nat :: WholeAddress(s, i, e)
  {
    hide GroupsEnd, Join, Value;
    if Ipv4Length(s, i) > 0 {
      var parts := GroupsFound(s, i, 4);
    }
    if e: nat :| WholeAddress(s, i, e) {
      var parts: seq<string> :|
        |parts| == 4 && (forall k :: 0 <= k < 4 ==> OctetText(parts[k])) && s[i..e] == Join(parts);
      GroupsTaken(s, i, parts);
      assert e > i by { JoinTail(parts); }
    }
  }

  /** So is a token an e-mail address exactly when its last at sign says so. */
  lemma EmailStands(s: string, i: nat)
    requires i <= |s|
    ensures EmailAt(s, i) ==> WholeEmail(s, i, LastAt(s, i, ValueEnd(s, i)), ValueEnd(s, i))
    ensures EmailAt(s, i) <==> exists p: nat, e: nat :: WholeEmail(s, i, p, e)
  {
    hide LastAt;
    ValueEnds(s, i);
    if p: nat, e: nat :| WholeEmail(s, i, p, e) {
      ValueEndsOnce(s, i, e, ValueEnd(s, i));
    }
  }

  lemma {:induction false} ValueEnds(s: string, i: nat)
    requires i <= |s|
    ensures WholeValue(s, i, ValueEnd(s, i))
    decreases |s| - i
  {
    if i < |s| && !StopsValue(s[i]) { ValueEnds(s, i + 1); }
  }

  lemma {:induction false} PathEnds(s: string, i: nat)
    requires i <= |s|
    ensures WholePath(s, i, PathEnd(s, i))
    decreases |s| - i
  {
    if i < |s| && !StrongDelimiter(s[i]) { PathEnds(s, i + 1); }
  }

  lemma ValueEndsOnce(s: string, i: nat, e: nat, f: nat)
    requires WholeValue(s, i, e) && WholeValue(s, i, f)
    ensures e == f
  {
  }

  // ----- one turn -----

  /** Nothing stands: the character goes out as it is. */
  lemma NothingTurns(s: string, i: nat, user: string, computer: string)
    requires i < |s| && Nothing(s, i, user, computer)
    ensures TurnAt(s, i, user, computer) == Turn([s[i]], i + 1)
  {
    hide StartsWith, Alpha, WordAt, WholeAddress, WholeEmail, Ipv4Length, EmailAt;
    AddressLength(s, i);
    EmailStands(s, i);
    assert !Stands(WebUrl, s, i, user, computer) && !Stands(LocalPath, s, i, user, computer);
    assert !Stands(Label, s, i, user, computer) && !Stands(ComputerName, s, i, user, computer);
    assert !Stands(UserName, s, i, user, computer) && !Stands(IpAddress, s, i, user, computer);
    assert !Stands(EMail, s, i, user, computer);
  }

  lemma LabelTurns(s: string, i: nat)
    requires LabelAt(s, i)
    ensures WholeLabel(s, i, i + LabelLength(s, i))
  {
    hide LabelLength, LabelAt;
    LabelEquals(s, i);
    var m := i + LabelLength(s, i);
    var key := s[i..m - 1];
    forall k | 0 <= k < |key| ensures key[k] != '=' { assert key[k] == s[i + k]; }
  }

  /** What stands first has none of those before it beside it. */
  lemma Earlier(c: Case, s: string, i: nat, user: string, computer: string)
    requires StandsFirst(c, s, i, user, computer)
    ensures c != WebUrl ==> !Stands(WebUrl, s, i, user, computer)
    ensures c !in {WebUrl, LocalPath} ==> !Stands(LocalPath, s, i, user, computer)
    ensures c in {ComputerName, UserName, IpAddress, EMail} ==> !Stands(Label, s, i, user, computer)
    ensures c in {UserName, IpAddress, EMail} ==> !Stands(ComputerName, s, i, user, computer)
    ensures c in {IpAddress, EMail} ==> !Stands(UserName, s, i, user, computer)
    ensures c == EMail ==> !Stands(IpAddress, s, i, user, computer)
  {
    hide Stands;
  }

  lemma TurnOf(s: string, i: nat, user: string, computer: string, c: Case)
    requires i < |s| && StandsFirst(c, s, i, user, computer)
    ensures TurnAt(s, i, user, computer).text != []
    ensures GivesWay(c, s, i, TurnAt(s, i, user, computer).next, TurnAt(s, i, user, computer).text, user, computer)
  {
    hide StartsWith, Alpha, WholeAddress, WholeEmail, WholeLabel, WholeValue, WholePath;
    hide Ipv4Length, EmailAt, LabelLength, PathEnd, ValueEnd;
    AddressLength(s, i);
    EmailStands(s, i);
    Earlier(c, s, i, user, computer);
    match c
    case WebUrl => ValueEnds(s, i);
    case LocalPath => PathEnds(s, i);
    case Label =>
      LabelTurns(s, i);
      ValueEnds(s, i + LabelLength(s, i));
    case ComputerName =>
    case UserName =>
    case IpAddress =>
    case EMail =>
  }

  // ----- the whole text -----

  /**
   Everything up to the first thing that stands comes out as it is, then the marker of the case that comes first there
   in place of the whole stretch, and then the rewriting of what is behind it.
  */
  lemma {:induction false} FirstThingGivesWay(
    s: string, i: nat, k: nat, c: Case, user: string, computer: string) returns (e: nat, text: string)
    requires i <= k < |s| && StandsFirst(c, s, k, user, computer)
    requires forall j :: i <= j < k ==> Nothing(s, j, user, computer)
    ensures k < e <= |s| && GivesWay(c, s, k, e, text, user, computer)
    ensures Rewrite(s, i, user, computer) == s[i..k] + text + Rewrite(s, e, user, computer)
    decreases k - i
  {
    hide Nothing, StandsFirst, GivesWay, TurnAt;
    if i == k {
      TurnOf(s, i, user, computer, c);
      e, text := TurnAt(s, i, user, computer).next, TurnAt(s, i, user, computer).text;
      assert s[i..k] == [];
    } else {
      NothingTurns(s, i, user, computer);
      e, text := FirstThingGivesWay(s, i + 1, k, c, user, computer);
      assert s[i..k] == [s[i]] + s[i + 1..k];
    }
  }

  /** And text where nothing stands comes out as it is. */
  lemma {:induction false} NothingStays(s: string, i: nat, user: string, computer: string)
    requires i <= |s| && forall j :: i <= j < |s| ==> Nothing(s, j, user, computer)
    ensures Rewrite(s, i, user, computer) == s[i..]
    decreases |s| - i
  {
    hide Nothing, TurnAt;
    if i < |s| {
      NothingTurns(s, i, user, computer);
      NothingStays(s, i + 1, user, computer);
    }
  }

  /** At any place either nothing stands or one thing stands first, so the two lemmas above settle every text. */
  lemma OneStandsFirst(s: string, i: nat, user: string, computer: string) returns (c: Case)
    requires !Nothing(s, i, user, computer)
    ensures StandsFirst(c, s, i, user, computer)
  {
    hide Stands;
    if Stands(WebUrl, s, i, user, computer) { c := WebUrl; }
    else if Stands(LocalPath, s, i, user, computer) { c := LocalPath; }
    else if Stands(Label, s, i, user, computer) { c := Label; }
    else if Stands(ComputerName, s, i, user, computer) { c := ComputerName; }
    else if Stands(UserName, s, i, user, computer) { c := UserName; }
    else if Stands(IpAddress, s, i, user, computer) { c := IpAddress; }
    else { c := EMail; }
    forall d: Case | Stands(d, s, i, user, computer)
      ensures Rank(c) <= Rank(d) && (Rank(c) == Rank(d) ==> c == d)
    {
      assert Rank(d) == 6 || d in {WebUrl, LocalPath, Label, ComputerName, UserName, IpAddress};
    }
  }
}
