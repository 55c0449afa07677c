/** The one-pass, bounded-buffer redactor: it computes a prefix of the rewritten text. */
module SanitizeText {
  import opened Numerals
  import opened Redaction
  import opened RedactionTheorems
  import opened Sequences

  // ----- the loops -----

  method CiStartsWith(s: string, i: nat, prefix: string) returns (r: bool)
    requires i <= |s| && '\0' !in s && '\0' !in prefix
    ensures r == StartsWith(s, i, prefix)
  {
    var k := 0;
    while k < |prefix|
      invariant k <= |prefix| && i + k <= |s|
      invariant forall j :: 0 <= j < k ==> Lower(s[i + j]) == Lower(prefix[j])
    {
      if At(s, i + k) == '\0' || Lower(At(s, i + k)) != Lower(prefix[k]) { return false; }
      k := k + 1;
    }
    return true;
  }

  method ExactSensitiveAt(s: string, i: nat, word: string) returns (r: bool)
    requires i <= |s| && '\0' !in s && '\0' !in word
    ensures r == (word != [] && StartsWith(s, i, word) && TokenBoundary(At(s, i + |word|)))
  {
    if word == [] { return false; }
    r := CiStartsWith(s, i, word);
    if r { r := TokenBoundary(At(s, i + |word|)); }
  }

  /** One turn of the group loop, after at most three digits were taken. */
  lemma GroupTurn(s: string, start: nat, digits: nat, n: nat)
    requires n > 0 && digits <= 3 && start + digits <= |s|
    requires forall k :: start <= k < start + digits ==> Digit(s[k])
    requires digits == 3 || !Digit(At(s, start + digits))
    ensures (digits == 0 || Value(s[start..start + digits]) > 255 || Digit(At(s, start + digits))) ==>
      GroupsEnd(s, start, n) == 0
    ensures !(digits == 0 || Value(s[start..start + digits]) > 255 || Digit(At(s, start + digits))) ==>
      GroupsEnd(s, start, n) ==
        if n == 1 then start + digits
        else if At(s, start + digits) != '.' then 0
        else GroupsEnd(s, start + digits + 1, n - 1)
  {
    hide Value, DigitsEnd;
    DigitsGoOn(s, start, digits);
    DigitsStop(s, start + digits);
  }

  lemma {:induction false} DigitsGoOn(s: string, i: nat, n: nat)
    requires i + n <= |s| && forall k :: i <= k < i + n ==> Digit(s[k])
    ensures DigitsEnd(s, i) == DigitsEnd(s, i + n)
    decreases n
  {
    if n > 0 { DigitsGoOn(s, i + 1, n - 1); }
  }

  lemma DigitsStop(s: string, i: nat)
    requires i <= |s|
    ensures DigitsEnd(s, i) == i <==> !Digit(At(s, i))
  {
  }

  method ParseIpv4Length(s: string, i: nat) returns (position: nat)
    requires i <= |s|
    ensures position == Ipv4Length(s, i)
  {
    hide GroupsEnd, DigitsEnd, Value;
    if !Digit(At(s, i)) {
      GroupTurn(s, i, 0, 4);
      return 0;
    }
    position := 0;
    var groups := 0;
    while groups < 4
      invariant 0 <= groups < 4 && i + position <= |s|
      invariant GroupsEnd(s, i, 4) == GroupsEnd(s, i + position, 4 - groups)
    {
      ghost var start := i + position;
      var value, digits := 0, 0;
      NoValue(s, start);
      while Digit(At(s, i + position)) && digits < 3
        invariant 0 <= digits <= 3 && i + position == start + digits <= |s|
        invariant forall k :: start <= k < start + digits ==> Digit(s[k])
        invariant value == Value(s[start..start + digits])
        decreases 3 - digits
      {
        NextDigit(s, start, start + digits);
        value := value * 10 + DigitValue(s[i + position]);
        position := position + 1;
        digits := digits + 1;
      }
      GroupTurn(s, start, digits, 4 - groups);
      if digits == 0 || value > 255 || Digit(At(s, i + position)) { return 0; }
      groups := groups + 1;
      if groups == 4 { break; }
      if At(s, i + position) != '.' { return 0; }
      position := position + 1;
    }
    if !TokenBoundary(At(s, i + position)) && At(s, i + position) != ':' && At(s, i + position) != '/'
      && At(s, i + position) != ',' { return 0; }
  }

  method SkipValue(s: string, i: nat) returns (cursor: nat)
    requires i <= |s| && '\0' !in s
    ensures cursor == ValueEnd(s, i)
  {
    cursor := i;
    while At(s, cursor) != '\0' && !Space(At(s, cursor)) && !StrongDelimiter(At(s, cursor))
      invariant i <= cursor <= |s| && ValueEnd(s, i) == ValueEnd(s, cursor)
      decreases |s| - cursor
    {
      cursor := cursor + 1;
    }
  }

  method SkipPath(s: string, i: nat) returns (cursor: nat)
    requires i <= |s| && '\0' !in s
    ensures cursor == PathEnd(s, i)
  {
    cursor := i;
    while At(s, cursor) != '\0' && !StrongDelimiter(At(s, cursor))
      invariant i <= cursor <= |s| && PathEnd(s, i) == PathEnd(s, cursor)
      decreases |s| - cursor
    {
      cursor := cursor + 1;
    }
  }

  /** The token at `i`, and the last `@` in it. */
  method ScanToken(s: string, i: nat) returns (tokenEnd: nat, at: Option<nat>)
    requires i <= |s| && '\0' !in s
    ensures tokenEnd == ValueEnd(s, i)
    ensures at == if LastAt(s, i, tokenEnd) < tokenEnd then Some(LastAt(s, i, tokenEnd)) else None
  {
    tokenEnd := i;
    at := None;
    while At(s, tokenEnd) != '\0' && !Space(At(s, tokenEnd)) && !StrongDelimiter(At(s, tokenEnd))
      invariant i <= tokenEnd <= |s| && ValueEnd(s, i) == ValueEnd(s, tokenEnd)
      invariant at.Some? ==> i <= at.value < tokenEnd && s[at.value] == '@'
      invariant forall k :: i <= k < tokenEnd && s[k] == '@' ==> at.Some? && k <= at.value
      decreases |s| - tokenEnd
    {
      if At(s, tokenEnd) == '@' { at := Some(tokenEnd); }
      tokenEnd := tokenEnd + 1;
    }
  }

  /** The first `=` from a label on is the label's own. */
  lemma LabelEquals(s: string, i: nat)
    requires LabelAt(s, i)
    ensures Find(s, '=', i) == i + LabelLength(s, i) - 1
  {
    hide StartsWith;
    if StartsWith(s, i, "username=") { EqualsAfter(s, i, "username="); }
    else if StartsWith(s, i, "user_name=") { EqualsAfter(s, i, "user_name="); }
    else if StartsWith(s, i, "user-name=") { EqualsAfter(s, i, "user-name="); }
    else { EqualsAfter(s, i, "computername="); }
  }

  lemma EqualsAfter(s: string, i: nat, key: string)
    requires StartsWith(s, i, key) && |key| > 0
    requires key[|key| - 1] == '=' && '=' !in key[..|key| - 1]
    ensures Find(s, '=', i) == i + |key| - 1
  {
    var n := |key| - 1;
    assert Lower(s[i + n]) == Lower(key[n]);
    forall k | i <= k < i + n ensures s[k] != '=' {
      assert Lower(s[i + (k - i)]) == Lower(key[k - i]);
      assert key[..n][k - i] != '=';
    }
    var f := Find(s, '=', i);
  }

  /** Appends as much of `text` as fits before the terminating NUL. */
  method OutputAppend(output: array<char>, capacity: nat, start: nat, text: string) returns (used: nat)
    requires 1 <= capacity <= output.Length && start < capacity && '\0' !in text
    modifies output
    ensures start <= used < capacity && output[used] == '\0'
    ensures output[..used] == Truncated(old(output[..start]) + text, capacity - 1)
  {
    ghost var before := output[..start];
    used := start;
    var index := 0;
    while At(text, index) != '\0' && used + 1 < capacity
      invariant index <= |text| && used == start + index < capacity
      invariant output[..used] == before + text[..index]
      decreases |text| - index
    {
      output[used] := text[index];
      used := used + 1;
      index := index + 1;
    }
    output[used] := '\0';
    assert output[..used] == before + text[..index];
    if index == |text| { assert text[..index] == text; }
    else { assert (before + text)[..capacity - 1] == before + text[..index]; }
  }

  /** Copies the label up to its `=`, or as much of it as fits. */
  method CopyLabel(output: array<char>, capacity: nat, start: nat, s: string, i: nat, equals: nat)
    returns (used: nat, cursor: nat)
    requires 1 <= capacity <= output.Length && start + 1 < capacity && i <= equals < |s| && '\0' !in s
    modifies output
    ensures used < capacity && output[used] == '\0' && i < cursor <= equals + 1
    ensures output[..used] == Truncated(old(output[..start]) + s[i..equals + 1], capacity - 1)
    ensures used + 1 < capacity ==> cursor == equals + 1
  {
    ghost var before := output[..start];
    used, cursor := start, i;
    while cursor <= equals && At(s, cursor) != '\0' && used + 1 < capacity
      invariant i <= cursor <= equals + 1 && used - start == cursor - i && used < capacity
      invariant output[..used] == before + s[i..cursor]
      decreases equals + 1 - cursor
    {
      output[used] := s[cursor];
      used := used + 1;
      cursor := cursor + 1;
    }
    output[used] := '\0';
    assert output[..used] == before + s[i..cursor];
    if cursor <= equals { assert (before + s[i..equals + 1])[..capacity - 1] == before + s[i..cursor]; }
  }

  /** One turn moves text from the part still to rewrite to the part already put out. */
  lemma TurnMoves(s: string, i: nat, user: string, computer: string, before: string, after: string, n: nat)
    requires i < |s|
    requires after == Truncated(before + TurnAt(s, i, user, computer).text, n)
    ensures
      var next := TurnAt(s, i, user, computer).next;
      Truncated(after + Rewrite(s, next, user, computer), n) == Truncated(before + Rewrite(s, i, user, computer), n)
  {
    hide TurnAt, Truncated;
    var t := TurnAt(s, i, user, computer);
    var rest := Rewrite(s, t.next, user, computer);
    TruncatedTwice(before + t.text, rest, n);
    assert before + t.text + rest == before + (t.text + rest);
  }

  /** A full buffer stays what it is. */
  lemma FullStays(before: string, rest: string, n: nat)
    requires |before| == n
    ensures Truncated(before + rest, n) == before
  {
  }

  lemma MarkersAreText()
    ensures '\0' !in URL && '\0' !in PATH && '\0' !in LABELLED && '\0' !in COMPUTER
    ensures '\0' !in USER && '\0' !in ADDRESS && '\0' !in EMAIL
  {
    TokenMarkersAreText();
  }

  lemma TokenMarkersAreText()
    ensures '\0' !in USER && '\0' !in ADDRESS && '\0' !in EMAIL
  {
  }

  method StartsWithUrl(s: string, i: nat) returns (r: bool)
    requires i <= |s| && '\0' !in s
    ensures r == UrlAt(s, i)
  {
    hide StartsWith;
    r := CiStartsWith(s, i, "http://");
    if !r { r := CiStartsWith(s, i, "https://"); }
    if !r { r := CiStartsWith(s, i, "file://"); }
    if !r { r := CiStartsWith(s, i, "blob:"); }
  }

  method StartsWithLabel(s: string, i: nat) returns (r: bool)
    requires i <= |s| && '\0' !in s
    ensures r == LabelAt(s, i)
  {
    hide StartsWith;
    r := CiStartsWith(s, i, "username=");
    if !r { r := CiStartsWith(s, i, "user_name="); }
    if !r { r := CiStartsWith(s, i, "user-name="); }
    if !r { r := CiStartsWith(s, i, "computername="); }
  }

  /**
   The state of the loop: the text put out and the text still to come make up the whole, as far as the buffer goes.
  */
  ghost predicate OnTrack(s: string, i: nat, user: string, computer: string, out: string, n: nat) {
    && i <= |s| && |out| <= n
    && Truncated(out + Rewrite(s, i, user, computer), n) == Truncated(Rewrite(s, 0, user, computer), n)
  }

  lemma NextOnTrack(s: string, i: nat, user: string, computer: string, out: string, after: string, next: nat, n: nat)
    requires OnTrack(s, i, user, computer, out, n) && i < |s| && next <= |s|
    requires after == Truncated(out + TurnAt(s, i, user, computer).text, n)
    requires |after| < n ==> next == TurnAt(s, i, user, computer).next
    ensures OnTrack(s, next, user, computer, after, n)
  {
    hide TurnAt, Rewrite;
    TurnMoves(s, i, user, computer, out, after, n);
    if |after| == n {
      FullStays(after, Rewrite(s, next, user, computer), n);
      FullStays(after, Rewrite(s, TurnAt(s, i, user, computer).next, user, computer), n);
    }
  }

  /** A label stays as it is and its value goes. */
  method RewriteLabel(output: array<char>, capacity: nat, start: nat, input: string, at: nat)
    returns (used: nat, cursor: nat)
    requires 1 <= capacity <= output.Length && start + 1 < capacity && at < |input| && '\0' !in input
    requires LabelAt(input, at)
    modifies output
    ensures used < capacity && output[used] == '\0' && at < cursor <= |input|
    ensures
      var e := at + LabelLength(input, at);
      && at < e <= |input|
      && output[..used] == Truncated(old(output[..start]) + (input[at..e] + LABELLED), capacity - 1)
      && (used + 1 < capacity ==> cursor == ValueEnd(input, e))
  {
    hide StartsWith, LastAt, ValueEnd, LabelLength, Truncated, LabelAt;
    MarkersAreText();
    LabelEquals(input, at);
    used, cursor := CopyLabel(output, capacity, start, input, at, Find(input, '=', at));
    ghost var copied := input[at..at + LabelLength(input, at)];
    TruncatedTwice(old(output[..start]) + copied, LABELLED, capacity - 1);
    assert old(output[..start]) + copied + LABELLED == old(output[..start]) + (copied + LABELLED);
    used := OutputAppend(output, capacity, used, LABELLED);
    cursor := SkipValue(input, cursor);
  }

  /** One turn of the rewriting loop: the first of the seven cases that applies, or one character as it is. */
  method RewriteOne(
    output: array<char>, capacity: nat, start: nat, input: string, at: nat, user: string, computer: string)
    returns (used: nat, cursor: nat)
    requires 1 <= capacity <= output.Length && start + 1 < capacity && at < |input|
    requires '\0' !in input && '\0' !in user && '\0' !in computer
    modifies output
    ensures used < capacity && output[used] == '\0' && at < cursor <= |input|
    ensures output[..used] == Truncated(old(output[..start]) + TurnAt(input, at, user, computer).text, capacity - 1)
    ensures used + 1 < capacity ==> cursor == TurnAt(input, at, user, computer).next
  {
    hide Ipv4Length, StartsWith, LastAt, ValueEnd, PathEnd, LabelLength;
    hide Truncated, TokenBoundary, Alpha, LabelAt, UrlAt, WordAt, EmailAt;
    MarkersAreText();
    ghost var turn := TurnAt(input, at, user, computer);
    used, cursor := start, at;
    var url := StartsWithUrl(input, cursor);
    if url {
      used := OutputAppend(output, capacity, used, URL);
      cursor := SkipValue(input, cursor);
      return;
    }
    if (Alpha(At(input, cursor)) && At(input, cursor + 1) == ':'
        && (At(input, cursor + 2) == '\\' || At(input, cursor + 2) == '/'))
      || (At(input, cursor) == '\\' && At(input, cursor + 1) == '\\') {
      used := OutputAppend(output, capacity, used, PATH);
      cursor := SkipPath(input, cursor);
      return;
    }
    var labelled := StartsWithLabel(input, cursor);
    if labelled {
      used, cursor := RewriteLabel(output, capacity, used, input, cursor);
      return;
    }
    used, cursor := RewriteToken(output, capacity, start, input, at, user, computer);
  }

  /** The cases for names, addresses and other text. */
  method RewriteToken(
    output: array<char>, capacity: nat, start: nat, input: string, at: nat, user: string, computer: string)
    returns (used: nat, cursor: nat)
    requires 1 <= capacity <= output.Length && start + 1 < capacity && at < |input|
    requires '\0' !in input && '\0' !in user && '\0' !in computer
    requires !UrlAt(input, at) && !PathAt(input, at) && !LabelAt(input, at)
    modifies output
    ensures used < capacity && output[used] == '\0' && at < cursor <= |input|
    ensures output[..used] == Truncated(old(output[..start]) + TurnAt(input, at, user, computer).text, capacity - 1)
    ensures used + 1 < capacity ==> cursor == TurnAt(input, at, user, computer).next
  {
    hide Ipv4Length, LastAt, ValueEnd, Truncated, TokenBoundary, LabelAt, UrlAt, PathAt;
    MarkersAreText();
    ghost var turn := TurnAt(input, at, user, computer);
    used, cursor := start, at;
    var boundary := cursor == 0 || TokenBoundary(At(input, cursor - 1));
    var machine := ExactSensitiveAt(input, cursor, computer);
    if boundary && machine {
      used := OutputAppend(output, capacity, used, COMPUTER);
      cursor := cursor + |computer|;
      return;
    }
    var person := ExactSensitiveAt(input, cursor, user);
    if boundary && person {
      used := OutputAppend(output, capacity, used, USER);
      cursor := cursor + |user|;
      assert cursor == turn.next;
      return;
    }
    var address := ParseIpv4Length(input, cursor);
    if address > 0 {
      used := OutputAppend(output, capacity, used, ADDRESS);
      cursor := cursor + address;
      return;
    }
    var tokenEnd, last := ScanToken(input, cursor);
    if last.Some? && last.value > cursor && last.value + 1 < tokenEnd {
      used := OutputAppend(output, capacity, used, EMAIL);
      cursor := tokenEnd;
      return;
    }
    used := OutputAppend(output, capacity, used, [input[cursor]]);
    cursor := cursor + 1;
  }

  /**
   The rewriting loop. However small the buffer, it ends up holding a NUL-terminated prefix of the rewritten text, and
   all of it when it fits.
  */
  method Sanitize(input: string, output: array<char>, capacity: nat, user: string, computer: string)
    returns (used: nat)
    requires 1 <= capacity <= output.Length
    requires '\0' !in input && '\0' !in user && '\0' !in computer
    modifies output
    ensures used < capacity && output[used] == '\0'
    ensures output[..used] == Truncated(Rewrite(input, 0, user, computer), capacity - 1)
    ensures Clean(output[..used]) && '\0' !in output[..used]
  {
    hide OnTrack, TurnAt, Truncated, Rewrite, Clean;
    used := 0;
    var cursor := 0;
    output[0] := '\0';
    ghost var whole := Rewrite(input, 0, user, computer);
    StartOnTrack(input, user, computer, capacity - 1);
    assert output[..0] == [];
    while At(input, cursor) != '\0' && used + 1 < capacity
      invariant cursor <= |input| && used < capacity && output[used] == '\0'
      invariant OnTrack(input, cursor, user, computer, output[..used], capacity - 1)
      decreases |input| - cursor
    {
      ghost var start, out := cursor, output[..used];
      used, cursor := RewriteOne(output, capacity, used, input, cursor, user, computer);
      NextOnTrack(input, start, user, computer, out, output[..used], cursor, capacity - 1);
    }
    EndOfTrack(input, cursor, user, computer, output[..used], capacity - 1);
    RewriteIsClean(input, 0, user, computer);
    CleanPrefix(whole, capacity - 1);
    RewriteHasNoNul(input, 0, user, computer);
    NoNulInPrefix(whole, capacity - 1);
  }

  lemma NoNulInPrefix(s: string, n: nat)
    requires '\0' !in s
    ensures '\0' !in Truncated(s, n)
  {
  }

  lemma StartOnTrack(s: string, user: string, computer: string, n: nat)
    ensures OnTrack(s, 0, user, computer, [], n)
  {
    hide Rewrite;
    assert [] + Rewrite(s, 0, user, computer) == Rewrite(s, 0, user, computer);
  }

  lemma EndOfTrack(s: string, i: nat, user: string, computer: string, out: string, n: nat)
    requires OnTrack(s, i, user, computer, out, n) && (i == |s| || |out| == n)
    ensures out == Truncated(Rewrite(s, 0, user, computer), n)
  {
    if |out| == n {
      FullStays(out, Rewrite(s, i, user, computer), n);
    } else {
      assert out + [] == out;
    }
  }
}
