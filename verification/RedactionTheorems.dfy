/** What can no longer be found in rewritten text, wherever a pattern might straddle copied and replaced parts. */
module RedactionTheorems {
  import opened Redaction
  import opened Sequences

  /** No web address and no path starts anywhere in the text. */
  ghost predicate Clean(s: string) {
    forall k :: 0 <= k < |s| ==> !UrlAt(s, k) && !PathAt(s, k)
  }

  predicate Bracket(c: char) { c == '<' || c == '>' }

  predicate Telling(c: char) { c == ':' || c == '\\' }

  /**
   An address or path at `k` is a stretch of `m` characters without angle brackets, one of them a colon or a backslash,
   and wherever the same stretch stands, in whatever text, the same is found.
  */
  lemma Stretch(s: string, k: nat, t: string, i: nat) returns (m: nat)
    requires UrlAt(s, k) || PathAt(s, k)
    ensures 0 < m && k + m <= |s|
    ensures forall j :: k <= j < k + m ==> !Bracket(s[j])
    ensures exists j :: k <= j < k + m && Telling(s[j])
    ensures i + m <= |t| && t[i..i + m] == s[k..k + m] ==> UrlAt(t, i) || PathAt(t, i)
  {
    hide StartsWith;
    if StartsWith(s, k, "http://") { m := PrefixStretch(s, k, "http://", 4, t, i); }
    else if StartsWith(s, k, "https://") { m := PrefixStretch(s, k, "https://", 5, t, i); }
    else if StartsWith(s, k, "file://") { m := PrefixStretch(s, k, "file://", 4, t, i); }
    else if StartsWith(s, k, "blob:") { m := PrefixStretch(s, k, "blob:", 4, t, i); }
    else if s[k] == '\\' && At(s, k + 1) == '\\' {
      m := 2;
      assert Telling(s[k]);
      if i + m <= |t| && t[i..i + m] == s[k..k + m] {
        assert t[i..i + m][0] == t[i] && t[i..i + m][1] == t[i + 1];
        assert s[k..k + m][0] == s[k] && s[k..k + m][1] == s[k + 1];
      }
    } else {
      m := 3;
      assert Telling(s[k + 1]);
      if i + m <= |t| && t[i..i + m] == s[k..k + m] {
        assert t[i..i + m][0] == t[i] && t[i..i + m][1] == t[i + 1] && t[i..i + m][2] == t[i + 2];
        assert s[k..k + m][0] == s[k] && s[k..k + m][1] == s[k + 1] && s[k..k + m][2] == s[k + 2];
      }
    }
  }

  lemma PrefixStretch(s: string, k: nat, prefix: string, colon: nat, t: string, i: nat) returns (m: nat)
    requires StartsWith(s, k, prefix) && colon < |prefix| && prefix[colon] == ':'
    requires forall j :: 0 <= j < |prefix| ==> !Bracket(prefix[j])
    ensures m == |prefix| && k + m <= |s|
    ensures forall j :: k <= j < k + m ==> !Bracket(s[j])
    ensures exists j :: k <= j < k + m && Telling(s[j])
    ensures i + m <= |t| && t[i..i + m] == s[k..k + m] ==> StartsWith(t, i, prefix)
  {
    m := |prefix|;
    assert Lower(s[k + colon]) == Lower(prefix[colon]);
    assert Telling(s[k + colon]);
    forall j | k <= j < k + m ensures !Bracket(s[j]) {
      assert Lower(s[k + (j - k)]) == Lower(prefix[j - k]);
    }
    if i + m <= |t| && t[i..i + m] == s[k..k + m] {
      forall j | 0 <= j < m ensures Lower(t[i + j]) == Lower(prefix[j]) {
        assert t[i + j] == t[i..i + m][j] == s[k..k + m][j] == s[k + j];
      }
    }
  }

  /** What a turn puts out: the character itself, or text that ends in a bracket and holds nothing telling. */
  lemma TurnText(s: string, i: nat, user: string, computer: string)
    requires i < |s|
    ensures var t := TurnAt(s, i, user, computer);
      || (t == Turn([s[i]], i + 1) && !UrlAt(s, i) && !PathAt(s, i))
      || (Inert(t.text) && (t.text[0] == '<' || (LabelAt(s, i) && t.text == s[i..i + LabelLength(s, i)] + LABELLED)))
  {
    hide UrlAt, PathAt, LabelAt, WordAt, Ipv4Length, EmailAt, ValueEnd, PathEnd, LabelLength;
    var t := TurnAt(s, i, user, computer);
    if t.text in {URL, PATH, COMPUTER, USER, ADDRESS, EMAIL} {
      MarkersAreInert();
    } else if !UrlAt(s, i) && !PathAt(s, i) && LabelAt(s, i) {
      LabelIsInert(s, i);
    }
  }

  /** Text that no address or path can share a character with, unless it starts behind it. */
  predicate Inert(s: string) {
    s != [] && s[|s| - 1] == '>' && forall j :: 0 <= j < |s| ==> !Telling(s[j])
  }

  lemma MarkersAreInert()
    ensures forall marker | marker in {URL, PATH, COMPUTER, USER, ADDRESS, EMAIL} :: Inert(marker) && marker[0] == '<'
  {
  }

  lemma LabelIsInert(s: string, i: nat)
    requires LabelAt(s, i)
    ensures Inert(s[i..i + LabelLength(s, i)] + LABELLED)
  {
    hide StartsWith;
    if StartsWith(s, i, "username=") { NothingTelling(s, i, "username="); }
    else if StartsWith(s, i, "user_name=") { NothingTelling(s, i, "user_name="); }
    else if StartsWith(s, i, "user-name=") { NothingTelling(s, i, "user-name="); }
    else { NothingTelling(s, i, "computername="); }
  }

  lemma NothingTelling(s: string, i: nat, key: string)
    requires StartsWith(s, i, key) && forall j :: 0 <= j < |key| ==> !Telling(key[j])
    ensures forall j :: i <= j < i + |key| ==> !Telling(s[j])
  {
    forall j | i <= j < i + |key| ensures !Telling(s[j]) {
      assert Lower(s[i + (j - i)]) == Lower(key[j - i]);
    }
  }

  lemma StopsAtLabel(key: string, rest: string, m: nat)
    requires m <= |key + LABELLED + rest| && forall j :: 0 <= j < m ==> (key + LABELLED + rest)[j] != '<'
    ensures m <= |key| && (key + LABELLED + rest)[..m] == key[..m]
  {
    assert (key + LABELLED + rest)[|key|] == '<';
  }

  /** Up to the first `<`, rewritten text is the input itself. */
  lemma {:induction false} CopiesUntilBracket(s: string, i: nat, user: string, computer: string, m: nat)
    requires i <= |s| && m <= |Rewrite(s, i, user, computer)|
    requires forall j :: 0 <= j < m ==> Rewrite(s, i, user, computer)[j] != '<'
    ensures i + m <= |s| && Rewrite(s, i, user, computer)[..m] == s[i..i + m]
    decreases |s| - i
  {
    hide TurnAt, UrlAt, PathAt, LabelAt, LabelLength;
    if m > 0 {
      var out, t := Rewrite(s, i, user, computer), TurnAt(s, i, user, computer);
      TurnText(s, i, user, computer);
      if t == Turn([s[i]], i + 1) {
        assert out[1..] == Rewrite(s, i + 1, user, computer);
        CopiesUntilBracket(s, i + 1, user, computer, m - 1);
        assert out[..m] == [s[i]] + out[1..][..m - 1];
      } else {
        assert out[0] == t.text[0];
        StopsAtLabel(s[i..i + LabelLength(s, i)], Rewrite(s, t.next, user, computer), m);
        SliceOfSlice(s, i, i + LabelLength(s, i), 0, m);
      }
    }
  }

  /** The main result: rewritten text holds no web address and no path. */
  lemma {:induction false} RewriteIsClean(s: string, i: nat, user: string, computer: string)
    requires i <= |s|
    ensures Clean(Rewrite(s, i, user, computer))
    decreases |s| - i
  {
    hide TurnAt, UrlAt, PathAt, LabelAt, LabelLength;
    if i < |s| {
      var out, t := Rewrite(s, i, user, computer), TurnAt(s, i, user, computer);
      var rest := Rewrite(s, t.next, user, computer);
      TurnText(s, i, user, computer);
      RewriteIsClean(s, t.next, user, computer);
      forall k | 0 <= k < |out| ensures !UrlAt(out, k) && !PathAt(out, k) {
        if UrlAt(out, k) || PathAt(out, k) {
          if k >= |t.text| {
            FoundInRest(t.text, rest, k);
          } else if t == Turn([s[i]], i + 1) {
            var m := Stretch(out, 0, s, i);
            CopiesUntilBracket(s, i, user, computer, m);
          } else {
            FoundIsNotInert(t.text, rest, k);
          }
        }
      }
    }
  }

  lemma FoundInRest(text: string, rest: string, k: nat)
    requires |text| <= k && (UrlAt(text + rest, k) || PathAt(text + rest, k))
    ensures UrlAt(rest, k - |text|) || PathAt(rest, k - |text|)
  {
    hide UrlAt, PathAt;
    var out, i := text + rest, k - |text|;
    var m := Stretch(out, k, rest, i);
    assert out[k..k + m] == rest[i..i + m];
  }

  lemma FoundInWhole(prefix: string, s: string, k: nat)
    requires prefix <= s && (UrlAt(prefix, k) || PathAt(prefix, k))
    ensures UrlAt(s, k) || PathAt(s, k)
  {
    hide UrlAt, PathAt;
    var m := Stretch(prefix, k, s, k);
    assert s[k..k + m] == prefix[k..k + m];
  }

  lemma FoundIsNotInert(text: string, rest: string, k: nat)
    requires k < |text| && (UrlAt(text + rest, k) || PathAt(text + rest, k))
    ensures !Inert(text)
  {
    hide UrlAt, PathAt;
    var out := text + rest;
    var m := Stretch(out, k, "", 0);
    var j :| k <= j < k + m && Telling(out[j]);
    if j < |text| {
      assert Telling(text[j]);
    } else {
      assert !Bracket(out[|text| - 1]);
    }
  }

  /** And so does every prefix of it, which is what a small buffer gets. */
  lemma CleanPrefix(s: string, n: nat)
    requires Clean(s)
    ensures Clean(Truncated(s, n))
  {
    hide UrlAt, PathAt;
    var p := Truncated(s, n);
    forall k | 0 <= k < |p| ensures !UrlAt(p, k) && !PathAt(p, k) {
      if UrlAt(p, k) || PathAt(p, k) {
        FoundInWhole(p, s, k);
      }
    }
  }

  /** No NUL comes out, so the terminator is where the text ends. */
  lemma {:induction false} RewriteHasNoNul(s: string, i: nat, user: string, computer: string)
    requires i <= |s| && '\0' !in s
    ensures '\0' !in Rewrite(s, i, user, computer)
    decreases |s| - i
  {
    hide UrlAt, PathAt, LabelAt, LabelLength, Ipv4Length, WordAt, EmailAt, ValueEnd, PathEnd;
    if i < |s| {
      MarkersHaveNoNul();
      RewriteHasNoNul(s, TurnAt(s, i, user, computer).next, user, computer);
    }
  }

  lemma MarkersHaveNoNul()
    ensures forall marker | marker in {URL, PATH, LABELLED, COMPUTER, USER, ADDRESS, EMAIL} :: '\0' !in marker
  {
  }

  /** Text in which nothing is to be redacted comes out as it went in. */
  lemma {:induction false} HarmlessTextStays(s: string, i: nat, user: string, computer: string)
    requires i <= |s|
    requires forall k :: i <= k < |s| ==>
      !UrlAt(s, k) && !PathAt(s, k) && !LabelAt(s, k) && !WordAt(s, k, computer) && !WordAt(s, k, user)
      && Ipv4Length(s, k) == 0 && !EmailAt(s, k)
    ensures Rewrite(s, i, user, computer) == s[i..]
    decreases |s| - i
  {
    hide UrlAt, PathAt, LabelAt, Ipv4Length, WordAt, EmailAt;
    if i < |s| { HarmlessTextStays(s, i + 1, user, computer); }
  }
}
