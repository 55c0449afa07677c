/** Export names: their byte order, their canonical form, and the assignment of reference ordinals. */
module PeNames {
  import opened Bytes
  import opened Numerals

  type Name = seq<u8>

  // ----- the order the table is sorted and searched in -----

  predicate Before(a: Name, b: Name) {
    b != [] && (a == [] || a[0] < b[0] || (a[0] == b[0] && Before(a[1..], b[1..])))
  }

  lemma {:induction false} BeforeTransitive(a: Name, b: Name, c: Name)
    requires Before(a, b) && Before(b, c)
    ensures Before(a, c)
  {
    if a != [] && a[0] == b[0] == c[0] { BeforeTransitive(a[1..], b[1..], c[1..]); }
  }

  lemma {:induction false} BeforeTotal(a: Name, b: Name)
    ensures (Before(a, b) || Before(b, a)) <==> a != b
    ensures !(Before(a, b) && Before(b, a))
  {
    if a != [] && b != [] {
      if a[0] == b[0] {
        BeforeTotal(a[1..], b[1..]);
        assert a == [a[0]] + a[1..] && b == [b[0]] + b[1..];
      }
    }
  }

  // ----- canonical names -----

  const UNDERSCORE: u8 := 0x5F
  const AT_SIGN: u8 := 0x40
  const NEWLINE: u8 := 0x0A

  /** How many digits end `s[..n]`. */
  function DigitsBefore(s: Name, n: nat): (k: nat)
    requires n <= |s|
    ensures k <= n && forall i :: n - k <= i < n ==> Digit(s[i] as char)
    ensures k < n ==> !Digit(s[n - k - 1] as char)
  {
    if n > 0 && Digit(s[n - 1] as char) then 1 + DigitsBefore(s, n - 1) else 0
  }

  /** `^_(.+)@[0-9]+$`: `.` is anything but a newline, `$` also matches before a final newline. */
  function CanonicalName(name: Name): Name {
    var n := if name != [] && name[|name| - 1] == NEWLINE then |name| - 1 else |name|;
    var at := n - DigitsBefore(name, n) - 1;
    if at < n - 1 && at >= 2 && name[at] == AT_SIGN && name[0] == UNDERSCORE && NEWLINE !in name[1..at]
    then name[1..at] else name
  }

  /** The name is `plain` in its stdcall decoration, perhaps before a final newline. */
  ghost predicate Decorates(name: Name, plain: Name, digits: Name, end: Name) {
    && name == [UNDERSCORE] + plain + [AT_SIGN] + digits + end
    && plain != [] && NEWLINE !in plain
    && digits != [] && (forall i :: 0 <= i < |digits| ==> Digit(digits[i] as char)) && end in {[], [NEWLINE]}
  }

  /** The decoration comes off exactly. */
  lemma UndecoratesStdcall(name: Name, plain: Name, digits: Name, end: Name)
    requires Decorates(name, plain, digits, end)
    ensures CanonicalName(name) == plain
  {
    var at, n := 1 + |plain|, |name| - |end|;
    assert name[0] == UNDERSCORE && name[at] == AT_SIGN && name[1..at] == plain;
    assert forall i :: at < i < n ==> name[i] == digits[i - at - 1];
    assert name[n - 1] == digits[|digits| - 1];
    assert end != [] ==> name[n] == NEWLINE;
    var k := DigitsBefore(name, n);
    assert n - k - 1 == at;
  }

  /** Where the pattern matched: the at sign, and the end of the digits behind it. */
  lemma Matched(name: Name) returns (at: nat, n: nat)
    requires CanonicalName(name) != name
    ensures 2 <= at < n - 1 && n <= |name| && name[0] == UNDERSCORE && name[at] == AT_SIGN
    ensures CanonicalName(name) == name[1..at] && NEWLINE !in name[1..at]
    ensures forall i :: at < i < n ==> Digit(name[i] as char)
    ensures n == |name| || (n == |name| - 1 && name[n] == NEWLINE)
  {
    hide Digit;
    n := if name[|name| - 1] == NEWLINE then |name| - 1 else |name|;
    at := n - DigitsBefore(name, n) - 1;
  }

  /** Nothing else ever comes off. */
  lemma StripsOnlyDecorations(name: Name) returns (digits: Name, end: Name)
    requires CanonicalName(name) != name
    ensures Decorates(name, CanonicalName(name), digits, end)
  {
    hide CanonicalName, Digit;
    var at, n := Matched(name);
    digits, end := name[at + 1..n], name[n..];
    assert end == if n < |name| then [NEWLINE] else [];
    assert forall i :: 0 <= i < |digits| ==> digits[i] == name[at + 1 + i];
    FiveParts(name, at, n);
  }

  lemma FiveParts(name: Name, at: nat, n: nat)
    requires 1 <= at < n <= |name|
    ensures name == [name[0]] + name[1..at] + [name[at]] + name[at + 1..n] + name[n..]
  {
    assert name == name[..n] + name[n..];
    assert name[..n] == name[..at] + ([name[at]] + name[at + 1..n]);
    assert name[..at] == [name[0]] + name[1..at];
  }

  /** So a name stays as it is if and only if it is nobody's decoration. */
  lemma KeepsOtherNames(name: Name)
    ensures CanonicalName(name) == name <==>
      !exists plain: Name, digits: Name, end: Name :: Decorates(name, plain, digits, end)
  {
    hide CanonicalName;
    if CanonicalName(name) != name {
      var digits, end := StripsOnlyDecorations(name);
    }
    if plain: Name, digits: Name, end: Name :| Decorates(name, plain, digits, end) {
      UndecoratesStdcall(name, plain, digits, end);
      assert |name| > |plain|;
    }
  }

  // ----- assignment -----

  datatype Export = Export(name: Name, rva: nat)

  datatype Assignment = Assignment(name: Name, ordinal: nat, rva: nat)

  datatype Refusal = Missing | OrdinalCollision | NoExports | BaseNotOne

  datatype Outcome = Refused(why: Refusal) | Assigned(assignments: seq<Assignment>, functionCount: nat)

  predicate DistinctNames(inputs: seq<Export>) {
    forall i, j :: 0 <= i < j < |inputs| ==> inputs[i].name != inputs[j].name
  }

  predicate AllKnown(inputs: seq<Export>, reference: map<Name, nat>) {
    forall i :: 0 <= i < |inputs| ==> inputs[i].name in reference
  }

  /** Each input with the ordinal the reference gives its name. */
  function WithOrdinals(inputs: seq<Export>, reference: map<Name, nat>): (r: seq<Assignment>)
    requires AllKnown(inputs, reference)
    ensures |r| == |inputs|
  {
    seq(|inputs|, i requires 0 <= i < |inputs| => Assignment(inputs[i].name, reference[inputs[i].name], inputs[i].rva))
  }

  predicate DistinctOrdinals(s: seq<Assignment>) {
    forall i, j :: 0 <= i < j < |s| ==> s[i].ordinal != s[j].ordinal
  }

  predicate SortedByName(s: seq<Assignment>) {
    forall i, j :: 0 <= i < j < |s| ==> Before(s[i].name, s[j].name)
  }

  function Insert(a: Assignment, s: seq<Assignment>): (r: seq<Assignment>)
    ensures multiset(r) == multiset(s) + multiset{a}
  {
    if s == [] || Before(a.name, s[0].name) then
      assert [a] + s == [a] + s[0..];
      [a] + s
    else
      assert s == [s[0]] + s[1..];
      [s[0]] + Insert(a, s[1..])
  }

  function Sort(s: seq<Assignment>): (r: seq<Assignment>)
    ensures multiset(r) == multiset(s)
  {
    if s == [] then [] else
      assert s == [s[0]] + s[1..];
      Insert(s[0], Sort(s[1..]))
  }

  lemma {:induction false} InsertSorts(a: Assignment, s: seq<Assignment>)
    requires SortedByName(s) && forall i :: 0 <= i < |s| ==> s[i].name != a.name
    ensures SortedByName(Insert(a, s))
  {
    if s != [] {
      BeforeTotal(a.name, s[0].name);
      if Before(a.name, s[0].name) {
        forall j | 0 < j < |s| ensures Before(a.name, s[j].name) { BeforeTransitive(a.name, s[0].name, s[j].name); }
      } else {
        InsertSorts(a, s[1..]);
        var rest := Insert(a, s[1..]);
        forall j | 0 <= j < |rest| ensures Before(s[0].name, rest[j].name) {
          assert rest[j] in multiset(rest);
          assert rest[j] in s[1..] || rest[j] == a;
        }
      }
    }
  }

  lemma {:induction false} SortSorts(s: seq<Assignment>)
    requires forall i, j :: 0 <= i < j < |s| ==> s[i].name != s[j].name
    ensures SortedByName(Sort(s))
  {
    if s != [] {
      SortSorts(s[1..]);
      var rest := Sort(s[1..]);
      forall i | 0 <= i < |rest| ensures rest[i].name != s[0].name {
        assert rest[i] in multiset(rest);
        assert rest[i] in s[1..];
      }
      InsertSorts(s[0], rest);
    }
  }

  /** What the source's assignment loop and its checks decide, in the order it checks. */
  ghost function AssignSpec(inputs: seq<Export>, reference: map<Name, nat>): Outcome {
    if !AllKnown(inputs, reference) then Refused(Missing)
    else if !DistinctOrdinals(WithOrdinals(inputs, reference)) then Refused(OrdinalCollision)
    else if inputs == [] then Refused(NoExports)
    else if Least(WithOrdinals(inputs, reference)) != 1 then Refused(BaseNotOne)
    else Assigned(Sort(WithOrdinals(inputs, reference)), Greatest(WithOrdinals(inputs, reference)))
  }

  function Least(s: seq<Assignment>): (m: nat)
    requires s != []
    ensures forall i :: 0 <= i < |s| ==> m <= s[i].ordinal
    ensures exists i :: 0 <= i < |s| && s[i].ordinal == m
  {
    if |s| == 1 then s[0].ordinal
    else
      var m := Least(s[1..]);
      assert forall i :: 1 <= i < |s| ==> s[i] == s[1..][i - 1];
      if s[0].ordinal <= m then s[0].ordinal else m
  }

  function Greatest(s: seq<Assignment>): (m: nat)
    requires s != []
    ensures forall i :: 0 <= i < |s| ==> s[i].ordinal <= m
    ensures exists i :: 0 <= i < |s| && s[i].ordinal == m
  {
    if |s| == 1 then s[0].ordinal
    else
      var m := Greatest(s[1..]);
      assert forall i :: 1 <= i < |s| ==> s[i] == s[1..][i - 1];
      if s[0].ordinal >= m then s[0].ordinal else m
  }

  function Ordinals(s: seq<Assignment>): set<nat> {
    set i | 0 <= i < |s| :: s[i].ordinal
  }

  lemma OrdinalsSnoc(s: seq<Assignment>, a: Assignment)
    ensures Ordinals(s + [a]) == Ordinals(s) + {a.ordinal}
  {
    var t := s + [a];
    forall o | o in Ordinals(s) ensures o in Ordinals(t) {
      var i :| 0 <= i < |s| && s[i].ordinal == o;
      assert t[i].ordinal == o;
    }
    assert t[|s|].ordinal == a.ordinal;
  }

  // ----- what the assignment comes to -----

  /** Two inputs would get the same ordinal. */
  predicate Collide(inputs: seq<Export>, reference: map<Name, nat>)
    requires AllKnown(inputs, reference)
  {
    exists i, j :: 0 <= i < j < |inputs| && reference[inputs[i].name] == reference[inputs[j].name]
  }

  /** The least ordinal of the inputs is 1. */
  predicate BaseIsOne(inputs: seq<Export>, reference: map<Name, nat>)
    requires AllKnown(inputs, reference)
  {
    && (forall i :: 0 <= i < |inputs| ==> 1 <= reference[inputs[i].name])
    && exists i :: 0 <= i < |inputs| && reference[inputs[i].name] == 1
  }

  /** What inputs and reference must be for the assignment to be made; ordinals may leave gaps. */
  predicate Acceptable(inputs: seq<Export>, reference: map<Name, nat>) {
    inputs != [] && AllKnown(inputs, reference) && !Collide(inputs, reference) && BaseIsOne(inputs, reference)
  }

  predicate IsHighest(count: nat, inputs: seq<Export>, reference: map<Name, nat>)
    requires AllKnown(inputs, reference)
  {
    && (forall i :: 0 <= i < |inputs| ==> reference[inputs[i].name] <= count)
    && exists i :: 0 <= i < |inputs| && reference[inputs[i].name] == count
  }

  /** The inputs with their reference ordinals, in name order, and the highest of these ordinals. */
  ghost predicate IsTable(table: seq<Assignment>, count: nat, inputs: seq<Export>, reference: map<Name, nat>)
    requires AllKnown(inputs, reference)
  {
    && SortedByName(table) && |table| == |inputs| && IsHighest(count, inputs, reference)
    && forall a :: a in table <==>
      exists i :: 0 <= i < |inputs| && a == Assignment(inputs[i].name, reference[inputs[i].name], inputs[i].rva)
  }

  /** What each outcome says about inputs and reference. */
  ghost predicate Explains(r: Outcome, inputs: seq<Export>, reference: map<Name, nat>) {
    match r
    case Refused(Missing) => !AllKnown(inputs, reference)
    case Refused(OrdinalCollision) => AllKnown(inputs, reference) && Collide(inputs, reference)
    case Refused(NoExports) => inputs == []
    case Refused(BaseNotOne) =>
      && inputs != [] && AllKnown(inputs, reference)
      && !Collide(inputs, reference) && !BaseIsOne(inputs, reference)
    case Assigned(table, count) => Acceptable(inputs, reference) && IsTable(table, count, inputs, reference)
  }

  lemma LeastIsBase(inputs: seq<Export>, reference: map<Name, nat>)
    requires inputs != [] && AllKnown(inputs, reference)
    ensures Least(WithOrdinals(inputs, reference)) == 1 <==> BaseIsOne(inputs, reference)
    ensures DistinctOrdinals(WithOrdinals(inputs, reference)) <==> !Collide(inputs, reference)
  {
    hide Least;
    var all := WithOrdinals(inputs, reference);
    var k :| 0 <= k < |all| && all[k].ordinal == Least(all);
    assert reference[inputs[k].name] == Least(all);
    forall i | 0 <= i < |inputs|
      ensures Least(all) <= reference[inputs[i].name] { assert all[i].ordinal >= Least(all); }
    if i, j :| 0 <= i < j < |inputs| && reference[inputs[i].name] == reference[inputs[j].name] {
      assert all[i].ordinal == all[j].ordinal;
    }
    if i :| 0 <= i < |inputs| && reference[inputs[i].name] == 1 {
      assert all[i].ordinal == 1;
    }
  }

  lemma GreatestIsHighest(inputs: seq<Export>, reference: map<Name, nat>)
    requires inputs != [] && AllKnown(inputs, reference)
    ensures IsHighest(Greatest(WithOrdinals(inputs, reference)), inputs, reference)
  {
    hide Greatest;
    var all := WithOrdinals(inputs, reference);
    var k :| 0 <= k < |all| && all[k].ordinal == Greatest(all);
    forall i | 0 <= i < |inputs| ensures reference[inputs[i].name] <= Greatest(all) { assert all[i] in all; }
  }

  lemma SortIsTable(inputs: seq<Export>, reference: map<Name, nat>)
    requires inputs != [] && AllKnown(inputs, reference) && DistinctNames(inputs)
    ensures IsTable(Sort(WithOrdinals(inputs, reference)), Greatest(WithOrdinals(inputs, reference)), inputs, reference)
  {
    hide Sort, Greatest, IsHighest, Before;
    var all := WithOrdinals(inputs, reference);
    SortSorts(all);
    SortKeepsMembers(all);
    GreatestIsHighest(inputs, reference);
    hide SortedByName, DistinctNames;
    forall a
      ensures a in all <==>
        exists i :: 0 <= i < |inputs| && a == Assignment(inputs[i].name, reference[inputs[i].name], inputs[i].rva)
    {
      if i :| 0 <= i < |inputs| && a == Assignment(inputs[i].name, reference[inputs[i].name], inputs[i].rva) {
        assert all[i] == a;
      }
    }
  }

  /** The outcome is the one the inputs call for: refusals for their reasons only, and otherwise the one table. */
  lemma OutcomeExplained(inputs: seq<Export>, reference: map<Name, nat>)
    requires DistinctNames(inputs)
    ensures Explains(AssignSpec(inputs, reference), inputs, reference)
  {
    hide Sort, Greatest, Least, DistinctNames, DistinctOrdinals, WithOrdinals, IsTable;
    if AllKnown(inputs, reference) {
      if inputs == [] {
        NothingCollides(inputs, reference);
      } else {
        LeastIsBase(inputs, reference);
        SortIsTable(inputs, reference);
      }
    }
  }

  lemma NothingCollides(inputs: seq<Export>, reference: map<Name, nat>)
    requires inputs == [] && AllKnown(inputs, reference)
    ensures DistinctOrdinals(WithOrdinals(inputs, reference))
  {
  }

  /** There is but one table, so the names and ordinals decide everything. */
  lemma {:induction false} SortedOnce(s: seq<Assignment>, t: seq<Assignment>)
    requires SortedByName(s) && SortedByName(t) && forall a :: a in s <==> a in t
    ensures s == t
  {
    if s == [] {
      FirstIsIn(t);
    } else {
      assert s[0] in t && t != [] && t[0] in s;
      SameFirst(s, t);
      SameRest(s, t);
      SortedOnce(s[1..], t[1..]);
      assert s == [s[0]] + s[1..] && t == [t[0]] + t[1..];
    }
  }

  lemma FirstIsIn(s: seq<Assignment>)
    ensures s != [] ==> s[0] in s
  {
  }

  lemma SameFirst(s: seq<Assignment>, t: seq<Assignment>)
    requires SortedByName(s) && SortedByName(t) && s != [] && t != [] && s[0] in t && t[0] in s
    ensures s[0] == t[0]
  {
    hide Before;
    var i: nat :| i < |t| && t[i] == s[0];
    var j: nat :| j < |s| && s[j] == t[0];
    if i > 0 && j > 0 { BeforeTotal(s[0].name, t[0].name); }
  }

  lemma SameRest(s: seq<Assignment>, t: seq<Assignment>)
    requires SortedByName(s) && SortedByName(t) && s != [] && t != [] && s[0] == t[0]
    requires forall a :: a in s <==> a in t
    ensures SortedByName(s[1..]) && SortedByName(t[1..]) && forall a :: a in s[1..] <==> a in t[1..]
  {
    hide Before;
    BeforeTotal(s[0].name, s[0].name);
    forall a ensures a in s[1..] <==> a in s && a != s[0] { InRest(s, a); }
    forall a ensures a in t[1..] <==> a in t && a != t[0] { InRest(t, a); }
  }

  lemma InRest(s: seq<Assignment>, a: Assignment)
    requires SortedByName(s) && s != []
    ensures a in s[1..] <==> a in s && a != s[0]
  {
    hide Before;
    BeforeTotal(s[0].name, s[0].name);
    if a in s[1..] {
      var i: nat :| i < |s[1..]| && s[1..][i] == a;
      assert s[i + 1] == a;
    }
  }

  lemma OneTable(
    s: seq<Assignment>, m: nat, t: seq<Assignment>, n: nat, inputs: seq<Export>, reference: map<Name, nat>)
    requires AllKnown(inputs, reference)
    requires IsTable(s, m, inputs, reference) && IsTable(t, n, inputs, reference)
    ensures s == t && m == n
  {
    hide SortedByName;
    SortedOnce(s, t);
  }

  /** The loop over the inputs, with the set of ordinals already used. */
  method AssignOrdinals(inputs: seq<Export>, reference: map<Name, nat>) returns (r: Outcome)
    ensures r == AssignSpec(inputs, reference)
    ensures DistinctNames(inputs) ==> Explains(r, inputs, reference)
    ensures DistinctNames(inputs) ==> (r.Assigned? <==> Acceptable(inputs, reference))
  {
    if DistinctNames(inputs) { OutcomeExplained(inputs, reference); }
    hide Explains, Acceptable, DistinctNames, Sort, Least, Greatest;
    for i := 0 to |inputs|
      invariant forall j :: 0 <= j < i ==> inputs[j].name in reference
    {
      if inputs[i].name !in reference { return Refused(Missing); }
    }
    ghost var all := WithOrdinals(inputs, reference);
    var assignments: seq<Assignment> := [];
    var used: set<nat> := {};
    for i := 0 to |inputs|
      invariant assignments == all[..i] && DistinctOrdinals(assignments)
      invariant used == Ordinals(assignments)
    {
      var ordinal := reference[inputs[i].name];
      if ordinal in used {
        ghost var j :| 0 <= j < i && assignments[j].ordinal == ordinal;
        assert all[i].ordinal == ordinal && all[j] == assignments[j];
        return Refused(OrdinalCollision);
      }
      OrdinalsSnoc(assignments, Assignment(inputs[i].name, ordinal, inputs[i].rva));
      used := used + {ordinal};
      assignments := assignments + [Assignment(inputs[i].name, ordinal, inputs[i].rva)];
    }
    assert assignments == all;
    if assignments == [] { return Refused(NoExports); }
    if Least(assignments) != 1 { return Refused(BaseNotOne); }
    return Assigned(Sort(assignments), Greatest(assignments));
  }

  /** What a successful assignment hands to the table writer. */
  lemma AssignedIsReady(inputs: seq<Export>, reference: map<Name, nat>)
    requires DistinctNames(inputs) && AssignSpec(inputs, reference).Assigned?
    ensures var Assigned(table, count) := AssignSpec(inputs, reference);
      && SortedByName(table) && DistinctOrdinals(table)
      && (forall a :: a in table ==> 1 <= a.ordinal <= count && a.name in reference && a.ordinal == reference[a.name])
      && (forall i :: 0 <= i < |inputs| ==>
        Assignment(inputs[i].name, reference[inputs[i].name], inputs[i].rva) in table)
      && |table| == |inputs|
  {
    hide Sort, Before;
    var all := WithOrdinals(inputs, reference);
    SortSorts(all);
    SortKeepsMembers(all);
    SortKeepsOrdinals(all, Sort(all));
    hide SortedByName, DistinctOrdinals, DistinctNames;
    forall i | 0 <= i < |inputs|
      ensures Assignment(inputs[i].name, reference[inputs[i].name], inputs[i].rva) in Sort(all)
    {
      assert all[i] in all;
    }
  }

  lemma SortKeepsMembers(s: seq<Assignment>)
    ensures |Sort(s)| == |s| && forall a :: a in Sort(s) <==> a in s
  {
    var table := Sort(s);
    assert |table| == |multiset(table)| == |multiset(s)| == |s|;
    forall a ensures a in table <==> a in s { assert a in multiset(table) <==> a in multiset(s); }
  }

  lemma SortKeepsOrdinals(s: seq<Assignment>, t: seq<Assignment>)
    requires multiset(s) == multiset(t) && DistinctOrdinals(s)
    ensures DistinctOrdinals(t)
  {
    forall i, j | 0 <= i < j < |t| ensures t[i].ordinal != t[j].ordinal {
      if t[i].ordinal == t[j].ordinal {
        assert t[i] in multiset(s) && t[j] in multiset(s);
        var a: nat :| a < |s| && s[a] == t[i];
        var b: nat :| b < |s| && s[b] == t[j];
        assert a == b;
        TwiceMeansTwo(t, i, j);
        OnceMeansOne(s, a);
      }
    }
  }

  lemma TwiceMeansTwo(t: seq<Assignment>, i: nat, j: nat)
    requires i < j < |t| && t[i] == t[j]
    ensures multiset(t)[t[i]] >= 2
  {
    assert t == t[..j] + t[j..] && t[i] in t[..j] && t[j] in t[j..];
    assert t[j..][0] == t[j];
    assert multiset(t) == multiset(t[..j]) + multiset(t[j..]);
  }

  lemma {:induction false} OnceMeansOne(s: seq<Assignment>, a: nat)
    requires a < |s| && DistinctOrdinals(s)
    ensures multiset(s)[s[a]] == 1
  {
    assert s == s[..a] + ([s[a]] + s[a + 1..]);
    assert s[a] !in s[..a] && s[a] !in s[a + 1..];
    assert multiset(s) == multiset(s[..a]) + (multiset{s[a]} + multiset(s[a + 1..]));
  }
}
