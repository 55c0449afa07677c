/** Facts about finite sequences shared by the models of the linked lists. */
module Sequences {

  datatype Option<+T> = None | Some(value: T)

  ghost predicate Distinct<T>(s: seq<T>) {
    forall i, j :: 0 <= i < j < |s| ==> s[i] != s[j]
  }

  lemma EmptyDistinct<T>()
    ensures Distinct<T>([])
  {
  }

  lemma OnlyAt<T>(s: seq<T>, k: nat)
    requires k < |s| && Distinct(s)
    ensures forall i :: 0 <= i < |s| && i != k ==> s[i] != s[k]
  {
  }

  predicate Increasing(s: seq<int>) {
    forall i, j :: 0 <= i < j < |s| ==> s[i] < s[j]
  }

  /** Index of the first `x` at or after `from`, or the length when there is none. */
  function Find<T(==)>(s: seq<T>, x: T, from: nat): (k: nat)
    requires from <= |s|
    ensures from <= k <= |s|
    ensures k < |s| ==> s[k] == x
    ensures forall i :: from <= i < k ==> s[i] != x
    decreases |s| - from
  {
    if from == |s| || s[from] == x then from else Find(s, x, from + 1)
  }

  /** `s` with the first occurrence of `x` taken out. */
  function Without<T(==)>(s: seq<T>, x: T): seq<T> {
    var k := Find(s, x, 0);
    if k < |s| then s[..k] + s[k + 1..] else s
  }

  lemma WithoutAt<T>(s: seq<T>, k: nat)
    requires k < |s| && Distinct(s)
    ensures Find(s, s[k], 0) == k
    ensures Without(s, s[k]) == s[..k] + s[k + 1..]
  {
    FindAt(s, k);
  }

  lemma FindAt<T>(s: seq<T>, k: nat)
    requires k < |s| && Distinct(s)
    ensures Find(s, s[k], 0) == k && s[k] in s
  {
    var i := Find(s, s[k], 0);
  }

  lemma WithoutDistinct<T>(s: seq<T>, x: T)
    requires Distinct(s)
    ensures Distinct(Without(s, x))
    ensures x !in Without(s, x)
    ensures forall y | y in s :: y != x ==> y in Without(s, x)
    ensures forall y | y in Without(s, x) :: y in s
  {
    var r, k := Without(s, x), Find(s, x, 0);
    if k < |s| {
      forall y | y in s && y != x ensures y in r {
        var j := Find(s, y, 0);
        assert r[if j < k then j else j - 1] == y;
      }
    }
  }

  lemma SliceOfSlice<T>(s: seq<T>, a: nat, b: nat, at: nat, n: nat)
    requires a <= b <= |s| && at + n <= b - a
    ensures s[a..b][at..at + n] == s[a + at..a + at + n]
  {
    var left, right := s[a..b][at..at + n], s[a + at..a + at + n];
    forall i | 0 <= i < n ensures left[i] == right[i] {
      assert s[a..b][at + i] == s[a + (at + i)];
    }
  }

  function Elements<T>(s: seq<T>): set<T> {
    set x | x in s
  }

  lemma Punctured<T>(a: set<T>, x: T)
    ensures |a| == |a - {x}| + (if x in a then 1 else 0)
  {
    if x in a { assert a == (a - {x}) + {x}; } else { assert a == a - {x}; }
  }

  /** A sequence without repeats has as many elements as positions. */
  lemma {:induction false} DistinctSize<T>(s: seq<T>)
    requires Distinct(s)
    ensures |Elements(s)| == |s|
  {
    if s == [] {
      assert Elements(s) == {};
    } else {
      var n := |s| - 1;
      DistinctSize(s[..n]);
      assert s == s[..n] + [s[n]];
      assert Elements(s) == Elements(s[..n]) + {s[n]};
      assert s[n] !in Elements(s[..n]);
    }
  }
}
