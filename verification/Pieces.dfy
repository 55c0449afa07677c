/** A sequence put together from pieces, and where each piece starts in it. */
module Pieces {

  /** The first `n` pieces one after the other. */
  function Flatten<T>(pieces: seq<seq<T>>, n: nat): (s: seq<T>)
    requires n <= |pieces|
    ensures |s| == Start(pieces, n)
  {
    if n == 0 then [] else Flatten(pieces, n - 1) + pieces[n - 1]
  }

  function Start<T>(pieces: seq<seq<T>>, k: nat): nat
    requires k <= |pieces|
  {
    if k == 0 then 0 else Start(pieces, k - 1) + |pieces[k - 1]|
  }

  /** From the start of piece `k` on there is piece `k`, then the rest. */
  lemma {:induction false} PieceAt<T>(pieces: seq<seq<T>>, n: nat, k: nat)
    requires k < n <= |pieces|
    ensures Start(pieces, k) + |pieces[k]| == Start(pieces, k + 1) <= Start(pieces, n)
    ensures Flatten(pieces, n)[Start(pieces, k)..] == pieces[k] + Flatten(pieces, n)[Start(pieces, k + 1)..]
  {
    if k < n - 1 {
      PieceAt(pieces, n - 1, k);
      var s, last := Flatten(pieces, n - 1), pieces[n - 1];
      assert (s + last)[Start(pieces, k)..] == s[Start(pieces, k)..] + last;
      assert (s + last)[Start(pieces, k + 1)..] == s[Start(pieces, k + 1)..] + last;
    }
  }

  /** Replacing one element of piece `k` in place. */
  lemma {:induction false} PatchPiece<T>(pieces: seq<seq<T>>, n: nat, k: nat, j: nat, v: T)
    requires k < n <= |pieces| && j < |pieces[k]|
    ensures Start(pieces, k) + j < Start(pieces, n) == Start(pieces[k := pieces[k][j := v]], n)
    ensures Flatten(pieces, n)[Start(pieces, k) + j := v] == Flatten(pieces[k := pieces[k][j := v]], n)
  {
    var patched := pieces[k := pieces[k][j := v]];
    if k < n - 1 {
      PatchPiece(pieces, n - 1, k, j, v);
      assert patched[n - 1] == pieces[n - 1];
      PatchedInFront(Flatten(pieces, n - 1), pieces[n - 1], Start(pieces, k) + j, v);
    } else {
      SamePrefix(pieces, patched, k);
      PatchedBehind(Flatten(pieces, k), pieces[k], j, v);
    }
  }

  lemma PatchedInFront<T>(s: seq<T>, t: seq<T>, i: nat, v: T)
    requires i < |s|
    ensures (s + t)[i := v] == s[i := v] + t
  {
  }

  lemma PatchedBehind<T>(s: seq<T>, t: seq<T>, j: nat, v: T)
    requires j < |t|
    ensures (s + t)[|s| + j := v] == s + t[j := v]
  {
  }

  lemma {:induction false} SamePrefix<T>(a: seq<seq<T>>, b: seq<seq<T>>, n: nat)
    requires n <= |a| && n <= |b| && forall i :: 0 <= i < n ==> a[i] == b[i]
    ensures Flatten(a, n) == Flatten(b, n)
  {
    if n > 0 { SamePrefix(a, b, n - 1); }
  }
}
