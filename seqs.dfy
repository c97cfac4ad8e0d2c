/** Order-preserving selection over sequences, the shape of both conversion loops. */
module Seqs {

  /** The images under `f` of the elements that `keep` accepts, in their original order. */
  function Select<T, U>(xs: seq<T>, keep: T -> bool, f: T -> U): seq<U> {
    if xs == [] then []
    else
      var last := xs[|xs| - 1];
      Select(xs[..|xs| - 1], keep, f) + (if keep(last) then [f(last)] else [])
  }

  /** The positions of the elements that `keep` accepts, in increasing order. */
  function Positions<T>(xs: seq<T>, keep: T -> bool): seq<nat> {
    if xs == [] then []
    else Positions(xs[..|xs| - 1], keep) + (if keep(xs[|xs| - 1]) then [|xs| - 1] else [])
  }

  /** Selection from a longer prefix adds at most the one new element. */
  lemma SelectSnoc<T, U>(xs: seq<T>, x: T, keep: T -> bool, f: T -> U)
    ensures Select(xs + [x], keep, f) == Select(xs, keep, f) + (if keep(x) then [f(x)] else [])
  {
    assert (xs + [x])[..|xs|] == xs;
  }

  /** Selection from two elements. */
  lemma SelectPair<T, U>(a: T, b: T, keep: T -> bool, f: T -> U)
    ensures Select([a, b], keep, f) == (if keep(a) then [f(a)] else []) + (if keep(b) then [f(b)] else [])
  {
    SelectSnoc([], a, keep, f);
    SelectSnoc([a], b, keep, f);
    assert [] + [a] == [a] && [a] + [b] == [a, b];
  }

  /** Selection never lengthens a sequence. */
  lemma {:induction false} SelectShorter<T, U>(xs: seq<T>, keep: T -> bool, f: T -> U)
    ensures |Select(xs, keep, f)| <= |xs|
  {
    if xs != [] {
      SelectShorter(xs[..|xs| - 1], keep, f);
    }
  }

  /** The k-th selected element is the image of the element at the k-th accepted position. */
  lemma {:induction false} PositionsMatch<T, U>(xs: seq<T>, keep: T -> bool, f: T -> U)
    ensures |Positions(xs, keep)| == |Select(xs, keep, f)|
    ensures forall k :: 0 <= k < |Positions(xs, keep)| ==>
      Positions(xs, keep)[k] < |xs| && keep(xs[Positions(xs, keep)[k]]) && Select(xs, keep, f)[k] == f(xs[Positions(xs, keep)[k]])
  {
    if xs != [] {
      var n := |xs| - 1;
      var init := xs[..n];
      PositionsMatch(init, keep, f);
      var p, q := Positions(init, keep), Select(init, keep, f);
      forall k | 0 <= k < |p|
        ensures Positions(xs, keep)[k] == p[k] && Select(xs, keep, f)[k] == q[k] && xs[p[k]] == init[p[k]]
      {
      }
    }
  }

  /** The accepted positions are within bounds and strictly increasing. */
  lemma {:induction false} PositionsIncreasing<T>(xs: seq<T>, keep: T -> bool)
    ensures forall k :: 0 <= k < |Positions(xs, keep)| ==> Positions(xs, keep)[k] < |xs|
    ensures forall k, l :: 0 <= k < l < |Positions(xs, keep)| ==> Positions(xs, keep)[k] < Positions(xs, keep)[l]
  {
    if xs != [] {
      var n := |xs| - 1;
      PositionsIncreasing(xs[..n], keep);
      var p := Positions(xs[..n], keep);
      assert forall k :: 0 <= k < |p| ==> Positions(xs, keep)[k] == p[k];
    }
  }

  /** Every accepted position is listed. */
  lemma {:induction false} PositionsComplete<T>(xs: seq<T>, keep: T -> bool)
    ensures forall i :: 0 <= i < |xs| && keep(xs[i]) ==> i in Positions(xs, keep)
  {
    if xs != [] {
      var n := |xs| - 1;
      var init := xs[..n];
      PositionsComplete(init, keep);
      var p := Positions(init, keep);
      forall i | 0 <= i < |xs| && keep(xs[i])
        ensures i in Positions(xs, keep)
      {
        if i < n {
          assert init[i] == xs[i];
          assert i in p;
        } else {
          assert Positions(xs, keep) == p + [n];
        }
      }
    }
  }

  /**
   * Select's result is an order-preserving subsequence: `idx` lists, strictly
   * increasingly, the positions it takes its elements from, each accepted by
   * `keep`, and every accepted position is among them.
   */
  lemma SelectIsSubsequence<T, U>(xs: seq<T>, keep: T -> bool, f: T -> U) returns (idx: seq<nat>)
    ensures |idx| == |Select(xs, keep, f)| <= |xs|
    ensures forall k :: 0 <= k < |idx| ==> idx[k] < |xs| && keep(xs[idx[k]]) && Select(xs, keep, f)[k] == f(xs[idx[k]])
    ensures forall k, l :: 0 <= k < l < |idx| ==> idx[k] < idx[l]
    ensures forall i :: 0 <= i < |xs| && keep(xs[i]) ==> i in idx
  {
    idx := Positions(xs, keep);
    SelectShorter(xs, keep, f);
    PositionsMatch(xs, keep, f);
    PositionsIncreasing(xs, keep);
    PositionsComplete(xs, keep);
  }
}
