/** Order-preserving selection from sequences, the model of JavaScript's `Array.prototype.filter`. */
module Seqs {

  /** The positions of the elements of `s` that satisfy `keep`, in ascending order. */
  function Indices<T>(s: seq<T>, keep: T -> bool): (r: seq<nat>)
    ensures |r| <= |s|
    ensures forall k :: 0 <= k < |r| ==> r[k] < |s| && keep(s[r[k]])
    ensures forall k, l :: 0 <= k < l < |r| ==> r[k] < r[l]
    decreases |s|
  {
    if s == [] then []
    else
      var r := Indices(s[..|s| - 1], keep);
      if keep(s[|s| - 1]) then r + [|s| - 1] else r
  }

  /** Every position whose element satisfies `keep` is listed. */
  lemma {:induction false} IndicesComplete<T>(s: seq<T>, keep: T -> bool, i: nat)
    requires i < |s| && keep(s[i])
    ensures i in Indices(s, keep)
    decreases |s|
  {
    if i < |s| - 1 {
      IndicesComplete(s[..|s| - 1], keep, i);
    }
  }

  /** The elements of `s` that satisfy `keep`, in their original order. */
  function Filter<T>(s: seq<T>, keep: T -> bool): (r: seq<T>)
    ensures |r| == |Indices(s, keep)|
    ensures forall k :: 0 <= k < |r| ==> r[k] == s[Indices(s, keep)[k]]
    decreases |s|
  {
    if s == [] then []
    else Filter(s[..|s| - 1], keep) + (if keep(s[|s| - 1]) then [s[|s| - 1]] else [])
  }

  /** An element survives the filter iff it was there and satisfies `keep`. */
  lemma FilterMembers<T>(s: seq<T>, keep: T -> bool)
    ensures forall x :: x in Filter(s, keep) <==> x in s && keep(x)
  {
    var r, idx := Filter(s, keep), Indices(s, keep);
    forall x | x in s && keep(x) ensures x in r {
      var i :| 0 <= i < |s| && s[i] == x;
      IndicesComplete(s, keep, i);
      var k :| 0 <= k < |idx| && idx[k] == i;
      assert r[k] == x;
    }
  }

  /** Filtering twice is filtering once by both conditions. */
  lemma {:induction false} FilterFilter<T>(s: seq<T>, a: T -> bool, b: T -> bool, ab: T -> bool)
    requires forall x :: ab(x) == (a(x) && b(x))
    ensures Filter(Filter(s, a), b) == Filter(s, ab)
    decreases |s|
  {
    if s != [] {
      var init, last := s[..|s| - 1], s[|s| - 1];
      FilterFilter(init, a, b, ab);
      var fa := Filter(s, a);
      assert fa == Filter(init, a) + (if a(last) then [last] else []);
      if a(last) {
        assert fa[..|fa| - 1] == Filter(init, a);
      } else {
        assert fa == Filter(init, a);
      }
    }
  }
}
