/** Sequences without repetition, and how large sets and sequences can be. */
module Sequences {

  ghost predicate Distinct(s: seq<nat>) {
    forall i, j :: 0 <= i < j < |s| ==> s[i] != s[j]
  }

  lemma SubsetSize<T>(a: set<T>, b: set<T>)
    requires a <= b
    ensures |a| <= |b|
  {
    assert b == a + (b - a);
    assert |b| == |a| + |b - a|;
  }

  lemma {:induction false} DistinctSize(s: seq<nat>, b: set<nat>)
    requires Distinct(s) && forall x :: x in s ==> x in b
    ensures |s| <= |b|
    decreases |s|
  {
    if s != [] {
      var i := |s| - 1;
      assert forall x :: x in s[..i] ==> x in s;
      assert s[i] in s && s[i] !in s[..i];
      DistinctSize(s[..i], b - {s[i]});
    }
  }
}
