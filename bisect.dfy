/**
 * Python's `bisect.bisect_left` and `bisect.insort_left` on a list of
 * integers kept in ascending order.
 */
module Bisect {

  predicate Sorted(s: seq<int>) {
    forall i, j :: 0 <= i < j < |s| ==> s[i] <= s[j]
  }

  /** The leftmost position at which `x` can be inserted keeping `s` sorted. */
  method BisectLeft(s: seq<int>, x: int) returns (lo: nat)
    requires Sorted(s)
    ensures lo <= |s|
    ensures forall i :: 0 <= i < lo ==> s[i] < x
    ensures forall i :: lo <= i < |s| ==> x <= s[i]
  {
    lo := 0;
    var hi := |s|;
    while lo < hi
      invariant 0 <= lo <= hi <= |s|
      invariant forall i :: 0 <= i < lo ==> s[i] < x
      invariant forall i :: hi <= i < |s| ==> x <= s[i]
    {
      var mid := (lo + hi) / 2;
      if s[mid] < x {
        lo := mid + 1;
      } else {
        hi := mid;
      }
    }
  }

  /**
   * `insort_left(s, x)`: the list with `x` added, still sorted. For integers
   * these two facts fix the result (see SortedPermutationUnique).
   */
  method InsortLeft(s: seq<int>, x: int) returns (r: seq<int>)
    requires Sorted(s)
    ensures Sorted(r)
    ensures multiset(r) == multiset(s) + multiset{x}
    ensures |r| == |s| + 1
  {
    var i := BisectLeft(s, x);
    r := s[..i] + [x] + s[i..];
    assert s == s[..i] + s[i..];
  }

  /** Two sorted lists holding the same multiset of integers are equal. */
  lemma {:induction false} SortedPermutationUnique(a: seq<int>, b: seq<int>)
    requires Sorted(a) && Sorted(b) && multiset(a) == multiset(b)
    ensures a == b
  {
    if a != [] {
      assert |a| == |multiset(a)| == |multiset(b)| == |b|;
      MinOfSorted(a);
      MinOfSorted(b);
      assert a[0] in multiset(b) && b[0] in multiset(a);
      assert a[0] == b[0];
      assert a == [a[0]] + a[1..] && b == [b[0]] + b[1..];
      assert multiset(a) == multiset{a[0]} + multiset(a[1..]);
      assert multiset(b) == multiset{b[0]} + multiset(b[1..]);
      forall z ensures multiset(a[1..])[z] == multiset(b[1..])[z] {
        assert multiset(a)[z] == multiset{a[0]}[z] + multiset(a[1..])[z];
        assert multiset(b)[z] == multiset{b[0]}[z] + multiset(b[1..])[z];
      }
      assert multiset(a[1..]) == multiset(b[1..]);
      assert Sorted(a[1..]) && Sorted(b[1..]);
      SortedPermutationUnique(a[1..], b[1..]);
    }
  }

  lemma MinOfSorted(s: seq<int>)
    requires Sorted(s) && s != []
    ensures forall x :: x in multiset(s) ==> s[0] <= x
  {
    forall x | x in multiset(s) ensures s[0] <= x {
      assert x in s;
    }
  }
}
