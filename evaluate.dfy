/**
 * The ranking evaluator: DCG and NDCG of a relevance list, and the per-user
 * hit rate and NDCG averaged over the test users.
 *
 * The discount `np.log2(idx + 2)` is a parameter `disc`, known only to be
 * positive and strictly increasing; scores are reals.
 */
module Evaluate {
  import opened OrderedDict
  import opened Outcome

  // ---------------------------------------------------------------------
  // compute_dcg and compute_ndcg

  function Pow2(n: nat): (r: nat)
    ensures r >= 1
  {
    if n == 0 then 1 else 2 * Pow2(n - 1)
  }

  /** `2**val - 1`; a negative exponent gives a fraction. */
  function Gain(v: int): real
  {
    if v >= 0 then (Pow2(v) - 1) as real else 1.0 / Pow2(-v) as real - 1.0
  }

  /** What the model knows of `log2(i + 2)`: positive and strictly increasing in the position. */
  ghost predicate IsDiscount(disc: nat -> real) {
    && (forall i: nat :: 0.0 < disc(i))
    && (forall i: nat, j: nat :: i < j ==> disc(i) < disc(j))
  }

  /** The gains of `rel` discounted as if it started at position `o`, summed. */
  function DcgFrom(rel: seq<int>, o: nat, disc: nat -> real): real
    requires IsDiscount(disc)
  {
    if rel == [] then 0.0 else Gain(rel[0]) / disc(o) + DcgFrom(rel[1..], o + 1, disc)
  }

  function Dcg(rel: seq<int>, disc: nat -> real): real
    requires IsDiscount(disc)
  {
    DcgFrom(rel, 0, disc)
  }

  /** Python's `sum` of a list of floats. */
  function Sum(s: seq<real>): real
  {
    if s == [] then 0.0 else s[0] + Sum(s[1..])
  }

  /** `compute_dcg`: collects the discounted gain of each position, then sums the list. */
  method ComputeDcg(rel: seq<int>, disc: nat -> real) returns (r: real)
    requires IsDiscount(disc)
    ensures r == Dcg(rel, disc)
  {
    var scores: seq<real> := [];
    var i := 0;
    while i < |rel|
      invariant 0 <= i <= |rel|
      invariant |scores| == i
      invariant forall k :: 0 <= k < i ==> scores[k] == Gain(rel[k]) / disc(k)
    {
      scores := scores + [Gain(rel[i]) / disc(i)];
      i := i + 1;
    }
    r := Sum(scores);
    SumOfScores(rel, scores, 0, disc);
  }

  lemma {:induction false} SumOfScores(rel: seq<int>, scores: seq<real>, o: nat, disc: nat -> real)
    requires IsDiscount(disc)
    requires |scores| == |rel|
    requires forall k :: 0 <= k < |rel| ==> scores[k] == Gain(rel[k]) / disc(o + k)
    ensures Sum(scores) == DcgFrom(rel, o, disc)
  {
    if rel != [] {
      SumOfScores(rel[1..], scores[1..], o + 1, disc);
    }
  }

  /** `compute_ndcg(result, sorted_result)`: 0 when the ideal DCG is 0, the ratio otherwise. */
  function Ndcg(result: seq<int>, sortedResult: seq<int>, disc: nat -> real): real
    requires IsDiscount(disc)
  {
    var idcg := Dcg(sortedResult, disc);
    if idcg == 0.0 then 0.0 else Dcg(result, disc) / idcg
  }

  // ---------------------------------------------------------------------
  // `sorted(relevance_score, reverse=True)` and 0/1 relevance lists

  function InsertDesc(x: int, s: seq<int>): seq<int>
  {
    if s == [] || x >= s[0] then [x] + s else [s[0]] + InsertDesc(x, s[1..])
  }

  /** Descending sort of a list of integers. */
  function SortDesc(s: seq<int>): seq<int>
  {
    if s == [] then [] else InsertDesc(s[0], SortDesc(s[1..]))
  }

  predicate Binary(s: seq<int>) {
    forall i :: 0 <= i < |s| ==> s[i] == 0 || s[i] == 1
  }

  /** `np.sum` of a list of integers. */
  function IntSum(s: seq<int>): int
  {
    if s == [] then 0 else s[0] + IntSum(s[1..])
  }

  function Ones(n: nat): (r: seq<int>)
    ensures |r| == n
  {
    seq(n, _ => 1)
  }

  function Zeros(n: nat): (r: seq<int>)
    ensures |r| == n
  {
    seq(n, _ => 0)
  }

  /** A 0/1 list sums to its number of ones, which is between 0 and its length. */
  lemma {:induction false} BinarySum(s: seq<int>)
    requires Binary(s)
    ensures 0 <= IntSum(s) <= |s|
  {
    if s != [] {
      BinarySum(s[1..]);
    }
  }

  lemma {:induction false} InsertZero(a: nat, b: nat)
    ensures InsertDesc(0, Ones(a) + Zeros(b)) == Ones(a) + Zeros(b + 1)
  {
    var s := Ones(a) + Zeros(b);
    if a == 0 {
      assert s == Zeros(b);
      assert [0] + Zeros(b) == Zeros(b + 1);
    } else {
      assert s[0] == 1;
      assert s[1..] == Ones(a - 1) + Zeros(b);
      InsertZero(a - 1, b);
      assert [1] + Ones(a - 1) + Zeros(b + 1) == Ones(a) + Zeros(b + 1);
    }
  }

  /** Sorting a 0/1 list descending puts all its ones first. */
  lemma {:induction false} SortDescBinary(s: seq<int>)
    requires Binary(s)
    ensures 0 <= IntSum(s) <= |s|
    ensures SortDesc(s) == Ones(IntSum(s)) + Zeros(|s| - IntSum(s))
  {
    BinarySum(s);
    if s != [] {
      SortDescBinary(s[1..]);
      var c := IntSum(s[1..]);
      var t := Ones(c) + Zeros(|s| - 1 - c);
      if s[0] == 1 {
        assert t == [] || 1 >= t[0];
        assert [1] + t == Ones(c + 1) + Zeros(|s| - 1 - c);
      } else {
        InsertZero(c, |s| - 1 - c);
      }
    }
  }

  lemma {:induction false} AllZeros(s: seq<int>)
    requires forall i :: 0 <= i < |s| ==> s[i] == 0
    ensures s == Zeros(|s|) && IntSum(s) == 0
  {
    if s != [] {
      AllZeros(s[1..]);
    }
  }

  /** A 0/1 list in descending order is its ones followed by its zeros. */
  lemma {:induction false} DescendingBinary(s: seq<int>)
    requires Binary(s)
    requires forall i, j :: 0 <= i < j < |s| ==> s[i] >= s[j]
    ensures 0 <= IntSum(s) <= |s|
    ensures s == Ones(IntSum(s)) + Zeros(|s| - IntSum(s))
  {
    BinarySum(s);
    if s != [] {
      if s[0] == 1 {
        var t := s[1..];
        DescendingTail(s);
        DescendingBinary(t);
        OnesCons(IntSum(t), |t| - IntSum(t));
      } else {
        forall i | 0 <= i < |s| ensures s[i] == 0 {
          if i > 0 {
            assert s[0] >= s[i];
          }
        }
        AllZeros(s);
        assert Ones(0) + Zeros(|s|) == Zeros(|s|);
      }
    }
  }

  /** Dropping the head keeps a list 0/1 and descending. */
  lemma DescendingTail(s: seq<int>)
    requires s != [] && Binary(s)
    requires forall i, j :: 0 <= i < j < |s| ==> s[i] >= s[j]
    ensures Binary(s[1..])
    ensures forall i, j :: 0 <= i < j < |s[1..]| ==> s[1..][i] >= s[1..][j]
  {
    forall i, j | 0 <= i < j < |s[1..]| ensures s[1..][i] >= s[1..][j] {
      assert s[1..][i] == s[i + 1] && s[1..][j] == s[j + 1];
    }
  }

  /** One more leading one. */
  lemma OnesCons(c: nat, n: nat)
    ensures [1] + (Ones(c) + Zeros(n)) == Ones(c + 1) + Zeros(n)
  {
    assert [1] + Ones(c) == Ones(c + 1);
    assert [1] + (Ones(c) + Zeros(n)) == ([1] + Ones(c)) + Zeros(n);
  }

  // ---------------------------------------------------------------------
  // NDCG of a 0/1 list lies in [0, 1]

  lemma ReciprocalAntitone(a: real, b: real)
    requires 0.0 < b <= a
    ensures 0.0 < 1.0 / a <= 1.0 / b
  {
    assert 1.0 / a * a == 1.0;
    assert 1.0 / b * b == 1.0;
  }

  lemma {:induction false} IdealIsPositive(h: nat, o: nat, disc: nat -> real)
    requires IsDiscount(disc)
    ensures 0.0 <= DcgFrom(Ones(h), o, disc)
    ensures h > 0 ==> 0.0 < DcgFrom(Ones(h), o, disc)
  {
    if h > 0 {
      assert Ones(h)[1..] == Ones(h - 1);
      IdealIsPositive(h - 1, o + 1, disc);
      ReciprocalAntitone(disc(o), disc(o));
    }
  }

  /** Moving the `h` ones one position down can only lower their DCG. */
  lemma {:induction false} ShiftedIdealIsSmaller(h: nat, o: nat, disc: nat -> real)
    requires IsDiscount(disc)
    ensures DcgFrom(Ones(h), o + 1, disc) <= DcgFrom(Ones(h), o, disc)
  {
    if h > 0 {
      assert Ones(h)[1..] == Ones(h - 1);
      ShiftedIdealIsSmaller(h - 1, o + 1, disc);
      ReciprocalAntitone(disc(o + 1), disc(o));
    }
  }

  lemma {:induction false} TrailingZeros(h: nat, m: nat, o: nat, disc: nat -> real)
    requires IsDiscount(disc)
    ensures DcgFrom(Ones(h) + Zeros(m), o, disc) == DcgFrom(Ones(h), o, disc)
  {
    if h > 0 {
      assert (Ones(h) + Zeros(m))[1..] == Ones(h - 1) + Zeros(m);
      assert Ones(h)[1..] == Ones(h - 1);
      TrailingZeros(h - 1, m, o + 1, disc);
    } else if m > 0 {
      assert Ones(0) + Zeros(m) == Zeros(m);
      assert Zeros(m)[1..] == Ones(0) + Zeros(m - 1);
      TrailingZeros(0, m - 1, o + 1, disc);
    } else {
      assert Ones(0) + Zeros(0) == Ones(0);
    }
  }

  /**
   * The DCG of a 0/1 list lies between 0 and the DCG of the same number
   * of ones placed first.
   */
  lemma {:induction false} BinaryDcgBelowIdeal(rel: seq<int>, o: nat, disc: nat -> real)
    requires IsDiscount(disc) && Binary(rel)
    ensures 0 <= IntSum(rel)
    ensures 0.0 <= DcgFrom(rel, o, disc) <= DcgFrom(Ones(IntSum(rel)), o, disc)
  {
    BinarySum(rel);
    if rel != [] {
      var c := IntSum(rel[1..]);
      BinaryDcgBelowIdeal(rel[1..], o + 1, disc);
      ReciprocalAntitone(disc(o), disc(o));
      if rel[0] == 1 {
        assert Ones(c + 1)[1..] == Ones(c);
      } else {
        ShiftedIdealIsSmaller(c, o, disc);
      }
    }
  }

  lemma DivAtMostOne(a: real, b: real)
    requires 0.0 <= a <= b && 0.0 < b
    ensures 0.0 <= a / b <= 1.0
  {
    assert a / b * b == a;
  }

  /** `compute_ndcg(rel, sorted(rel, reverse=True))` of a 0/1 list lies in [0, 1]. */
  lemma NdcgBounds(rel: seq<int>, disc: nat -> real)
    requires IsDiscount(disc) && Binary(rel)
    ensures 0.0 <= Ndcg(rel, SortDesc(rel), disc) <= 1.0
  {
    SortDescBinary(rel);
    var c := IntSum(rel);
    TrailingZeros(c, |rel| - c, 0, disc);
    BinaryDcgBelowIdeal(rel, 0, disc);
    var idcg := Dcg(SortDesc(rel), disc);
    if idcg != 0.0 {
      IdealIsPositive(c, 0, disc);
      DivAtMostOne(Dcg(rel, disc), idcg);
    }
  }

  /** A 0/1 list already in descending order and holding a 1 has NDCG exactly 1. */
  lemma NdcgOfIdealRanking(rel: seq<int>, disc: nat -> real)
    requires IsDiscount(disc) && Binary(rel)
    requires forall i, j :: 0 <= i < j < |rel| ==> rel[i] >= rel[j]
    requires 1 in rel
    ensures Ndcg(rel, SortDesc(rel), disc) == 1.0
  {
    DescendingBinary(rel);
    SortDescBinary(rel);
    HoldsOne(rel);
    var c := IntSum(rel);
    IdealNdcgIsOne(c, |rel| - c, disc);
  }

  lemma IdealNdcgIsOne(c: nat, m: nat, disc: nat -> real)
    requires IsDiscount(disc) && c > 0
    ensures Ndcg(Ones(c) + Zeros(m), Ones(c) + Zeros(m), disc) == 1.0
  {
    TrailingZeros(c, m, 0, disc);
    IdealIsPositive(c, 0, disc);
    var d := Dcg(Ones(c) + Zeros(m), disc);
    assert d > 0.0;
    assert d / d == 1.0;
  }

  lemma {:induction false} HoldsOne(s: seq<int>)
    requires Binary(s) && 1 in s
    ensures IntSum(s) > 0
  {
    if s[0] != 1 {
      assert 1 in s[1..] by {
        var i :| 0 <= i < |s| && s[i] == 1;
        assert s[1..][i - 1] == 1;
      }
      HoldsOne(s[1..]);
    } else {
      BinarySum(s[1..]);
    }
  }

  /** `[1, 0]` ranks its relevant entry first: NDCG 1. */
  lemma NdcgRelevantFirst(disc: nat -> real)
    requires IsDiscount(disc)
    ensures Ndcg([1, 0], SortDesc([1, 0]), disc) == 1.0
  {
    NdcgOfIdealRanking([1, 0], disc);
  }

  /** `[0, 1]` ranks its relevant entry second: NDCG `log2(2) / log2(3)`, below 1. */
  lemma {:induction false} NdcgRelevantSecond(disc: nat -> real)
    requires IsDiscount(disc)
    ensures Ndcg([0, 1], SortDesc([0, 1]), disc) == disc(0) / disc(1)
    ensures Ndcg([0, 1], SortDesc([0, 1]), disc) < 1.0
  {
    assert SortDesc([0, 1]) == [1, 0] by {
      assert SortDesc([1]) == [1];
    }
    assert [0, 1][1..] == [1] && [1][1..] == [] && [1, 0][1..] == [0] && [0][1..] == [];
    assert Dcg([0, 1], disc) == 1.0 / disc(1);
    assert Dcg([1, 0], disc) == 1.0 / disc(0);
    var a, b := disc(0), disc(1);
    assert 0.0 < a < b;
    assert (1.0 / b) / (1.0 / a) == a / b;
    assert a / b * b == a;
  }

  // ---------------------------------------------------------------------
  // `np.argsort(scores)[::-1]` and the relevance list

  predicate Distinct(s: seq<nat>) {
    forall i, j :: 0 <= i < j < |s| ==> s[i] != s[j]
  }

  /**
   * `order` lists every index of `scores` once, best score first. Ties
   * may come in any order: `np.argsort` does not promise a stable sort.
   */
  ghost predicate IsRanking(order: seq<nat>, scores: seq<real>) {
    && |order| == |scores|
    && (forall i :: 0 <= i < |order| ==> order[i] < |scores|)
    && Distinct(order)
    && (forall i, j :: 0 <= i < j < |order| ==> scores[order[i]] >= scores[order[j]])
  }

  /** Sorts the indices by descending score, inserting each after those scored at least as high. */
  method ArgsortDescending(scores: seq<real>) returns (order: seq<nat>)
    ensures IsRanking(order, scores)
  {
    order := [];
    var k := 0;
    while k < |scores|
      invariant 0 <= k <= |scores|
      invariant |order| == k
      invariant forall i :: 0 <= i < |order| ==> order[i] < k
      invariant Distinct(order)
      invariant forall i, j :: 0 <= i < j < |order| ==> scores[order[i]] >= scores[order[j]]
    {
      var p := 0;
      while p < |order| && scores[order[p]] >= scores[k]
        invariant 0 <= p <= |order|
        invariant forall q :: 0 <= q < p ==> scores[order[q]] >= scores[k]
      {
        p := p + 1;
      }
      InsertRanked(order, scores, k, p);
      order := order[..p] + [k] + order[p..];
      k := k + 1;
    }
  }

  lemma InsertRanked(order: seq<nat>, scores: seq<real>, k: nat, p: nat)
    requires k < |scores| && p <= |order|
    requires forall i :: 0 <= i < |order| ==> order[i] < k
    requires Distinct(order)
    requires forall i, j :: 0 <= i < j < |order| ==> scores[order[i]] >= scores[order[j]]
    requires forall q :: 0 <= q < p ==> scores[order[q]] >= scores[k]
    requires p < |order| ==> scores[order[p]] < scores[k]
    ensures var r := order[..p] + [k] + order[p..];
            && (forall i :: 0 <= i < |r| ==> r[i] < k + 1)
            && Distinct(r)
            && (forall i, j :: 0 <= i < j < |r| ==> scores[r[i]] >= scores[r[j]])
  {
    var r := order[..p] + [k] + order[p..];
    assert forall i :: 0 <= i < |r| ==> r[i] == if i < p then order[i] else if i == p then k else order[i - 1];
    forall i, j | 0 <= i < j < |r| ensures scores[r[i]] >= scores[r[j]] {
      if j == p {
      } else if i == p {
        assert scores[order[p]] < scores[k];
        assert scores[order[p]] >= scores[order[j - 1]] || j - 1 == p;
      }
    }
  }

  /** `relevance_score` for the ranked indices `top`: 1 where it points into the positives `[0, numPositives)`. */
  function Relevance(top: seq<nat>, numPositives: nat): (r: seq<int>)
    ensures |r| == |top| && Binary(r)
  {
    seq(|top|, i requires 0 <= i < |top| => if top[i] < numPositives then 1 else 0)
  }

  /**
   * The loop `for idx in range(top_k)`: reading `sort_index[idx]` fails
   * once `idx` passes the end of the ranking.
   */
  method RelevanceScores(order: seq<nat>, numPositives: nat, topK: int) returns (r: Result<seq<int>>)
    ensures r.Failure? <==> topK > |order|
    ensures r.Failure? ==> r.error == IndexError
    ensures r.Success? ==> r.value == Relevance(order[..Max0(topK)], numPositives)
  {
    var rel: seq<int> := [];
    var idx := 0;
    while idx < topK
      invariant 0 <= idx <= Max0(topK)
      invariant idx <= |order|
      invariant rel == Relevance(order[..idx], numPositives)
    {
      if idx >= |order| {
        return Failure(IndexError);
      }
      var rank := order[idx];
      rel := rel + [if rank < numPositives then 1 else 0];
      idx := idx + 1;
    }
    r := Success(rel);
  }

  /** The indices `0 .. n - 1` as a set. */
  function Below(n: nat): (r: set<nat>)
    ensures forall x: nat :: x in r <==> x < n
    ensures |r| == n
  {
    if n == 0 then {} else Below(n - 1) + {n - 1}
  }

  /** The ones of the relevance list count the distinct positives among the ranked indices. */
  lemma {:induction false} RelevanceCountsPositives(top: seq<nat>, numPositives: nat)
    requires Distinct(top)
    ensures IntSum(Relevance(top, numPositives)) == |set x | x in top && x < numPositives|
  {
    if top != [] {
      var tail := top[1..];
      assert Relevance(top, numPositives)[1..] == Relevance(tail, numPositives);
      RelevanceCountsPositives(tail, numPositives);
      var all := set x | x in top && x < numPositives;
      var rest := set x | x in tail && x < numPositives;
      assert top[0] !in tail by {
        forall i | 0 <= i < |tail| ensures tail[i] != top[0] {
          assert tail[i] == top[i + 1];
        }
      }
      if top[0] < numPositives {
        assert all == rest + {top[0]};
      } else {
        assert all == rest;
      }
    }
  }

  /**
   * The hits among the first `topK` ranked indices are at most `topK` and
   * at most the number of positives: the ranking never repeats an index.
   */
  lemma HitsBounded(top: seq<nat>, numPositives: nat)
    requires Distinct(top)
    ensures 0 <= IntSum(Relevance(top, numPositives)) <= |top|
    ensures IntSum(Relevance(top, numPositives)) <= numPositives
  {
    BinarySum(Relevance(top, numPositives));
    RelevanceCountsPositives(top, numPositives);
    var a := set x | x in top && x < numPositives;
    var b := Below(numPositives);
    assert a <= b;
    assert |b| == |b - a| + |a| by {
      assert b == (b - a) + a;
    }
  }

  // ---------------------------------------------------------------------
  // Per-user hit rate and NDCG, and their mean

  /** A float that may be NaN (`0.0 / 0` and the mean of no values). */
  datatype Score = Num(value: real) | NaN

  /** `np.sum(relevance_score) / min(len(positives), top_k)`. */
  function HitRate(rel: seq<int>, numPositives: nat, topK: int): Score
  {
    var target := if numPositives <= topK then numPositives else topK;
    if target == 0 then NaN else Num(IntSum(rel) as real / target as real)
  }

  /** The relevance list of a user's ranking cut at `top_k`. */
  function TopRelevance(order: seq<nat>, numPositives: nat, topK: int): seq<int>
    requires topK <= |order|
  {
    Relevance(order[..Max0(topK)], numPositives)
  }

  /** With at least one positive and `top_k >= 1`, the hit rate of a ranking lies in [0, 1]. */
  lemma HitRateBounds(order: seq<nat>, numPositives: nat, topK: int)
    requires Distinct(order) && 1 <= topK <= |order| && numPositives >= 1
    ensures HitRate(TopRelevance(order, numPositives, topK), numPositives, topK).Num?
    ensures 0.0 <= HitRate(TopRelevance(order, numPositives, topK), numPositives, topK).value <= 1.0
  {
    var top := order[..topK];
    assert Distinct(top);
    HitsBounded(top, numPositives);
    var target := if numPositives <= topK then numPositives else topK;
    DivAtMostOne(IntSum(Relevance(top, numPositives)) as real, target as real);
  }

  function SumScores(s: seq<Score>): real
    requires forall i :: 0 <= i < |s| ==> s[i].Num?
  {
    if s == [] then 0.0 else s[0].value + SumScores(s[1..])
  }

  /** `np.mean`: NaN for an empty list or when any value is NaN. */
  function Mean(s: seq<Score>): Score
  {
    if s == [] || exists i :: 0 <= i < |s| && s[i].NaN? then NaN
    else Num(SumScores(s) / |s| as real)
  }

  lemma {:induction false} SumScoresBounds(s: seq<Score>)
    requires forall i :: 0 <= i < |s| ==> s[i].Num? && 0.0 <= s[i].value <= 1.0
    ensures 0.0 <= SumScores(s) <= |s| as real
  {
    if s != [] {
      SumScoresBounds(s[1..]);
    }
  }

  /** The mean of values in [0, 1] lies in [0, 1]. */
  lemma MeanBounds(s: seq<Score>)
    requires s != []
    requires forall i :: 0 <= i < |s| ==> s[i].Num? && 0.0 <= s[i].value <= 1.0
    ensures Mean(s).Num? && 0.0 <= Mean(s).value <= 1.0
  {
    SumScoresBounds(s);
    DivAtMostOne(SumScores(s), |s| as real);
  }

  // ---------------------------------------------------------------------
  // evaluate_hit_rate_and_ndcg_2

  /** `compute_ndcg`, calling `compute_dcg` on the list and on its ideal order. */
  method ComputeNdcg(result: seq<int>, sortedResult: seq<int>, disc: nat -> real) returns (r: real)
    requires IsDiscount(disc)
    ensures r == Ndcg(result, sortedResult, disc)
  {
    var dcg := ComputeDcg(result, disc);
    var idcg := ComputeDcg(sortedResult, disc);
    r := if idcg == 0.0 then 0.0 else dcg / idcg;
  }

  /** `positive_ratings[i]`, counting from the end for a negative `i` as numpy does. */
  function Fetch(s: seq<real>, i: int): real
    requires -|s| <= i < |s|
  {
    if i < 0 then s[|s| + i] else s[i]
  }

  predicate IndicesInRange(indices: seq<int>, n: nat) {
    forall k :: 0 <= k < |indices| ==> -(n as int) <= indices[k] < n
  }

  /** What stops the evaluation at user `u`, checked in the order the code meets it. */
  function UserError(u: int, indices: seq<int>, numPredictions: nat, negativeRatings: map<int, seq<real>>,
                     topK: int): Option<PyError>
  {
    if !IndicesInRange(indices, numPredictions) then Some(IndexError)  // positive_ratings[item_indices]
    else if indices == [] then Some(ValueError)                        // np.concatenate of nothing
    else if u !in negativeRatings then Some(KeyError)                  // negative_ratings_user_dict[user]
    else if topK > |indices| + |negativeRatings[u]| then Some(IndexError)  // sort_index[idx]
    else None
  }

  /** `user_all_predict_ratings`: the predictions for the user's positives, then for its negatives. */
  function UserPredictions(indices: seq<int>, positiveRatings: seq<real>, negatives: seq<real>): seq<real>
    requires IndicesInRange(indices, |positiveRatings|)
  {
    seq(|indices|, k requires 0 <= k < |indices| => Fetch(positiveRatings, indices[k])) + negatives
  }

  /** The hit rate and NDCG of one user whose predictions were ranked as `order`. */
  function UserMetrics(order: seq<nat>, numPositives: nat, topK: int, disc: nat -> real): (Score, Score)
    requires IsDiscount(disc) && topK <= |order|
  {
    var rel := TopRelevance(order, numPositives, topK);
    (HitRate(rel, numPositives, topK), Num(Ndcg(rel, SortDesc(rel), disc)))
  }

  /**
   * The body of the loop for one user: gather its positive predictions,
   * append its negative ones, rank them, score the first `top_k`.
   */
  method EvaluateUser(u: int, indices: seq<int>, positiveRatings: seq<real>, negativeRatings: map<int, seq<real>>,
                      topK: int, disc: nat -> real)
    returns (r: Result<(Score, Score)>, ghost order: seq<nat>)
    requires IsDiscount(disc)
    ensures r.Failure? <==> UserError(u, indices, |positiveRatings|, negativeRatings, topK).Some?
    ensures r.Failure? ==> UserError(u, indices, |positiveRatings|, negativeRatings, topK) == Some(r.error)
    ensures r.Success? ==>
              && IndicesInRange(indices, |positiveRatings|) && u in negativeRatings
              && IsRanking(order, UserPredictions(indices, positiveRatings, negativeRatings[u]))
              && topK <= |order|
              && r.value == UserMetrics(order, |indices|, topK, disc)
  {
    order := [];
    var n: int := |positiveRatings|;
    var positives: seq<real> := [];
    var k := 0;
    while k < |indices|
      invariant 0 <= k <= |indices|
      invariant IndicesInRange(indices[..k], n)
      invariant |positives| == k
      invariant forall q :: 0 <= q < k ==> -n <= indices[q] < n && positives[q] == Fetch(positiveRatings, indices[q])
    {
      if !(-n <= indices[k] < n) {
        return Failure(IndexError), order;
      }
      positives := positives + [Fetch(positiveRatings, indices[k])];
      k := k + 1;
    }
    if |indices| == 0 {
      return Failure(ValueError), order;
    }
    if u !in negativeRatings {
      return Failure(KeyError), order;
    }
    var all := positives + negativeRatings[u];
    assert all == UserPredictions(indices, positiveRatings, negativeRatings[u]);
    var sortIndex := ArgsortDescending(all);
    order := sortIndex;
    var rel := RelevanceScores(sortIndex, |indices|, topK);
    if rel.Failure? {
      return Failure(rel.error), order;
    }
    var target := if |indices| <= topK then |indices| else topK;
    var hit := if target == 0 then NaN else Num(IntSum(rel.value) as real / target as real);
    var ndcg := ComputeNdcg(rel.value, SortDesc(rel.value), disc);
    r := Success((hit, Num(ndcg)));
  }

  /**
   * One positive scored 0.9 and negatives scored 0.1 and 0.2, with
   * `top_k = 2`: the only descending ranking is positive, second negative,
   * first negative; the relevance is `[1, 0]` and both hit rate and NDCG are 1.
   */
  lemma OnePositiveRankedFirst(order: seq<nat>, disc: nat -> real)
    requires IsDiscount(disc)
    requires IsRanking(order, UserPredictions([0], [0.9], [0.1, 0.2]))
    ensures order == [0, 2, 1]
    ensures UserMetrics(order, 1, 2, disc) == (Num(1.0), Num(1.0))
  {
    var scores := UserPredictions([0], [0.9], [0.1, 0.2]);
    assert scores == [0.9, 0.1, 0.2];
    assert order[0] < 3 && order[1] < 3 && order[2] < 3;
    assert order[0] != order[1] && order[1] != order[2] && order[0] != order[2];
    assert scores[order[0]] >= scores[order[1]] >= scores[order[2]];
    assert order == [0, 2, 1];
    assert TopRelevance(order, 1, 2) == [1, 0];
    NdcgRelevantFirst(disc);
  }

  /** The item indices of the `j`-th user of the index dict. */
  function IndicesAt(userIndex: Dict<seq<int>>, j: nat): seq<int>
    requires userIndex.Valid() && j < |userIndex.keys|
  {
    assert userIndex.keys[j] in userIndex.keys;
    userIndex.m[userIndex.keys[j]]
  }

  function ErrorAt(userIndex: Dict<seq<int>>, positiveRatings: seq<real>, negativeRatings: map<int, seq<real>>,
                   topK: int, j: nat): Option<PyError>
    requires userIndex.Valid() && j < |userIndex.keys|
  {
    UserError(userIndex.keys[j], IndicesAt(userIndex, j), |positiveRatings|, negativeRatings, topK)
  }

  /** The users ranked as `orders`, each scored. */
  ghost predicate ScoredAs(userIndex: Dict<seq<int>>, positiveRatings: seq<real>, negativeRatings: map<int, seq<real>>,
                           topK: int, disc: nat -> real, orders: seq<seq<nat>>, hits: seq<Score>, ndcgs: seq<Score>)
    requires userIndex.Valid() && IsDiscount(disc)
  {
    && |orders| == |hits| == |ndcgs| <= |userIndex.keys|
    && forall j :: 0 <= j < |orders| ==>
         && ErrorAt(userIndex, positiveRatings, negativeRatings, topK, j) == None
         && userIndex.keys[j] in negativeRatings
         && IndicesInRange(IndicesAt(userIndex, j), |positiveRatings|)
         && IsRanking(orders[j], UserPredictions(IndicesAt(userIndex, j), positiveRatings,
                                                 negativeRatings[userIndex.keys[j]]))
         && topK <= |orders[j]|
         && (hits[j], ndcgs[j]) == UserMetrics(orders[j], |IndicesAt(userIndex, j)|, topK, disc)
  }

  /**
   * `evaluate_hit_rate_and_ndcg_2`: the mean hit rate and mean NDCG over
   * the users of `user_index_dict`, in its order. The first user that
   * fails decides the error; otherwise each user's predictions are ranked
   * by some descending argsort (`orders`) and scored.
   */
  method EvaluateHitRateAndNdcg(userIndex: Dict<seq<int>>, positiveRatings: seq<real>,
                                negativeRatings: map<int, seq<real>>, topK: int, disc: nat -> real)
    returns (r: Result<(Score, Score)>, ghost orders: seq<seq<nat>>, ghost hits: seq<Score>, ghost ndcgs: seq<Score>)
    requires userIndex.Valid() && IsDiscount(disc)
    ensures ScoredAs(userIndex, positiveRatings, negativeRatings, topK, disc, orders, hits, ndcgs)
    ensures r.Failure? ==>
              && |orders| < |userIndex.keys|
              && ErrorAt(userIndex, positiveRatings, negativeRatings, topK, |orders|) == Some(r.error)
    ensures r.Success? ==> |orders| == |userIndex.keys| && r.value == (Mean(hits), Mean(ndcgs))
  {
    orders, hits, ndcgs := [], [], [];
    var userHitRates: seq<Score> := [];
    var userNdcgValues: seq<Score> := [];
    var i := 0;
    while i < |userIndex.keys|
      invariant 0 <= i <= |userIndex.keys|
      invariant |orders| == i
      invariant userHitRates == hits && userNdcgValues == ndcgs
      invariant ScoredAs(userIndex, positiveRatings, negativeRatings, topK, disc, orders, hits, ndcgs)
    {
      var u := userIndex.keys[i];
      var one;
      ghost var order;
      one, order := EvaluateUser(u, userIndex.m[u], positiveRatings, negativeRatings, topK, disc);
      if one.Failure? {
        return Failure(one.error), orders, hits, ndcgs;
      }
      userHitRates := userHitRates + [one.value.0];
      userNdcgValues := userNdcgValues + [one.value.1];
      orders, hits, ndcgs := orders + [order], hits + [one.value.0], ndcgs + [one.value.1];
      i := i + 1;
    }
    r := Success((Mean(userHitRates), Mean(userNdcgValues)));
  }

  /**
   * With at least one user and `top_k >= 1`, a completed evaluation
   * returns a mean hit rate and a mean NDCG that both lie in [0, 1].
   */
  lemma EvaluationBounds(userIndex: Dict<seq<int>>, positiveRatings: seq<real>, negativeRatings: map<int, seq<real>>,
                         topK: int, disc: nat -> real, orders: seq<seq<nat>>, hits: seq<Score>, ndcgs: seq<Score>)
    requires userIndex.Valid() && IsDiscount(disc)
    requires ScoredAs(userIndex, positiveRatings, negativeRatings, topK, disc, orders, hits, ndcgs)
    requires orders != [] && topK >= 1
    ensures Mean(hits).Num? && 0.0 <= Mean(hits).value <= 1.0
    ensures Mean(ndcgs).Num? && 0.0 <= Mean(ndcgs).value <= 1.0
  {
    forall j | 0 <= j < |orders|
      ensures hits[j].Num? && 0.0 <= hits[j].value <= 1.0
      ensures ndcgs[j].Num? && 0.0 <= ndcgs[j].value <= 1.0
    {
      var p := |IndicesAt(userIndex, j)|;
      HitRateBounds(orders[j], p, topK);
      NdcgBounds(TopRelevance(orders[j], p, topK), disc);
    }
    MeanBounds(hits);
    MeanBounds(ndcgs);
  }
}
