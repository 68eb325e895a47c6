/**
 * The sparse-adjacency builders shared by the link loader and the rating
 * loader: a `defaultdict(list)` whose lists are grown with
 * `bisect.insort_left`, then flattened row by row into parallel lists of
 * `[row, col]` index pairs and float weights.
 */
module SparseAdjacency {
  import opened OrderedDict
  import opened Bisect

  /** One `insort_left(rows[key], value)` on a `defaultdict(list)`. */
  datatype Insertion = Insertion(key: int, value: int)

  /** The keys the dict holds after the insertions, in the order they were first used. */
  function FirstAccessOrder(ev: seq<Insertion>): seq<int>
  {
    if ev == [] then []
    else
      var ks := FirstAccessOrder(ev[..|ev| - 1]);
      var k := ev[|ev| - 1].key;
      if k in ks then ks else ks + [k]
  }

  /** The values inserted under key `k`, counted with repetition. */
  function Inserted(ev: seq<Insertion>, k: int): multiset<int>
  {
    if ev == [] then multiset{}
    else
      Inserted(ev[..|ev| - 1], k)
      + (if ev[|ev| - 1].key == k then multiset{ev[|ev| - 1].value} else multiset{})
  }

  /** The sum of the list lengths over the keys `ks`. */
  function TotalLength(ks: seq<int>, m: map<int, seq<int>>): nat
    requires forall k :: k in ks ==> k in m
  {
    if ks == [] then 0
    else
      var k := ks[|ks| - 1];
      assert k in ks;
      TotalLength(ks[..|ks| - 1], m) + |m[k]|
  }

  /**
   * `d` is what the insertions `ev` build from an empty `defaultdict(list)`:
   * keys in first-use order, each list sorted ascending, non-empty, holding
   * exactly the values inserted under its key (repeats kept), and one list
   * entry per insertion in all.
   */
  ghost predicate SortedGroups(d: Dict<seq<int>>, ev: seq<Insertion>) {
    && d.Valid()
    && d.keys == FirstAccessOrder(ev)
    && (forall k :: k in d.m ==> Sorted(d.m[k]) && d.m[k] != [] && multiset(d.m[k]) == Inserted(ev, k))
    && TotalLength(d.keys, d.m) == |ev|
  }

  lemma EmptyGroups()
    ensures SortedGroups(Empty(), [])
  {
  }

  /** A key is in the dict exactly when something was inserted under it. */
  lemma {:induction false} FirstAccessOrderHasInsertedKeys(ev: seq<Insertion>, k: int)
    ensures k in FirstAccessOrder(ev) <==> Inserted(ev, k) != multiset{}
  {
    if ev != [] {
      FirstAccessOrderHasInsertedKeys(ev[..|ev| - 1], k);
    }
  }

  lemma {:induction false} TotalLengthFresh(ks: seq<int>, m: map<int, seq<int>>, k: int, v: seq<int>)
    requires forall j :: j in ks ==> j in m
    requires k !in ks
    ensures TotalLength(ks, m[k := v]) == TotalLength(ks, m)
  {
    if ks != [] {
      TotalLengthFresh(ks[..|ks| - 1], m, k, v);
    }
  }

  lemma {:induction false} TotalLengthUpdate(ks: seq<int>, m: map<int, seq<int>>, k: int, v: seq<int>)
    requires forall j :: j in ks ==> j in m
    requires forall i, j :: 0 <= i < j < |ks| ==> ks[i] != ks[j]
    requires k in ks
    ensures TotalLength(ks, m[k := v]) == TotalLength(ks, m) - |m[k]| + |v|
  {
    var n := |ks| - 1;
    if ks[n] == k {
      assert k !in ks[..n];
      TotalLengthFresh(ks[..n], m, k, v);
    } else {
      TotalLengthUpdate(ks[..n], m, k, v);
    }
  }

  /** `insort_left(d[k], x)` on a `defaultdict(list)`: the grouping gains one insertion. */
  method InsortInto(d: Dict<seq<int>>, k: int, x: int, ghost ev: seq<Insertion>) returns (d': Dict<seq<int>>)
    requires SortedGroups(d, ev)
    ensures SortedGroups(d', ev + [Insertion(k, x)])
    ensures d'.m == d.m[k := d'.m[k]]
  {
    var row := InsortLeft(d.Get(k, []), x);
    d' := d.Put(k, row);
    GroupsStep(d, ev, k, x, row);
  }

  lemma GroupsStep(d: Dict<seq<int>>, ev: seq<Insertion>, k: int, x: int, row: seq<int>)
    requires SortedGroups(d, ev)
    requires Sorted(row) && multiset(row) == multiset(d.Get(k, [])) + multiset{x}
    ensures SortedGroups(d.Put(k, row), ev + [Insertion(k, x)])
  {
    var ev' := ev + [Insertion(k, x)];
    assert ev'[..|ev'| - 1] == ev;
    GroupsStepRows(d, ev, k, x, row);
    GroupsStepLength(d, ev, k, x, row);
  }

  /** After the insertion every list is still sorted, non-empty and holds what was inserted under its key. */
  lemma GroupsStepRows(d: Dict<seq<int>>, ev: seq<Insertion>, k: int, x: int, row: seq<int>)
    requires SortedGroups(d, ev)
    requires Sorted(row) && multiset(row) == multiset(d.Get(k, [])) + multiset{x}
    ensures forall j :: j in d.m[k := row] ==>
              && Sorted(d.m[k := row][j])
              && d.m[k := row][j] != []
              && multiset(d.m[k := row][j]) == Inserted(ev + [Insertion(k, x)], j)
  {
    var ev' := ev + [Insertion(k, x)];
    var m' := d.m[k := row];
    assert ev'[..|ev'| - 1] == ev;
    assert row != [] by {
      assert x in multiset(row);
    }
    forall j | j in m'
      ensures Sorted(m'[j]) && m'[j] != [] && multiset(m'[j]) == Inserted(ev', j)
    {
      if j != k {
        assert m'[j] == d.m[j];
      } else if k !in d.m {
        FirstAccessOrderHasInsertedKeys(ev, k);
      }
    }
  }

  /** After the insertion the lists hold one more entry in all. */
  lemma GroupsStepLength(d: Dict<seq<int>>, ev: seq<Insertion>, k: int, x: int, row: seq<int>)
    requires SortedGroups(d, ev)
    requires multiset(row) == multiset(d.Get(k, [])) + multiset{x}
    ensures TotalLength(d.Put(k, row).keys, d.Put(k, row).m) == |ev| + 1
  {
    if k in d.keys {
      TotalLengthUpdate(d.keys, d.m, k, row);
      assert |row| == |d.m[k]| + 1 by {
        assert |multiset(row)| == |multiset(d.m[k])| + 1;
      }
    } else {
      TotalLengthFresh(d.keys, d.m, k, row);
      assert (d.keys + [k])[..|d.keys|] == d.keys;
      assert |row| == 1 by {
        assert |multiset(row)| == 1;
      }
    }
  }

  /** How the weight of a flattened entry is derived from its row's length. */
  datatype Weighting =
    | PerDegree  // `1.0 / len(row)`
    | Unit       // the constant `1.0`

  function Weight(w: Weighting, degree: nat): real
    requires w.PerDegree? ==> degree > 0
  {
    match w
    case PerDegree => 1.0 / degree as real
    case Unit => 1.0
  }

  /** The `[key, col]` pairs of one row, in list order. */
  function RowIndices(k: int, row: seq<int>): (r: seq<(int, int)>)
    ensures |r| == |row|
  {
    seq(|row|, t requires 0 <= t < |row| => (k, row[t]))
  }

  /** The first `count` weights of a row of length `degree`. */
  function RowValues(w: Weighting, degree: nat, count: nat): (r: seq<real>)
    requires count <= degree
    ensures |r| == count
  {
    seq(count, t requires 0 <= t < count => Weight(w, degree))
  }

  /** The rows of the keys `ks`, flattened in key order. */
  function FlatIndices(ks: seq<int>, m: map<int, seq<int>>): (r: seq<(int, int)>)
    requires forall k :: k in ks ==> k in m
    ensures |r| == TotalLength(ks, m)
  {
    if ks == [] then []
    else
      var k := ks[|ks| - 1];
      assert k in ks;
      FlatIndices(ks[..|ks| - 1], m) + RowIndices(k, m[k])
  }

  function FlatValues(ks: seq<int>, m: map<int, seq<int>>, w: Weighting): (r: seq<real>)
    requires forall k :: k in ks ==> k in m
    ensures |r| == TotalLength(ks, m)
  {
    if ks == [] then []
    else
      var k := ks[|ks| - 1];
      assert k in ks;
      var row := m[k];
      FlatValues(ks[..|ks| - 1], m, w) + RowValues(w, |row|, |row|)
  }

  /** The `{"indices": ..., "values": ...}` pair handed to the model. */
  datatype Adjacency = Adjacency(indices: seq<(int, int)>, values: seq<real>)

  ghost predicate FlattenedFrom(adj: Adjacency, d: Dict<seq<int>>, w: Weighting)
    requires d.Valid()
  {
    adj.indices == FlatIndices(d.keys, d.m) && adj.values == FlatValues(d.keys, d.m, w)
  }

  /**
   * The flattening loop: for each key in dict order and each entry of its
   * list, append `[key, entry]` to `indices` and the row's weight to `values`.
   */
  method Flatten(d: Dict<seq<int>>, w: Weighting) returns (adj: Adjacency)
    requires d.Valid()
    ensures FlattenedFrom(adj, d, w)
    ensures |adj.indices| == |adj.values| == TotalLength(d.keys, d.m)
  {
    var indices: seq<(int, int)> := [];
    var values: seq<real> := [];
    var i := 0;
    while i < |d.keys|
      invariant 0 <= i <= |d.keys|
      invariant indices == FlatIndices(d.keys[..i], d.m)
      invariant values == FlatValues(d.keys[..i], d.m, w)
    {
      var k := d.keys[i];
      var row := d.m[k];
      var j := 0;
      while j < |row|
        invariant 0 <= j <= |row|
        invariant indices == FlatIndices(d.keys[..i], d.m) + RowIndices(k, row[..j])
        invariant values == FlatValues(d.keys[..i], d.m, w) + RowValues(w, |row|, j)
      {
        assert RowIndices(k, row[..j + 1]) == RowIndices(k, row[..j]) + [(k, row[j])];
        assert RowValues(w, |row|, j + 1) == RowValues(w, |row|, j) + [Weight(w, |row|)];
        indices := indices + [(k, row[j])];
        values := values + [Weight(w, |row|)];
        j := j + 1;
      }
      assert row[..j] == row;
      assert d.keys[..i + 1][..i] == d.keys[..i];
      i := i + 1;
    }
    assert d.keys[..i] == d.keys;
    adj := Adjacency(indices, values);
  }

  /** The sum of the weights of the entries whose row is `k`. */
  function RowSum(indices: seq<(int, int)>, values: seq<real>, k: int): real
    requires |indices| == |values|
  {
    if indices == [] then 0.0
    else
      var n := |indices| - 1;
      RowSum(indices[..n], values[..n], k) + (if indices[n].0 == k then values[n] else 0.0)
  }

  /** The columns of the entries whose row is `k`, in entry order. */
  function RowEntries(indices: seq<(int, int)>, k: int): seq<int>
  {
    if indices == [] then []
    else
      var n := |indices| - 1;
      RowEntries(indices[..n], k) + (if indices[n].0 == k then [indices[n].1] else [])
  }

  lemma {:induction false} RowSumAppend(a: seq<(int, int)>, va: seq<real>, b: seq<(int, int)>, vb: seq<real>, k: int)
    requires |a| == |va| && |b| == |vb|
    ensures RowSum(a + b, va + vb, k) == RowSum(a, va, k) + RowSum(b, vb, k)
  {
    if b == [] {
      assert a + b == a && va + vb == va;
    } else {
      var n := |b| - 1;
      assert (a + b)[..|a| + n] == a + b[..n];
      assert (va + vb)[..|va| + n] == va + vb[..n];
      assert (a + b)[|a| + n] == b[n] && (va + vb)[|va| + n] == vb[n];
      RowSumAppend(a, va, b[..n], vb[..n], k);
      var last := if b[n].0 == k then vb[n] else 0.0;
      calc {
        RowSum(a + b, va + vb, k);
        RowSum((a + b)[..|a| + n], (va + vb)[..|va| + n], k) + last;
        RowSum(a + b[..n], va + vb[..n], k) + last;
        RowSum(a, va, k) + RowSum(b[..n], vb[..n], k) + last;
        RowSum(a, va, k) + RowSum(b, vb, k);
      }
    }
  }

  lemma {:induction false} RowEntriesAppend(a: seq<(int, int)>, b: seq<(int, int)>, k: int)
    ensures RowEntries(a + b, k) == RowEntries(a, k) + RowEntries(b, k)
  {
    if b == [] {
      assert a + b == a;
    } else {
      var n := |b| - 1;
      assert (a + b)[..|a| + n] == a + b[..n];
      assert (a + b)[|a| + n] == b[n];
      RowEntriesAppend(a, b[..n], k);
      var last := if b[n].0 == k then [b[n].1] else [];
      calc {
        RowEntries(a + b, k);
        RowEntries((a + b)[..|a| + n], k) + last;
        RowEntries(a + b[..n], k) + last;
        RowEntries(a, k) + RowEntries(b[..n], k) + last;
        RowEntries(a, k) + RowEntries(b, k);
      }
    }
  }

  /** One row's block adds `count` times its weight to its own key's sum and nothing to others. */
  lemma {:induction false} RowSumOfRow(r: int, row: seq<int>, w: Weighting, count: nat, k: int)
    requires count <= |row|
    ensures RowSum(RowIndices(r, row[..count]), RowValues(w, |row|, count), k)
            == if r == k && count > 0 then count as real * Weight(w, |row|) else 0.0
  {
    if count > 0 {
      var n := count - 1;
      assert RowIndices(r, row[..count])[..n] == RowIndices(r, row[..n]);
      assert RowValues(w, |row|, count)[..n] == RowValues(w, |row|, n);
      RowSumOfRow(r, row, w, n, k);
    }
  }

  lemma {:induction false} RowEntriesOfRow(r: int, row: seq<int>, k: int)
    ensures RowEntries(RowIndices(r, row), k) == if r == k then row else []
  {
    if row != [] {
      var n := |row| - 1;
      assert RowIndices(r, row)[..n] == RowIndices(r, row[..n]);
      RowEntriesOfRow(r, row[..n], k);
      assert row[..n] + [row[n]] == row;
    }
  }

  /**
   * Flattened with per-degree weights, every row that holds entries sums
   * to exactly 1, and a key with no row sums to 0.
   */
  lemma {:induction false} PerDegreeRowSum(ks: seq<int>, m: map<int, seq<int>>, k: int)
    requires forall j :: j in ks ==> j in m && m[j] != []
    requires forall i, j :: 0 <= i < j < |ks| ==> ks[i] != ks[j]
    ensures RowSum(FlatIndices(ks, m), FlatValues(ks, m, PerDegree), k) == if k in ks then 1.0 else 0.0
  {
    if ks != [] {
      var n := |ks| - 1;
      var r := ks[n];
      var row := m[r];
      PerDegreeRowSum(ks[..n], m, k);
      RowSumAppend(FlatIndices(ks[..n], m), FlatValues(ks[..n], m, PerDegree),
                   RowIndices(r, row), RowValues(PerDegree, |row|, |row|), k);
      assert row[..|row|] == row;
      RowSumOfRow(r, row, PerDegree, |row|, k);
      assert |row| as real * (1.0 / |row| as real) == 1.0;
      assert k in ks <==> k in ks[..n] || k == r by {
        assert ks == ks[..n] + [r];
      }
      assert r == k ==> k !in ks[..n];
    }
  }

  /** Flattened with unit weights, every entry weighs exactly 1. */
  lemma {:induction false} UnitWeights(ks: seq<int>, m: map<int, seq<int>>)
    requires forall j :: j in ks ==> j in m
    ensures forall t :: 0 <= t < |FlatValues(ks, m, Unit)| ==> FlatValues(ks, m, Unit)[t] == 1.0
  {
    if ks != [] {
      var n := |ks| - 1;
      var r := ks[n];
      assert r in ks;
      var row := m[r];
      UnitWeights(ks[..n], m);
      var left := FlatValues(ks[..n], m, Unit);
      var right := RowValues(Unit, |row|, |row|);
      assert FlatValues(ks, m, Unit) == left + right;
      forall t | 0 <= t < |left + right| ensures (left + right)[t] == 1.0 {
        if t >= |left| {
          assert (left + right)[t] == right[t - |left|] == Weight(Unit, |row|);
        } else {
          assert (left + right)[t] == left[t];
        }
      }
    }
  }

  /**
   * The entries of row `k` are exactly the list of `k`, in list order and
   * with repeats kept; rows are never merged or deduplicated.
   */
  lemma {:induction false} FlatRowEntries(ks: seq<int>, m: map<int, seq<int>>, k: int)
    requires forall j :: j in ks ==> j in m
    requires forall i, j :: 0 <= i < j < |ks| ==> ks[i] != ks[j]
    ensures RowEntries(FlatIndices(ks, m), k) == if k in ks then m[k] else []
  {
    if ks != [] {
      var n := |ks| - 1;
      var r := ks[n];
      var prefix := ks[..n];
      LastKeyIsNew(ks);
      FlatRowEntries(prefix, m, k);
      RowEntriesAppend(FlatIndices(prefix, m), RowIndices(r, m[r]), k);
      RowEntriesOfRow(r, m[r], k);
      assert k in ks <==> k in prefix || k == r;
      if r == k {
        assert [] + m[r] == m[r];
      }
    }
  }

  ghost predicate DistinctKeys(ks: seq<int>) {
    forall i, j :: 0 <= i < j < |ks| ==> ks[i] != ks[j]
  }

  /** The last of a list of distinct keys is not among the others, which are distinct too. */
  lemma LastKeyIsNew(ks: seq<int>)
    requires ks != []
    requires forall i, j :: 0 <= i < j < |ks| ==> ks[i] != ks[j]
    ensures ks == ks[..|ks| - 1] + [ks[|ks| - 1]]
    ensures ks[|ks| - 1] !in ks[..|ks| - 1]
    ensures DistinctKeys(ks[..|ks| - 1])
  {
    var n := |ks| - 1;
    forall i | 0 <= i < n ensures ks[..n][i] != ks[n] {
      assert ks[..n][i] == ks[i];
    }
  }

  /** Grouped rows flattened with per-degree weights: each row sums to 1, entries match the rows. */
  lemma GroupedAdjacency(adj: Adjacency, d: Dict<seq<int>>, ev: seq<Insertion>, k: int)
    requires SortedGroups(d, ev) && FlattenedFrom(adj, d, PerDegree)
    ensures |adj.indices| == |adj.values| == |ev|
    ensures RowSum(adj.indices, adj.values, k) == if Inserted(ev, k) != multiset{} then 1.0 else 0.0
    ensures Sorted(RowEntries(adj.indices, k)) && multiset(RowEntries(adj.indices, k)) == Inserted(ev, k)
  {
    PerDegreeRowSum(d.keys, d.m, k);
    FlatRowEntries(d.keys, d.m, k);
    FirstAccessOrderHasInsertedKeys(ev, k);
  }

  // ---------------------------------------------------------------------
  // Row order and per-entry weights, read back from the flat lists

  /** The `[key, col]` pairs of the rows of `ks`, each row read back from `indices`, in key order. */
  function LaidOutIndices(indices: seq<(int, int)>, ks: seq<int>): (r: seq<(int, int)>)
  {
    if ks == [] then []
    else
      var k := ks[|ks| - 1];
      LaidOutIndices(indices, ks[..|ks| - 1]) + RowIndices(k, RowEntries(indices, k))
  }

  /** The weights of the rows of `ks`, each row's length read back from `indices`, in key order. */
  function LaidOutValues(indices: seq<(int, int)>, ks: seq<int>, w: Weighting): (r: seq<real>)
  {
    if ks == [] then []
    else
      var row := RowEntries(indices, ks[|ks| - 1]);
      LaidOutValues(indices, ks[..|ks| - 1], w) + RowValues(w, |row|, |row|)
  }

  /**
   * `adj` lays out the rows of the keys `ks` one after the other, in that
   * order, each row's entries weighted as `w` says from the row's length:
   * the flattening of the rows `adj` itself holds.
   */
  ghost predicate RowsInOrder(adj: Adjacency, ks: seq<int>, w: Weighting) {
    && adj.indices == LaidOutIndices(adj.indices, ks)
    && adj.values == LaidOutValues(adj.indices, ks, w)
  }

  /** Flattening rows that are the rows read back from `indices` is laying those rows out. */
  lemma {:induction false} FlatIsLaidOut(ks: seq<int>, m: map<int, seq<int>>, indices: seq<(int, int)>, w: Weighting)
    requires forall k :: k in ks ==> k in m && m[k] == RowEntries(indices, k)
    ensures FlatIndices(ks, m) == LaidOutIndices(indices, ks)
    ensures FlatValues(ks, m, w) == LaidOutValues(indices, ks, w)
  {
    if ks != [] {
      var n := |ks| - 1;
      assert ks[n] in ks;
      FlatIsLaidOut(ks[..n], m, indices, w);
    }
  }

  /** A flattened dict lays out its rows in the dict's key order. */
  lemma FlattenedInOrder(adj: Adjacency, d: Dict<seq<int>>, w: Weighting)
    requires d.Valid() && FlattenedFrom(adj, d, w)
    ensures RowsInOrder(adj, d.keys, w)
  {
    forall k | k in d.keys
      ensures k in d.m && d.m[k] == RowEntries(adj.indices, k)
    {
      FlatRowEntries(d.keys, d.m, k);
    }
    FlatIsLaidOut(d.keys, d.m, adj.indices, w);
  }

  /** A layout of one key is that key's row. */
  lemma OneRowLayout(adj: Adjacency, k: int, row: seq<int>, w: Weighting)
    requires RowsInOrder(adj, [k], w) && RowEntries(adj.indices, k) == row
    ensures adj.indices == RowIndices(k, row) && adj.values == RowValues(w, |row|, |row|)
  {
    assert [k][..0] == [];
    assert LaidOutIndices(adj.indices, [k]) == [] + RowIndices(k, row);
    assert LaidOutValues(adj.indices, [k], w) == [] + RowValues(w, |row|, |row|);
  }

  /** A layout of two keys is the first key's row, then the second's. */
  lemma TwoRowLayout(adj: Adjacency, k1: int, k2: int, row1: seq<int>, row2: seq<int>, w: Weighting)
    requires RowsInOrder(adj, [k1, k2], w)
    requires RowEntries(adj.indices, k1) == row1 && RowEntries(adj.indices, k2) == row2
    ensures adj.indices == RowIndices(k1, row1) + RowIndices(k2, row2)
    ensures adj.values == RowValues(w, |row1|, |row1|) + RowValues(w, |row2|, |row2|)
  {
    assert [k1, k2][..1] == [k1] && [k1][..0] == [];
    assert LaidOutIndices(adj.indices, [k1]) == [] + RowIndices(k1, row1);
    assert LaidOutValues(adj.indices, [k1], w) == [] + RowValues(w, |row1|, |row1|);
  }

  /** Entry `t` of a flattening belongs to a non-empty row of `ks` and carries that row's weight. */
  lemma {:induction false} FlatEntryWeight(ks: seq<int>, m: map<int, seq<int>>, w: Weighting, t: nat)
    requires forall k :: k in ks ==> k in m
    requires t < TotalLength(ks, m)
    ensures FlatIndices(ks, m)[t].0 in ks
    ensures |m[FlatIndices(ks, m)[t].0]| > 0
    ensures FlatValues(ks, m, w)[t] == Weight(w, |m[FlatIndices(ks, m)[t].0]|)
  {
    assert ks != [];
    var n := |ks| - 1;
    var k := ks[n];
    assert k in ks;
    var left := FlatIndices(ks[..n], m);
    var leftValues := FlatValues(ks[..n], m, w);
    assert FlatIndices(ks, m) == left + RowIndices(k, m[k]);
    assert FlatValues(ks, m, w) == leftValues + RowValues(w, |m[k]|, |m[k]|);
    if t < |left| {
      FlatEntryWeight(ks[..n], m, w, t);
      assert FlatIndices(ks, m)[t] == left[t];
      assert FlatValues(ks, m, w)[t] == leftValues[t];
      assert left[t].0 in ks[..n];
    } else {
      var j := t - |left|;
      assert FlatIndices(ks, m)[t] == RowIndices(k, m[k])[j] == (k, m[k][j]);
      assert FlatValues(ks, m, w)[t] == RowValues(w, |m[k]|, |m[k]|)[j];
    }
  }

  /**
   * Rows laid out per degree: every entry weighs `1 / len(row)` for its own
   * row, `1.0 / len(neighbors)` in the loaders.
   */
  lemma PerDegreeEntryWeights(adj: Adjacency, ks: seq<int>)
    requires RowsInOrder(adj, ks, PerDegree)
    ensures |adj.values| == |adj.indices|
    ensures forall t :: 0 <= t < |adj.indices| ==>
              && |RowEntries(adj.indices, adj.indices[t].0)| > 0
              && adj.values[t] == 1.0 / |RowEntries(adj.indices, adj.indices[t].0)| as real
  {
    var rows := map k | k in ks :: RowEntries(adj.indices, k);
    FlatIsLaidOut(ks, rows, adj.indices, PerDegree);
    forall t | 0 <= t < |adj.indices|
      ensures && |RowEntries(adj.indices, adj.indices[t].0)| > 0
              && adj.values[t] == 1.0 / |RowEntries(adj.indices, adj.indices[t].0)| as real
    {
      FlatEntryWeight(ks, rows, PerDegree, t);
    }
  }
}
