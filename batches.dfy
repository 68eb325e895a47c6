/**
 * The values the batch generators build: parallel user / item / label
 * columns, the chunking of a user list by batch size, and the rows each
 * user contributes.
 */
module Batches {
  import opened OrderedDict

  /** `input_users`, `input_items`, `label_ratings` as flat columns (the `[-1, 1]` reshape is left out). */
  datatype Batch = Batch(users: seq<int>, items: seq<int>, labels: seq<int>) {
    predicate Aligned() {
      |users| == |items| == |labels|
    }
  }

  const NoRows := Batch([], [], [])

  function Join(a: Batch, b: Batch): Batch
  {
    Batch(a.users + b.users, a.items + b.items, a.labels + b.labels)
  }

  function Repeat(x: int, n: nat): (r: seq<int>)
    ensures |r| == n && forall t :: 0 <= t < n ==> r[t] == x
  {
    seq(n, _ => x)
  }

  function Firsts(ratings: seq<(int, int)>): (r: seq<int>)
    ensures |r| == |ratings|
  {
    seq(|ratings|, t requires 0 <= t < |ratings| => ratings[t].0)
  }

  function Seconds(ratings: seq<(int, int)>): (r: seq<int>)
    ensures |r| == |ratings|
  {
    seq(|ratings|, t requires 0 <= t < |ratings| => ratings[t].1)
  }

  /** The rows of one user: its `(item, rating)` pairs in list order, then its negatives labelled 0. */
  function UserRows(u: int, ratings: seq<(int, int)>, negatives: seq<int>): Batch
  {
    Batch(Repeat(u, |ratings| + |negatives|), Firsts(ratings) + negatives,
          Seconds(ratings) + Repeat(0, |negatives|))
  }

  /**
   * The rows of the users `us` in order; a user without ratings adds
   * nothing, a user without an entry in `negatives` adds no negatives.
   */
  function RowsOf(us: seq<int>, byUser: Dict<seq<(int, int)>>, negatives: Dict<seq<int>>): Batch
  {
    if us == [] then NoRows
    else
      var u := us[|us| - 1];
      Join(RowsOf(us[..|us| - 1], byUser, negatives),
           if u in byUser.m then UserRows(u, byUser.m[u], negatives.Get(u, [])) else NoRows)
  }

  /** Users `0 .. n - 1`: `list(range(n))`. */
  function Range(n: nat): (r: seq<int>)
    ensures |r| == n && forall t :: 0 <= t < n ==> r[t] == t
  {
    seq(n, t => t)
  }

  function Min(a: int, b: int): int {
    if a <= b then a else b
  }

  /** `[s[i : i + size] for i in range(0, len(s), size)]`, taken one slice at a time. */
  function Chunks(s: seq<int>, size: nat): seq<seq<int>>
    requires size > 0
    decreases |s|
  {
    if s == [] then []
    else if |s| <= size then [s]
    else [s[..size]] + Chunks(s[size..], size)
  }

  function Flatten(ss: seq<seq<int>>): seq<int>
  {
    if ss == [] then [] else ss[0] + Flatten(ss[1..])
  }

  // ---------------------------------------------------------------------
  // Chunking

  /**
   * There are `ceil(len(s) / size)` chunks: the fewest that hold all of
   * `s`, `size` at a time.
   */
  lemma {:induction false} ChunksCount(s: seq<int>, size: nat)
    requires size > 0
    ensures |s| <= |Chunks(s, size)| * size
    ensures |Chunks(s, size)| > 0 ==> (|Chunks(s, size)| - 1) * size < |s|
    ensures |Chunks(s, size)| == 0 <==> s == []
    decreases |s|
  {
    if |s| > size {
      var rest := s[size..];
      ChunksCount(rest, size);
      var c := |Chunks(rest, size)|;
      assert |Chunks(s, size)| == c + 1;
      assert (c + 1) * size == c * size + size;
    }
  }

  /** Chunk `k` is the slice `s[k * size : (k + 1) * size]`, cut short at the end of `s`. */
  lemma ChunkSlices(s: seq<int>, size: nat)
    requires size > 0
    ensures forall k :: 0 <= k < |Chunks(s, size)| ==>
              k * size < |s| && Chunks(s, size)[k] == s[k * size .. Min((k + 1) * size, |s|)]
  {
    forall k | 0 <= k < |Chunks(s, size)|
      ensures k * size < |s| && Chunks(s, size)[k] == s[k * size .. Min((k + 1) * size, |s|)]
    {
      ChunkSlice(s, size, k);
    }
  }

  lemma {:induction false} ChunkSlice(s: seq<int>, size: nat, k: nat)
    requires size > 0
    requires k < |Chunks(s, size)|
    ensures k * size < |s| && Chunks(s, size)[k] == s[k * size .. Min((k + 1) * size, |s|)]
    decreases |s|
  {
    if k > 0 {
      var rest := s[size..];
      assert Chunks(s, size) == [s[..size]] + Chunks(rest, size);
      ChunkSlice(rest, size, k - 1);
      assert Chunks(s, size)[k] == Chunks(rest, size)[k - 1];
      ChunkSliceShift(s, size, k);
    }
  }

  /** Slice `k - 1` of `s[size..]` is slice `k` of `s`. */
  lemma ChunkSliceShift(s: seq<int>, size: nat, k: nat)
    requires 0 < size < |s| && 0 < k
    requires (k - 1) * size < |s| - size
    ensures k * size < |s|
    ensures s[size..][(k - 1) * size .. Min(k * size, |s| - size)] == s[k * size .. Min((k + 1) * size, |s|)]
  {
    var a := (k - 1) * size;
    assert a + size == k * size;
    var b := Min(k * size, |s| - size);
    assert (k + 1) * size == k * size + size;
    assert b + size == Min((k + 1) * size, |s|);
    assert s[size..][a..b] == s[size + a .. size + b];
  }

  /** Every chunk holds between 1 and `size` users; all but the last hold exactly `size`. */
  lemma {:induction false} ChunkSizes(s: seq<int>, size: nat)
    requires size > 0
    ensures forall k :: 0 <= k < |Chunks(s, size)| ==> 0 < |Chunks(s, size)[k]| <= size
    ensures forall k :: 0 <= k < |Chunks(s, size)| - 1 ==> |Chunks(s, size)[k]| == size
    decreases |s|
  {
    if |s| > size {
      ChunkSizes(s[size..], size);
    }
  }

  /** The chunks, put back together, are the list: nothing lost, repeated or reordered. */
  lemma {:induction false} ChunksFlatten(s: seq<int>, size: nat)
    requires size > 0
    ensures Flatten(Chunks(s, size)) == s
    decreases |s|
  {
    if |s| > size {
      ChunksFlatten(s[size..], size);
      assert Chunks(s, size)[1..] == Chunks(s[size..], size);
      assert s[..size] + s[size..] == s;
    } else if s != [] {
      assert Chunks(s, size)[1..] == [];
      assert s + [] == s;
    }
  }

  // ---------------------------------------------------------------------
  // Rows

  lemma JoinAssociative(a: Batch, b: Batch, c: Batch)
    ensures Join(Join(a, b), c) == Join(a, Join(b, c))
  {
    assert (a.users + b.users) + c.users == a.users + (b.users + c.users);
    assert (a.items + b.items) + c.items == a.items + (b.items + c.items);
    assert (a.labels + b.labels) + c.labels == a.labels + (b.labels + c.labels);
  }

  lemma JoinNoRows(a: Batch)
    ensures Join(a, NoRows) == a && Join(NoRows, a) == a
  {
    assert a.users + [] == a.users && a.items + [] == a.items && a.labels + [] == a.labels;
    assert [] + a.users == a.users && [] + a.items == a.items && [] + a.labels == a.labels;
  }

  /** The rows of two user lists one after the other are the rows of the joined list. */
  lemma {:induction false} RowsOfAppend(a: seq<int>, b: seq<int>, byUser: Dict<seq<(int, int)>>, negatives: Dict<seq<int>>)
    ensures RowsOf(a + b, byUser, negatives) == Join(RowsOf(a, byUser, negatives), RowsOf(b, byUser, negatives))
    decreases |b|
  {
    if b == [] {
      assert a + b == a;
      JoinNoRows(RowsOf(a, byUser, negatives));
    } else {
      var n := |b| - 1;
      var u := b[n];
      assert (a + b)[..|a + b| - 1] == a + b[..n];
      RowsOfAppend(a, b[..n], byUser, negatives);
      var last := if u in byUser.m then UserRows(u, byUser.m[u], negatives.Get(u, [])) else NoRows;
      JoinAssociative(RowsOf(a, byUser, negatives), RowsOf(b[..n], byUser, negatives), last);
    }
  }

  /** The three columns of any batch of rows have the same length. */
  lemma {:induction false} RowsAligned(us: seq<int>, byUser: Dict<seq<(int, int)>>, negatives: Dict<seq<int>>)
    ensures RowsOf(us, byUser, negatives).Aligned()
  {
    if us != [] {
      RowsAligned(us[..|us| - 1], byUser, negatives);
    }
  }

  /** Every row of a batch belongs to one of its users, and that user has ratings. */
  lemma {:induction false} RowsUsers(us: seq<int>, byUser: Dict<seq<(int, int)>>, negatives: Dict<seq<int>>)
    ensures forall t :: 0 <= t < |RowsOf(us, byUser, negatives).users| ==>
              RowsOf(us, byUser, negatives).users[t] in us && RowsOf(us, byUser, negatives).users[t] in byUser.m
  {
    if us != [] {
      var n := |us| - 1;
      RowsUsers(us[..n], byUser, negatives);
      var pre := RowsOf(us[..n], byUser, negatives);
      var r := RowsOf(us, byUser, negatives);
      forall t | 0 <= t < |r.users| ensures r.users[t] in us && r.users[t] in byUser.m {
        if t < |pre.users| {
          assert r.users[t] == pre.users[t];
          assert r.users[t] in us[..n];
        } else {
          assert r.users[t] == us[n];
        }
      }
    }
  }

  /** One batch per chunk, in chunk order. */
  function BatchesOf(chunks: seq<seq<int>>, byUser: Dict<seq<(int, int)>>, negatives: Dict<seq<int>>): (r: seq<Batch>)
    ensures |r| == |chunks|
  {
    seq(|chunks|, k requires 0 <= k < |chunks| => RowsOf(chunks[k], byUser, negatives))
  }

  function JoinAll(bs: seq<Batch>): Batch
  {
    if bs == [] then NoRows else Join(bs[0], JoinAll(bs[1..]))
  }

  /** The batches, joined, are the rows of all chunked users at once. */
  lemma {:induction false} BatchesJoin(chunks: seq<seq<int>>, byUser: Dict<seq<(int, int)>>, negatives: Dict<seq<int>>)
    ensures JoinAll(BatchesOf(chunks, byUser, negatives)) == RowsOf(Flatten(chunks), byUser, negatives)
  {
    if chunks == [] {
    } else {
      BatchesJoin(chunks[1..], byUser, negatives);
      assert BatchesOf(chunks, byUser, negatives)[1..] == BatchesOf(chunks[1..], byUser, negatives);
      RowsOfAppend(chunks[0], Flatten(chunks[1..]), byUser, negatives);
    }
  }

  lemma {:induction false} FlattenSnoc(ss: seq<seq<int>>, x: seq<int>)
    ensures Flatten(ss + [x]) == Flatten(ss) + x
  {
    if ss == [] {
      assert [] + [x] == [x];
      assert Flatten([x]) == x + Flatten([]);
      assert x + [] == x;
    } else {
      assert (ss + [x])[1..] == ss[1..] + [x];
      FlattenSnoc(ss[1..], x);
    }
  }

  lemma {:induction false} RowsOfSameNegatives(us: seq<int>, byUser: Dict<seq<(int, int)>>, n1: Dict<seq<int>>, n2: Dict<seq<int>>)
    requires forall u :: n1.Get(u, []) == n2.Get(u, [])
    ensures RowsOf(us, byUser, n1) == RowsOf(us, byUser, n2)
  {
    if us != [] {
      RowsOfSameNegatives(us[..|us| - 1], byUser, n1, n2);
    }
  }

  // ---------------------------------------------------------------------
  // Looking users up in a `defaultdict(list)` of negatives

  /** `d[u]` on a `defaultdict(list)`: a missing key is inserted with an empty list. */
  function Touch(d: Dict<seq<int>>, u: int): (r: Dict<seq<int>>)
    requires d.Valid()
    ensures r.Valid()
  {
    if u in d.m then d else d.Put(u, [])
  }

  /** The dict after `d[u]` for every user of `us` that has ratings, in order. */
  function TouchAll(d: Dict<seq<int>>, us: seq<int>, byUser: Dict<seq<(int, int)>>): (r: Dict<seq<int>>)
    requires d.Valid()
    ensures r.Valid()
  {
    if us == [] then d
    else
      var u := us[|us| - 1];
      var pre := TouchAll(d, us[..|us| - 1], byUser);
      if u in byUser.m then Touch(pre, u) else pre
  }

  /**
   * The lookups change no entry that exists and add an empty list for each
   * looked-up user that had none, after the existing keys.
   */
  lemma {:induction false} TouchAllFacts(d: Dict<seq<int>>, us: seq<int>, byUser: Dict<seq<(int, int)>>)
    requires d.Valid()
    ensures forall u :: u in d.m ==> u in TouchAll(d, us, byUser).m && TouchAll(d, us, byUser).m[u] == d.m[u]
    ensures forall u :: u in TouchAll(d, us, byUser).m && u !in d.m ==>
              TouchAll(d, us, byUser).m[u] == [] && u in us && u in byUser.m
    ensures forall u :: u in us && u in byUser.m ==> u in TouchAll(d, us, byUser).m
    ensures |d.keys| <= |TouchAll(d, us, byUser).keys| && TouchAll(d, us, byUser).keys[..|d.keys|] == d.keys
    ensures forall u :: TouchAll(d, us, byUser).Get(u, []) == d.Get(u, [])
  {
    if us != [] {
      var n := |us| - 1;
      TouchAllFacts(d, us[..n], byUser);
      var pre := TouchAll(d, us[..n], byUser);
      assert us == us[..n] + [us[n]];
      forall u | u in us ensures u in us[..n] || u == us[n] {
        var t :| 0 <= t < |us| && us[t] == u;
        if t < n {
          assert us[..n][t] == u;
        }
      }
      if us[n] in byUser.m && us[n] !in pre.m {
        assert (pre.keys + [us[n]])[..|d.keys|] == pre.keys[..|d.keys|];
      }
    }
  }

  lemma {:induction false} TouchAllAppend(d: Dict<seq<int>>, a: seq<int>, b: seq<int>, byUser: Dict<seq<(int, int)>>)
    requires d.Valid()
    ensures TouchAll(TouchAll(d, a, byUser), b, byUser) == TouchAll(d, a + b, byUser)
    decreases |b|
  {
    if b == [] {
      assert a + b == a;
    } else {
      var n := |b| - 1;
      assert (a + b)[..|a + b| - 1] == a + b[..n];
      TouchAllAppend(d, a, b[..n], byUser);
    }
  }

  // ---------------------------------------------------------------------
  // The positive test rows and `user_index_dict`

  /** Every user of `us` is a key of `m`. */
  predicate AllIn<V>(us: seq<int>, m: map<int, V>)
  {
    forall i :: 0 <= i < |us| ==> us[i] in m
  }

  lemma KeysAllIn<V>(d: Dict<V>)
    requires d.Valid()
    ensures AllIn(d.keys, d.m)
  {
    forall i | 0 <= i < |d.keys| ensures d.keys[i] in d.m {
      assert d.keys[i] in d.keys;
    }
  }

  /** The number of rows the users `us` contribute: their ratings, counted. */
  function Offset(us: seq<int>, byUser: Dict<seq<(int, int)>>): nat
    requires AllIn(us, byUser.m)
  {
    if us == [] then 0
    else
      Offset(us[..|us| - 1], byUser) + |byUser.m[us[|us| - 1]]|
  }

  /** The positions `lo .. hi - 1`. */
  function Iota(lo: nat, hi: nat): (r: seq<int>)
    requires lo <= hi
    ensures |r| == hi - lo && forall t :: 0 <= t < hi - lo ==> r[t] == lo + t
  {
    seq(hi - lo, t => lo + t)
  }

  /** The row positions of the `i`-th user: right after those of the users before it. */
  function Block(us: seq<int>, byUser: Dict<seq<(int, int)>>, i: nat): seq<int>
    requires AllIn(us, byUser.m)
    requires i < |us|
  {
    var lo := Offset(us[..i], byUser);
    Iota(lo, lo + |byUser.m[us[i]]|)
  }

  lemma OffsetStep(us: seq<int>, byUser: Dict<seq<(int, int)>>, i: nat)
    requires AllIn(us, byUser.m)
    requires i < |us|
    ensures us[i] in byUser.m
    ensures Offset(us[..i + 1], byUser) == Offset(us[..i], byUser) + |byUser.m[us[i]]|
  {
    assert us[..i + 1][..i] == us[..i];
  }

  /** The rows of the users `us` with no negatives count `Offset(us)`. */
  lemma {:induction false} PositiveRowsCount(us: seq<int>, byUser: Dict<seq<(int, int)>>)
    requires AllIn(us, byUser.m)
    ensures RowsOf(us, byUser, Empty()).Aligned() && |RowsOf(us, byUser, Empty()).users| == Offset(us, byUser)
  {
    RowsAligned(us, byUser, Empty());
    if us != [] {
      PositiveRowsCount(us[..|us| - 1], byUser);
    }
  }

  /**
   * The blocks of the users, in order, put together are exactly the
   * positions `0 .. Offset(us) - 1`: each position belongs to one user.
   */
  lemma {:induction false} BlocksPartition(us: seq<int>, byUser: Dict<seq<(int, int)>>)
    requires AllIn(us, byUser.m)
    ensures Flatten(seq(|us|, i requires 0 <= i < |us| => Block(us, byUser, i))) == Iota(0, Offset(us, byUser))
  {
    var blocks := seq(|us|, i requires 0 <= i < |us| => Block(us, byUser, i));
    if us != [] {
      var n := |us| - 1;
      var pre := us[..n];
      BlocksPartition(pre, byUser);
      var preBlocks := seq(n, i requires 0 <= i < n => Block(pre, byUser, i));
      forall i | 0 <= i < n ensures blocks[i] == preBlocks[i] {
        assert pre[..i] == us[..i];
      }
      assert blocks == preBlocks + [blocks[n]];
      FlattenSnoc(preBlocks, blocks[n]);
      assert us[..n] == pre;
      OffsetStep(us, byUser, n);
      assert us[..n + 1] == us;
    }
  }

  /** Position `t` of the `i`-th user's block holds that user and its `t`-th rated item. */
  lemma {:induction false} BlockRows(us: seq<int>, byUser: Dict<seq<(int, int)>>, i: nat, t: nat)
    requires AllIn(us, byUser.m)
    requires i < |us| && t < |byUser.m[us[i]]|
    ensures RowsOf(us, byUser, Empty()).Aligned()
    ensures Offset(us[..i], byUser) + t < |RowsOf(us, byUser, Empty()).users|
    ensures RowsOf(us, byUser, Empty()).users[Offset(us[..i], byUser) + t] == us[i]
    ensures RowsOf(us, byUser, Empty()).items[Offset(us[..i], byUser) + t] == byUser.m[us[i]][t].0
    ensures RowsOf(us, byUser, Empty()).labels[Offset(us[..i], byUser) + t] == byUser.m[us[i]][t].1
    decreases |us|
  {
    var n := |us| - 1;
    var pre := us[..n];
    PositiveRowsCount(pre, byUser);
    OffsetStep(us, byUser, n);
    assert us[..n + 1] == us;
    if i < n {
      assert pre[..i] == us[..i];
      assert pre[i] == us[i];
      BlockRows(pre, byUser, i, t);
      OffsetPrefix(pre, byUser, i);
    } else {
      assert pre == us[..i];
    }
  }

  lemma {:induction false} OffsetPrefix(us: seq<int>, byUser: Dict<seq<(int, int)>>, i: nat)
    requires AllIn(us, byUser.m)
    requires i < |us|
    ensures us[i] in byUser.m
    ensures Offset(us[..i], byUser) + |byUser.m[us[i]]| <= Offset(us, byUser)
    decreases |us|
  {
    var n := |us| - 1;
    OffsetStep(us, byUser, n);
    assert us[..n + 1] == us;
    if i < n {
      assert us[..n][..i] == us[..i];
      assert us[..n][i] == us[i];
      OffsetPrefix(us[..n], byUser, i);
    }
  }

  // ---------------------------------------------------------------------
  // The negative test batches

  /** The negatives of the users `us`, each user repeated once per negative. */
  function NegativeRows(us: seq<int>, negatives: Dict<seq<int>>): (r: (seq<int>, seq<int>))
    ensures |r.0| == |r.1|
  {
    if us == [] then ([], [])
    else
      var rest := NegativeRows(us[1..], negatives);
      if us[0] in negatives.m then
        (Repeat(us[0], |negatives.m[us[0]]|) + rest.0, negatives.m[us[0]] + rest.1)
      else rest
  }

  /** `(input_users, input_items, user_batch)` of one negative test batch. */
  datatype NegativeBatch = NegativeBatch(users: seq<int>, items: seq<int>, userBatch: seq<int>)

  function NegativeBatchesOf(chunks: seq<seq<int>>, negatives: Dict<seq<int>>): (r: seq<NegativeBatch>)
    ensures |r| == |chunks|
  {
    seq(|chunks|, k requires 0 <= k < |chunks| =>
      NegativeBatch(NegativeRows(chunks[k], negatives).0, NegativeRows(chunks[k], negatives).1, chunks[k]))
  }

  lemma ChunksCons(block: seq<int>, rest: seq<int>, size: nat)
    requires size > 0 && |block| == size
    ensures Chunks(block + rest, size) == [block] + Chunks(rest, size)
  {
    if rest == [] {
      assert block + rest == block;
    } else {
      assert (block + rest)[..size] == block;
      assert (block + rest)[size..] == rest;
    }
  }

  /**
   * When every user of `us` has `count` negatives, reshaping the items to
   * `[-1, count]` gives one row per user, in user order, holding that
   * user's negatives; the users beside them are each user repeated.
   */
  lemma {:induction false} NegativeRowsBlocks(us: seq<int>, negatives: Dict<seq<int>>, count: nat)
    requires count > 0
    requires AllIn(us, negatives.m)
    requires forall i :: 0 <= i < |us| ==> |negatives.m[us[i]]| == count
    ensures Chunks(NegativeRows(us, negatives).1, count) == seq(|us|, p requires 0 <= p < |us| => negatives.m[us[p]])
    ensures Chunks(NegativeRows(us, negatives).0, count) == seq(|us|, p requires 0 <= p < |us| => Repeat(us[p], count))
  {
    if us != [] {
      NegativeRowsBlocks(us[1..], negatives, count);
      var rest := NegativeRows(us[1..], negatives);
      ChunksCons(negatives.m[us[0]], rest.1, count);
      ChunksCons(Repeat(us[0], count), rest.0, count);
    }
  }

  lemma {:induction false} NegativeRowsSnoc(us: seq<int>, u: int, negatives: Dict<seq<int>>)
    requires u in negatives.m
    ensures NegativeRows(us + [u], negatives)
            == (NegativeRows(us, negatives).0 + Repeat(u, |negatives.m[u]|), NegativeRows(us, negatives).1 + negatives.m[u])
  {
    if us == [] {
      assert [] + [u] == [u] && [u][1..] == [] && [u][0] == u;
      var block := negatives.m[u];
      assert NegativeRows([u], negatives) == (Repeat(u, |block|) + [], block + []);
      assert Repeat(u, |block|) + [] == [] + Repeat(u, |block|);
      assert block + [] == [] + block;
    } else {
      assert (us + [u])[1..] == us[1..] + [u];
      assert (us + [u])[0] == us[0];
      NegativeRowsSnoc(us[1..], u, negatives);
      var rest := NegativeRows(us[1..], negatives);
      if us[0] in negatives.m {
        var h := negatives.m[us[0]];
        assert (Repeat(us[0], |h|) + rest.0) + Repeat(u, |negatives.m[u]|)
               == Repeat(us[0], |h|) + (rest.0 + Repeat(u, |negatives.m[u]|));
        assert (h + rest.1) + negatives.m[u] == h + (rest.1 + negatives.m[u]);
      }
    }
  }

  /** An element of one chunk is an element of the flattened whole. */
  lemma {:induction false} FlattenHolds(ss: seq<seq<int>>, k: nat, x: int)
    requires k < |ss| && x in ss[k]
    ensures x in Flatten(ss)
  {
    if k > 0 {
      FlattenHolds(ss[1..], k - 1, x);
    }
  }
}
