/**
 * The first `DataModule`: the same link and rating loaders, with both
 * sides of the rating adjacency weighted per row, and a paging
 * `get_training_batch` in place of the generators.
 */
module DataModuleV1 {
  import opened OrderedDict
  import opened Outcome
  import opened Bisect
  import opened SparseAdjacency
  import Links
  import opened Ratings

  /** What the loader returns for one split: no item lists and no negatives. */
  datatype RatingsDataV1 = RatingsDataV1(
    ratingsByUser: Dict<seq<(int, int)>>,
    userConsumedItems: Adjacency,
    itemConsumedUsers: Adjacency)

  /**
   * `__load_key_type_links__`: the same sorted neighbour lists and
   * `1 / len(neighbors)` weights, returned as the pair `(indices, values)`.
   */
  method LoadKeyTypeLinks(lines: seq<Links.LinkLine>) returns (indices: seq<(int, int)>, values: seq<real>)
    ensures Links.LinksLoaded(Adjacency(indices, values), lines)
  {
    var adj;
    ghost var links;
    adj, links := Links.LoadKeyTypeLinks(lines);
    indices, values := adj.indices, adj.values;
  }

  /**
   * A split as the loader builds it once the sort is called with its key:
   * each user's pairs sorted by item, and both adjacencies with one entry
   * per line, sorted rows in the order of their keys' first lines, and
   * every entry weighted `1 / len(row)`, so that every row that has
   * entries sums to 1.
   */
  ghost predicate LoadedV1(data: RatingsDataV1, lines: seq<RatingLine>) {
    && data.ratingsByUser.Valid()
    && data.ratingsByUser.keys == RatedUsers(lines)
    && (forall u :: u in data.ratingsByUser.m ==> data.ratingsByUser.m[u] == SortByItem(RatingsOf(lines, u)))
    && |data.userConsumedItems.indices| == |data.userConsumedItems.values| == |lines|
    && |data.itemConsumedUsers.indices| == |data.itemConsumedUsers.values| == |lines|
    && RowsInOrder(data.userConsumedItems, RatedUsers(lines), PerDegree)
    && RowsInOrder(data.itemConsumedUsers, RatedItems(lines), PerDegree)
    && (forall k ::
          && Sorted(RowEntries(data.userConsumedItems.indices, k))
          && multiset(RowEntries(data.userConsumedItems.indices, k)) == multiset(ItemsOf(lines, k))
          && RowSum(data.userConsumedItems.indices, data.userConsumedItems.values, k)
             == if ItemsOf(lines, k) != [] then 1.0 else 0.0)
    && (forall k ::
          && Sorted(RowEntries(data.itemConsumedUsers.indices, k))
          && multiset(RowEntries(data.itemConsumedUsers.indices, k)) == multiset(UsersOf(lines, k))
          && RowSum(data.itemConsumedUsers.indices, data.itemConsumedUsers.values, k)
             == if UsersOf(lines, k) != [] then 1.0 else 0.0)
  }

  /** The two adjacencies built from the grouped rows, both weighted per row. */
  lemma BothSidesPerDegree(lines: seq<RatingLine>, userRows: Dict<seq<int>>, itemRows: Dict<seq<int>>,
                           users: Adjacency, items: Adjacency, k: int)
    requires SortedGroups(userRows, UserInsertions(lines)) && FlattenedFrom(users, userRows, PerDegree)
    requires SortedGroups(itemRows, ItemInsertions(lines)) && FlattenedFrom(items, itemRows, PerDegree)
    ensures |users.indices| == |users.values| == |lines| && |items.indices| == |items.values| == |lines|
    ensures Sorted(RowEntries(users.indices, k)) && multiset(RowEntries(users.indices, k)) == multiset(ItemsOf(lines, k))
    ensures RowSum(users.indices, users.values, k) == if ItemsOf(lines, k) != [] then 1.0 else 0.0
    ensures Sorted(RowEntries(items.indices, k)) && multiset(RowEntries(items.indices, k)) == multiset(UsersOf(lines, k))
    ensures RowSum(items.indices, items.values, k) == if UsersOf(lines, k) != [] then 1.0 else 0.0
  {
    InsertionsCount(lines);
    GroupedAdjacency(users, userRows, UserInsertions(lines), k);
    UserRowHoldsItems(lines, k);
    GroupedAdjacency(items, itemRows, ItemInsertions(lines), k);
    ItemRowHoldsUsers(lines, k);
  }

  /** The grouping loop and the two flattenings, which both loaders share. */
  method GroupAndFlatten(lines: seq<RatingLine>)
    returns (byUser: Dict<seq<(int, int)>>, users: Adjacency, items: Adjacency)
    ensures byUser.Valid() && byUser.keys == RatedUsers(lines)
    ensures forall u :: u in byUser.m ==> byUser.m[u] == RatingsOf(lines, u)
    ensures |users.indices| == |users.values| == |lines| && |items.indices| == |items.values| == |lines|
    ensures RowsInOrder(users, RatedUsers(lines), PerDegree) && RowsInOrder(items, RatedItems(lines), PerDegree)
    ensures forall k ::
              && Sorted(RowEntries(users.indices, k))
              && multiset(RowEntries(users.indices, k)) == multiset(ItemsOf(lines, k))
              && RowSum(users.indices, users.values, k) == if ItemsOf(lines, k) != [] then 1.0 else 0.0
    ensures forall k ::
              && Sorted(RowEntries(items.indices, k))
              && multiset(RowEntries(items.indices, k)) == multiset(UsersOf(lines, k))
              && RowSum(items.indices, items.values, k) == if UsersOf(lines, k) != [] then 1.0 else 0.0
  {
    var userItems, userRows, itemRows;
    byUser, userItems, userRows, itemRows := GroupRatings(lines);
    users := Flatten(userRows, PerDegree);
    items := Flatten(itemRows, PerDegree);
    forall k
      ensures Sorted(RowEntries(users.indices, k))
      ensures multiset(RowEntries(users.indices, k)) == multiset(ItemsOf(lines, k))
      ensures RowSum(users.indices, users.values, k) == if ItemsOf(lines, k) != [] then 1.0 else 0.0
      ensures Sorted(RowEntries(items.indices, k))
      ensures multiset(RowEntries(items.indices, k)) == multiset(UsersOf(lines, k))
      ensures RowSum(items.indices, items.values, k) == if UsersOf(lines, k) != [] then 1.0 else 0.0
    {
      BothSidesPerDegree(lines, userRows, itemRows, users, items, k);
    }
    BothSidesPerDegree(lines, userRows, itemRows, users, items, 0);
    FlattenedInOrder(users, userRows, PerDegree);
    FlattenedInOrder(items, itemRows, PerDegree);
  }

  /** The last line's user is among the rated users. */
  lemma LastUserRated(lines: seq<RatingLine>)
    requires lines != []
    ensures RatedUsers(lines) != []
  {
    var n := |lines| - 1;
    assert lines == lines[..n] + [lines[n]];
    RatedUsersStep(lines[..n], lines[n]);
  }

  /**
   * `__load_ratings__` as written: `value.sort(lambda v: v[0])` passes the
   * key positionally, which `list.sort` rejects, so the first user's list
   * raises and only a file without ratings loads.
   */
  method LoadRatingsAsWritten(lines: seq<RatingLine>) returns (r: Result<RatingsDataV1>)
    ensures r.Failure? <==> lines != []
    ensures r.Failure? ==> r.error == TypeError
    ensures r.Success? ==> r.value.ratingsByUser.keys == [] && LoadedV1(r.value, lines)
  {
    var byUser, users, items := GroupAndFlatten(lines);
    if |byUser.keys| > 0 {
      // the first `value.sort(lambda v: v[0])`: `sort()` takes no positional arguments
      return Failure(TypeError);
    }
    if lines != [] {
      LastUserRated(lines);
    }
    return Success(RatingsDataV1(byUser, users, items));
  }

  /** `__load_ratings__` with the sort given its key: `value.sort(key=lambda v: v[0])`. */
  method LoadRatingsCorrected(lines: seq<RatingLine>) returns (data: RatingsDataV1)
    ensures LoadedV1(data, lines)
  {
    var byUser, users, items := GroupAndFlatten(lines);
    var sorted := SortRatings(byUser);
    data := RatingsDataV1(sorted, users, items);
  }

  /** Under the first module every entry of both adjacencies weighs `1.0 / len(row)` of its own row. */
  lemma EntryWeightsV1(data: RatingsDataV1, lines: seq<RatingLine>)
    requires LoadedV1(data, lines)
    ensures forall t :: 0 <= t < |data.userConsumedItems.indices| ==>
              var row := RowEntries(data.userConsumedItems.indices, data.userConsumedItems.indices[t].0);
              |row| > 0 && data.userConsumedItems.values[t] == 1.0 / |row| as real
    ensures forall t :: 0 <= t < |data.itemConsumedUsers.indices| ==>
              var row := RowEntries(data.itemConsumedUsers.indices, data.itemConsumedUsers.indices[t].0);
              |row| > 0 && data.itemConsumedUsers.values[t] == 1.0 / |row| as real
  {
    PerDegreeEntryWeights(data.userConsumedItems, RatedUsers(lines));
    PerDegreeEntryWeights(data.itemConsumedUsers, RatedItems(lines));
  }

  /** Every item's weights sum to 1 under the first module, not just every user's. */
  lemma ItemRowsSumToOne(data: RatingsDataV1, lines: seq<RatingLine>, it: int)
    requires LoadedV1(data, lines)
    requires exists t :: 0 <= t < |lines| && lines[t].item == it
    ensures RowSum(data.itemConsumedUsers.indices, data.itemConsumedUsers.values, it) == 1.0
  {
    var t :| 0 <= t < |lines| && lines[t].item == it;
    RatedItemHasUsers(lines, it, t);
  }

  lemma {:induction false} RatedItemHasUsers(lines: seq<RatingLine>, it: int, t: nat)
    requires t < |lines| && lines[t].item == it
    ensures UsersOf(lines, it) != []
  {
    var n := |lines| - 1;
    if t < n {
      assert lines[..n][t] == lines[t];
      RatedItemHasUsers(lines[..n], it, t);
    }
  }

  // ---------------------------------------------------------------------
  // Paging through the users

  /** One `get_training_batch` result, before the numpy reshape. */
  datatype TrainingBatch = TrainingBatch(
    users: seq<int>,
    items: seq<(int, int)>,   // `ratings_by_user[user][0]`: the first (item, rating) pair
    labels: seq<(int, int)>,  // `ratings_by_user[user][1]`: the second (item, rating) pair
    nextBatchIndex: int)

  /** `list(range(bi * size, (bi + 1) * size))`. */
  function Window(bi: int, size: int): (r: seq<int>)
    ensures |r| == Max0(size) && forall t :: 0 <= t < |r| ==> r[t] == bi * size + t
  {
    seq(Max0(size), t => bi * size + t)
  }

  /** The users of `us` that have ratings, in order. */
  function Present(us: seq<int>, byUser: Dict<seq<(int, int)>>): (r: seq<int>)
    ensures forall p :: 0 <= p < |r| ==> r[p] in us && r[p] in byUser.m
  {
    if us == [] then []
    else
      var pre := Present(us[..|us| - 1], byUser);
      if us[|us| - 1] in byUser.m then pre + [us[|us| - 1]] else pre
  }

  /** `bi + 1` while the window's last user is below the last user, `-1` after. */
  function NextBatchIndex(bi: int, size: int, numUsers: nat): int
    requires size > 0
  {
    if (bi + 1) * size - 1 < numUsers - 1 then bi + 1 else -1
  }

  /** A rated user with fewer than two pairs: reading its second pair fails. */
  predicate ShortList(u: int, byUser: Dict<seq<(int, int)>>) {
    u in byUser.m && |byUser.m[u]| < 2
  }

  predicate HasShortList(us: seq<int>, byUser: Dict<seq<(int, int)>>) {
    exists t :: 0 <= t < |us| && ShortList(us[t], byUser)
  }

  lemma ShortListStep(us: seq<int>, i: nat, byUser: Dict<seq<(int, int)>>)
    requires i < |us| && !HasShortList(us[..i], byUser) && !ShortList(us[i], byUser)
    ensures !HasShortList(us[..i + 1], byUser)
  {
    var v := us[..i + 1];
    forall t | 0 <= t < |v| ensures !ShortList(v[t], byUser) {
      if t < i {
        assert v[t] == us[..i][t];
      }
    }
  }

  lemma MulMonotone(a: int, b: int, size: nat)
    requires a <= b
    ensures a * size <= b * size
  {
  }

  /**
   * Following `nextBatchIndex` from page 0 reaches the page of every user
   * below `numUsers`: every earlier page points to the page after it.
   */
  lemma PagesReachUser(size: int, numUsers: nat, u: nat, bi: int)
    requires size > 0 && u < numUsers
    requires bi * size <= u < (bi + 1) * size
    ensures 0 <= bi
    ensures forall b :: 0 <= b < bi ==> NextBatchIndex(b, size, numUsers) == b + 1
  {
    if bi < 0 {
      MulMonotone(bi + 1, 0, size);
    }
    forall b | 0 <= b < bi ensures NextBatchIndex(b, size, numUsers) == b + 1 {
      MulMonotone(b + 1, bi, size);
    }
  }

  /**
   * The page holding the last user is the last page: it answers `-1`, and
   * every page before it points to the page after it.
   */
  lemma LastPageHoldsLastUser(size: int, numUsers: nat, bi: int)
    requires size > 0 && numUsers > 0
    requires bi * size <= numUsers - 1 < (bi + 1) * size
    ensures 0 <= bi && NextBatchIndex(bi, size, numUsers) == -1
    ensures forall b :: 0 <= b < bi ==> NextBatchIndex(b, size, numUsers) == b + 1
  {
    PagesReachUser(size, numUsers, numUsers - 1, bi);
  }

  /** The loop of `get_training_batch`: one row per rated user of `batchUsers`. */
  method WindowRows(batchUsers: seq<int>, byUser: Dict<seq<(int, int)>>)
    returns (r: Result<(seq<int>, seq<(int, int)>, seq<(int, int)>)>)
    ensures r.Failure? <==> HasShortList(batchUsers, byUser)
    ensures r.Failure? ==> r.error == IndexError
    ensures r.Success? ==>
              var (users, items, labels) := r.value;
              && users == Present(batchUsers, byUser)
              && |items| == |labels| == |users|
              && (forall p :: 0 <= p < |users| ==>
                    && |byUser.m[users[p]]| >= 2
                    && items[p] == byUser.m[users[p]][0] && labels[p] == byUser.m[users[p]][1])
  {
    var users: seq<int> := [];
    var items: seq<(int, int)> := [];
    var labels: seq<(int, int)> := [];
    var i := 0;
    while i < |batchUsers|
      invariant 0 <= i <= |batchUsers|
      invariant users == Present(batchUsers[..i], byUser)
      invariant !HasShortList(batchUsers[..i], byUser)
      invariant |items| == |labels| == |users|
      invariant forall p :: 0 <= p < |users| ==>
                  && |byUser.m[users[p]]| >= 2
                  && items[p] == byUser.m[users[p]][0] && labels[p] == byUser.m[users[p]][1]
    {
      var user := batchUsers[i];
      assert batchUsers[..i + 1][..i] == batchUsers[..i];
      if user !in byUser.m {
        ShortListStep(batchUsers, i, byUser);
        i := i + 1;
        continue;
      }
      var ratings := byUser.m[user];
      if |ratings| < 2 {
        assert ShortList(batchUsers[i], byUser);
        return Failure(IndexError);
      }
      ShortListStep(batchUsers, i, byUser);
      users := users + [user];
      items := items + [ratings[0]];
      labels := labels + [ratings[1]];
      i := i + 1;
    }
    assert batchUsers[..i] == batchUsers;
    return Success((users, items, labels));
  }

  class DataModule {
    const batchSize: int

    /** `len(self.user_map)`. */
    var numUsers: nat
    var userLinks: (seq<(int, int)>, seq<real>)
    var itemLinks: (seq<(int, int)>, seq<real>)
    var trainData: RatingsDataV1
    var validationData: RatingsDataV1
    var testData: RatingsDataV1

    constructor(batchSize: int)
      ensures this.batchSize == batchSize && trainData.ratingsByUser == Empty()
    {
      this.batchSize := batchSize;
      numUsers := 0;
      userLinks, itemLinks := ([], []), ([], []);
      var none := RatingsDataV1(Empty(), Adjacency([], []), Adjacency([], []));
      trainData, validationData, testData := none, none, none;
    }

    /** `load()`: both link files, then the three splits with the corrected sort. */
    method Load(numUsers: nat, userLinkLines: seq<Links.LinkLine>, itemLinkLines: seq<Links.LinkLine>,
                trainLines: seq<RatingLine>, validationLines: seq<RatingLine>, testLines: seq<RatingLine>)
      modifies this
      ensures this.numUsers == numUsers
      ensures Links.LinksLoaded(Adjacency(userLinks.0, userLinks.1), userLinkLines)
      ensures Links.LinksLoaded(Adjacency(itemLinks.0, itemLinks.1), itemLinkLines)
      ensures LoadedV1(trainData, trainLines)
      ensures LoadedV1(validationData, validationLines)
      ensures LoadedV1(testData, testLines)
    {
      this.numUsers := numUsers;
      LoadLinks(userLinkLines, itemLinkLines);
      LoadSplits(trainLines, validationLines, testLines);
    }

    /** The user links, then the item links; nothing else changes. */
    method LoadLinks(userLinkLines: seq<Links.LinkLine>, itemLinkLines: seq<Links.LinkLine>)
      modifies this`userLinks, this`itemLinks
      ensures Links.LinksLoaded(Adjacency(userLinks.0, userLinks.1), userLinkLines)
      ensures Links.LinksLoaded(Adjacency(itemLinks.0, itemLinks.1), itemLinkLines)
      ensures unchanged(this`numUsers, this`trainData, this`validationData, this`testData)
    {
      var indices, values := LoadKeyTypeLinks(userLinkLines);
      var itemIndices, itemValues := LoadKeyTypeLinks(itemLinkLines);
      userLinks, itemLinks := (indices, values), (itemIndices, itemValues);
    }

    /** The train, validation and test splits; nothing else changes. */
    method LoadSplits(trainLines: seq<RatingLine>, validationLines: seq<RatingLine>, testLines: seq<RatingLine>)
      modifies this`trainData, this`validationData, this`testData
      ensures LoadedV1(trainData, trainLines)
      ensures LoadedV1(validationData, validationLines)
      ensures LoadedV1(testData, testLines)
      ensures unchanged(this`numUsers, this`userLinks, this`itemLinks)
    {
      trainData := LoadRatingsCorrected(trainLines);
      validationData := LoadRatingsCorrected(validationLines);
      testData := LoadRatingsCorrected(testLines);
    }

    /**
     * `get_training_batch(bi)`: one row per rated user of the window
     * `bi * batchSize .. (bi + 1) * batchSize - 1`, its first and second
     * pairs as item and label, and the index of the next page. A rated user
     * with fewer than two pairs, or an empty window, raises `IndexError`.
     */
    method GetTrainingBatch(batchIndex: int) returns (r: Result<TrainingBatch>)
      ensures r.Failure? <==> batchSize <= 0 || HasShortList(Window(batchIndex, batchSize), trainData.ratingsByUser)
      ensures r.Failure? ==> r.error == IndexError
      ensures r.Success? ==>
                var byUser := trainData.ratingsByUser;
                && r.value.users == Present(Window(batchIndex, batchSize), byUser)
                && |r.value.items| == |r.value.labels| == |r.value.users|
                && (forall p :: 0 <= p < |r.value.users| ==>
                      && |byUser.m[r.value.users[p]]| >= 2
                      && r.value.items[p] == byUser.m[r.value.users[p]][0]
                      && r.value.labels[p] == byUser.m[r.value.users[p]][1])
                && r.value.nextBatchIndex == NextBatchIndex(batchIndex, batchSize, numUsers)
    {
      var batchUsers := Window(batchIndex, batchSize);
      var rows := WindowRows(batchUsers, trainData.ratingsByUser);
      if rows.Failure? {
        return Failure(rows.error);
      }
      var (users, items, labels) := rows.value;
      if |batchUsers| == 0 {
        // `batch_users[-1]` on an empty window
        return Failure(IndexError);
      }
      var lastUser := batchUsers[|batchUsers| - 1];
      var next := if lastUser < numUsers - 1 then batchIndex + 1 else -1;
      return Success(TrainingBatch(users, items, labels, next));
    }
  }
}
