/**
 * `__load_ratings__` of the second data module: the `{split}.ratings`
 * records grouped per user, the user->items and item->users sparse
 * adjacencies, each user's ratings sorted by item, and the sampled
 * negative items.
 */
module Ratings {
  import opened OrderedDict
  import opened Bisect
  import opened SparseAdjacency

  /** One parsed line `user,item,rating` of a `.ratings` file. */
  datatype RatingLine = RatingLine(user: int, item: int, rating: int)

  datatype DatasetType = Train | Validation | Test

  /** What the loader returns for one split. */
  datatype RatingsData = RatingsData(
    ratingsByUser: Dict<seq<(int, int)>>,  // user -> [(item, rating)], sorted by item
    userConsumedItems: Adjacency,
    itemConsumedUsers: Adjacency,
    userItems: Dict<seq<int>>,             // user -> [item], file order
    userNegativeItems: Dict<seq<int>>)     // user -> sampled negative items

  // ---------------------------------------------------------------------
  // What the lines say, per user and per item

  /** `insort_left(user_consumed_items[user], item)` for every line, in order. */
  function UserInsertions(lines: seq<RatingLine>): seq<Insertion>
  {
    if lines == [] then []
    else
      var l := lines[|lines| - 1];
      UserInsertions(lines[..|lines| - 1]) + [Insertion(l.user, l.item)]
  }

  /** `insort_left(item_consumed_users[item], user)` for every line, in order. */
  function ItemInsertions(lines: seq<RatingLine>): seq<Insertion>
  {
    if lines == [] then []
    else
      var l := lines[|lines| - 1];
      ItemInsertions(lines[..|lines| - 1]) + [Insertion(l.item, l.user)]
  }

  /** The users that have at least one line, in the order of their first line. */
  function RatedUsers(lines: seq<RatingLine>): seq<int>
  {
    FirstAccessOrder(UserInsertions(lines))
  }

  /** The items that have at least one line, in the order of their first line. */
  function RatedItems(lines: seq<RatingLine>): seq<int>
  {
    FirstAccessOrder(ItemInsertions(lines))
  }

  /** The items user `u` rated, in file order. */
  function ItemsOf(lines: seq<RatingLine>, u: int): seq<int>
  {
    if lines == [] then []
    else
      var l := lines[|lines| - 1];
      ItemsOf(lines[..|lines| - 1], u) + (if l.user == u then [l.item] else [])
  }

  /** The users who rated item `it`, in file order. */
  function UsersOf(lines: seq<RatingLine>, it: int): seq<int>
  {
    if lines == [] then []
    else
      var l := lines[|lines| - 1];
      UsersOf(lines[..|lines| - 1], it) + (if l.item == it then [l.user] else [])
  }

  /** The `(item, rating)` pairs of user `u`, in file order. */
  function RatingsOf(lines: seq<RatingLine>, u: int): seq<(int, int)>
  {
    if lines == [] then []
    else
      var l := lines[|lines| - 1];
      RatingsOf(lines[..|lines| - 1], u) + (if l.user == u then [(l.item, l.rating)] else [])
  }

  /** The user->items row of `u` holds exactly the items `u` rated, repeats kept. */
  lemma {:induction false} UserRowHoldsItems(lines: seq<RatingLine>, u: int)
    ensures Inserted(UserInsertions(lines), u) == multiset(ItemsOf(lines, u))
  {
    if lines != [] {
      UserRowHoldsItems(lines[..|lines| - 1], u);
      var l := lines[|lines| - 1];
      var pre := UserInsertions(lines[..|lines| - 1]);
      assert (pre + [Insertion(l.user, l.item)])[..|pre|] == pre;
    }
  }

  /** The item->users row of `it` holds exactly the users who rated `it`, repeats kept. */
  lemma {:induction false} ItemRowHoldsUsers(lines: seq<RatingLine>, it: int)
    ensures Inserted(ItemInsertions(lines), it) == multiset(UsersOf(lines, it))
  {
    if lines != [] {
      ItemRowHoldsUsers(lines[..|lines| - 1], it);
      var l := lines[|lines| - 1];
      var pre := ItemInsertions(lines[..|lines| - 1]);
      assert (pre + [Insertion(l.item, l.user)])[..|pre|] == pre;
    }
  }

  /** The item list and the rating list of a user pair up entry by entry. */
  lemma {:induction false} ItemsMatchRatings(lines: seq<RatingLine>, u: int)
    ensures |ItemsOf(lines, u)| == |RatingsOf(lines, u)|
    ensures forall t :: 0 <= t < |ItemsOf(lines, u)| ==> ItemsOf(lines, u)[t] == RatingsOf(lines, u)[t].0
  {
    if lines != [] {
      ItemsMatchRatings(lines[..|lines| - 1], u);
    }
  }

  /** A user is listed exactly when it has at least one rating line. */
  lemma RatedUserHasRatings(lines: seq<RatingLine>, u: int)
    ensures u in RatedUsers(lines) <==> RatingsOf(lines, u) != []
  {
    FirstAccessOrderHasInsertedKeys(UserInsertions(lines), u);
    UserRowHoldsItems(lines, u);
    ItemsMatchRatings(lines, u);
  }

  // ---------------------------------------------------------------------
  // `value.sort(key=lambda v: v[0])`: Python's sort is stable

  predicate SortedByItem(s: seq<(int, int)>) {
    forall i, j :: 0 <= i < j < |s| ==> s[i].0 <= s[j].0
  }

  /** Places `x` before the first entry whose item is not smaller. */
  function InsertByItem(x: (int, int), s: seq<(int, int)>): seq<(int, int)>
  {
    if s == [] || x.0 <= s[0].0 then [x] + s
    else [s[0]] + InsertByItem(x, s[1..])
  }

  /** The stable sort by item, as insertion of each entry in front of its equals. */
  function SortByItem(s: seq<(int, int)>): seq<(int, int)>
  {
    if s == [] then [] else InsertByItem(s[0], SortByItem(s[1..]))
  }

  /** The entries with item `it`, in order. */
  function WithItem(s: seq<(int, int)>, it: int): seq<(int, int)>
  {
    if s == [] then []
    else (if s[0].0 == it then [s[0]] else []) + WithItem(s[1..], it)
  }

  lemma {:induction false} InsertByItemPermutes(x: (int, int), s: seq<(int, int)>)
    ensures multiset(InsertByItem(x, s)) == multiset{x} + multiset(s)
    ensures |InsertByItem(x, s)| == |s| + 1
  {
    if s != [] && x.0 > s[0].0 {
      InsertByItemPermutes(x, s[1..]);
      assert s == [s[0]] + s[1..];
    }
  }

  /** Putting `a` in front of a sorted list that holds nothing smaller keeps it sorted. */
  lemma ConsSortedByItem(a: (int, int), r: seq<(int, int)>)
    requires SortedByItem(r)
    requires forall t :: 0 <= t < |r| ==> a.0 <= r[t].0
    ensures SortedByItem([a] + r)
  {
    forall i, j | 0 <= i < j < |[a] + r| ensures ([a] + r)[i].0 <= ([a] + r)[j].0 {
      if i > 0 {
        assert ([a] + r)[i] == r[i - 1] && ([a] + r)[j] == r[j - 1];
      } else {
        assert ([a] + r)[j] == r[j - 1];
      }
    }
  }

  lemma {:induction false} InsertByItemSorted(x: (int, int), s: seq<(int, int)>)
    requires SortedByItem(s)
    ensures SortedByItem(InsertByItem(x, s))
  {
    if s == [] || x.0 <= s[0].0 {
      ConsSortedByItem(x, s);
    } else {
      var tail := s[1..];
      var r := InsertByItem(x, tail);
      InsertByItemSorted(x, tail);
      InsertByItemPermutes(x, tail);
      forall t | 0 <= t < |r| ensures s[0].0 <= r[t].0 {
        assert r[t] in multiset(r);
        if r[t] != x {
          assert r[t] in multiset(tail);
          var q :| 0 <= q < |tail| && tail[q] == r[t];
          assert s[0].0 <= s[q + 1].0;
        }
      }
      ConsSortedByItem(s[0], r);
    }
  }

  /** The sorted list is sorted by item and holds the same entries. */
  lemma {:induction false} SortByItemSortsAndPermutes(s: seq<(int, int)>)
    ensures SortedByItem(SortByItem(s))
    ensures multiset(SortByItem(s)) == multiset(s)
    ensures |SortByItem(s)| == |s|
  {
    if s != [] {
      SortByItemSortsAndPermutes(s[1..]);
      InsertByItemSorted(s[0], SortByItem(s[1..]));
      InsertByItemPermutes(s[0], SortByItem(s[1..]));
      assert s == [s[0]] + s[1..];
    }
  }

  lemma {:induction false} WithItemAppend(a: seq<(int, int)>, b: seq<(int, int)>, it: int)
    ensures WithItem(a + b, it) == WithItem(a, it) + WithItem(b, it)
  {
    if a == [] {
      assert a + b == b;
    } else {
      var h := if a[0].0 == it then [a[0]] else [];
      assert (a + b)[0] == a[0];
      assert (a + b)[1..] == a[1..] + b;
      assert WithItem(a + b, it) == h + WithItem(a[1..] + b, it);
      WithItemAppend(a[1..], b, it);
      assert h + (WithItem(a[1..], it) + WithItem(b, it)) == (h + WithItem(a[1..], it)) + WithItem(b, it);
    }
  }

  lemma {:induction false} InsertByItemStable(x: (int, int), s: seq<(int, int)>, it: int)
    ensures WithItem(InsertByItem(x, s), it) == WithItem([x], it) + WithItem(s, it)
  {
    if s == [] || x.0 <= s[0].0 {
      WithItemAppend([x], s, it);
    } else {
      InsertByItemStable(x, s[1..], it);
      WithItemAppend([s[0]], InsertByItem(x, s[1..]), it);
      WithItemAppend([s[0]], s[1..], it);
      assert [s[0]] + s[1..] == s;
      assert WithItem([s[0]], it) == (if s[0].0 == it then [s[0]] else []);
      assert WithItem([x], it) == (if x.0 == it then [x] else []);
    }
  }

  /** Stability: ratings of one item keep their file order after sorting. */
  lemma {:induction false} SortByItemStable(s: seq<(int, int)>, it: int)
    ensures WithItem(SortByItem(s), it) == WithItem(s, it)
  {
    if s != [] {
      SortByItemStable(s[1..], it);
      InsertByItemStable(s[0], SortByItem(s[1..]), it);
      WithItemAppend([s[0]], s[1..], it);
      assert [s[0]] + s[1..] == s;
    }
  }

  // ---------------------------------------------------------------------
  // Negative sampling with `np.random.randint(num_items)` as an oracle

  /** Every draw of the oracle `draw` lies in `[0, numItems)`. */
  ghost predicate DrawsInRange(draw: nat -> int, numItems: nat) {
    forall c: nat :: 0 <= draw(c) < numItems
  }

  /**
   * One negative taken at oracle position `c`: the draw, or, when it is one
   * of the user's items, the next draw, which is kept whatever it is.
   * Returns the negative and the next oracle position.
   */
  function Sample(items: seq<int>, draw: nat -> int, c: nat): (int, nat)
  {
    if draw(c) in items then (draw(c + 1), c + 2) else (draw(c), c + 1)
  }

  /** The oracle position after `n` negatives taken from position `c`. */
  function Cursor(items: seq<int>, n: nat, draw: nat -> int, c: nat): nat
  {
    if n == 0 then c else Sample(items, draw, Cursor(items, n - 1, draw, c)).1
  }

  /** The `n` negatives taken from oracle position `c`. */
  function Samples(items: seq<int>, n: nat, draw: nat -> int, c: nat): seq<int>
  {
    if n == 0 then []
    else Samples(items, n - 1, draw, c) + [Sample(items, draw, Cursor(items, n - 1, draw, c)).0]
  }

  /** `n` negatives, each an item index in `[0, numItems)`. */
  lemma {:induction false} SamplesShape(items: seq<int>, n: nat, draw: nat -> int, c: nat, numItems: nat)
    requires DrawsInRange(draw, numItems)
    ensures |Samples(items, n, draw, c)| == n
    ensures forall t :: 0 <= t < n ==> 0 <= Samples(items, n, draw, c)[t] < numItems
  {
    if n > 0 {
      SamplesShape(items, n - 1, draw, c, numItems);
      var p := Cursor(items, n - 1, draw, c);
      assert 0 <= draw(p) < numItems && 0 <= draw(p + 1) < numItems;
    }
  }

  lemma {:induction false} SamplesLength(items: seq<int>, n: nat, draw: nat -> int, c: nat)
    ensures |Samples(items, n, draw, c)| == n
  {
    if n > 0 {
      SamplesLength(items, n - 1, draw, c);
    }
  }

  /**
   * The `t`-th negative is the one taken at position `Cursor(.., t, ..)`,
   * whatever number of negatives follows it.
   */
  lemma {:induction false} SamplesPrefix(items: seq<int>, n: nat, draw: nat -> int, c: nat, t: nat)
    requires t < n
    ensures |Samples(items, n, draw, c)| == n
    ensures Samples(items, n, draw, c)[t] == Sample(items, draw, Cursor(items, t, draw, c)).0
  {
    SamplesLength(items, n - 1, draw, c);
    if t < n - 1 {
      SamplesPrefix(items, n - 1, draw, c, t);
    }
  }

  /**
   * A negative can only be one of the user's items when both of its draws
   * were: the retry happens once and its result is not checked.
   */
  lemma SampleIsPositiveOnlyAfterTwoHits(items: seq<int>, n: nat, draw: nat -> int, c: nat, t: nat)
    requires t < n
    ensures |Samples(items, n, draw, c)| == n
    ensures var p := Cursor(items, t, draw, c);
            Samples(items, n, draw, c)[t] in items ==> draw(p) in items && draw(p + 1) in items
  {
    SamplesPrefix(items, n, draw, c, t);
  }

  /** The retry does not exclude positives: items `[0]` and an oracle that always draws 0. */
  lemma NegativeCanBePositive()
    ensures Samples([0], 1, (c: nat) => 0, 0) == [0]
  {
  }

  // ---------------------------------------------------------------------
  // The loader

  /** `ratings_by_user` and `user_items_dict` as built from `lines`. */
  ghost predicate GroupedByUser(lines: seq<RatingLine>, byUser: Dict<seq<(int, int)>>, userItems: Dict<seq<int>>) {
    && byUser.Valid() && userItems.Valid()
    && byUser.keys == userItems.keys == RatedUsers(lines)
    && (forall u :: u in userItems.m ==> userItems.m[u] == ItemsOf(lines, u))
    && (forall u :: u in byUser.m ==> byUser.m[u] == RatingsOf(lines, u))
  }

  lemma RatedUsersStep(pre: seq<RatingLine>, l: RatingLine)
    ensures RatedUsers(pre + [l]) == if l.user in RatedUsers(pre) then RatedUsers(pre) else RatedUsers(pre) + [l.user]
  {
    assert (pre + [l])[..|pre|] == pre;
    var ev := UserInsertions(pre + [l]);
    assert ev[..|ev| - 1] == UserInsertions(pre);
  }

  /** Appending one line's pair to both per-user lists keeps them in step with the lines. */
  lemma GroupedByUserStep(pre: seq<RatingLine>, l: RatingLine, byUser: Dict<seq<(int, int)>>, userItems: Dict<seq<int>>)
    requires GroupedByUser(pre, byUser, userItems)
    ensures GroupedByUser(pre + [l],
                          byUser.Put(l.user, byUser.Get(l.user, []) + [(l.item, l.rating)]),
                          userItems.Put(l.user, userItems.Get(l.user, []) + [l.item]))
  {
    var lines := pre + [l];
    assert lines[..|pre|] == pre;
    RatedUsersStep(pre, l);
    if l.user !in userItems.m {
      RatedUserHasRatings(pre, l.user);
      ItemsMatchRatings(pre, l.user);
    }
  }

  /**
   * The first loop: per line, append to `user_items_dict[user]` and
   * `ratings_by_user[user]`, and sorted-insert into `user_consumed_items`
   * and `item_consumed_users`.
   */
  method GroupRatings(lines: seq<RatingLine>)
    returns (byUser: Dict<seq<(int, int)>>, userItems: Dict<seq<int>>,
             userRows: Dict<seq<int>>, itemRows: Dict<seq<int>>)
    ensures GroupedByUser(lines, byUser, userItems)
    ensures SortedGroups(userRows, UserInsertions(lines))
    ensures SortedGroups(itemRows, ItemInsertions(lines))
  {
    byUser, userItems, userRows, itemRows := Empty(), Empty(), Empty(), Empty();
    EmptyGroups();
    var i := 0;
    while i < |lines|
      invariant 0 <= i <= |lines|
      invariant GroupedByUser(lines[..i], byUser, userItems)
      invariant SortedGroups(userRows, UserInsertions(lines[..i]))
      invariant SortedGroups(itemRows, ItemInsertions(lines[..i]))
    {
      var l := lines[i];
      assert lines[..i + 1] == lines[..i] + [l];
      assert lines[..i + 1][..i] == lines[..i];
      GroupedByUserStep(lines[..i], l, byUser, userItems);
      userItems := userItems.Put(l.user, userItems.Get(l.user, []) + [l.item]);
      byUser := byUser.Put(l.user, byUser.Get(l.user, []) + [(l.item, l.rating)]);
      userRows := InsortInto(userRows, l.user, l.item, UserInsertions(lines[..i]));
      itemRows := InsortInto(itemRows, l.item, l.user, ItemInsertions(lines[..i]));
      i := i + 1;
    }
    assert lines[..i] == lines;
  }

  /** `for value in ratings_by_user.values(): value.sort(key=lambda v: v[0])` */
  method SortRatings(byUser: Dict<seq<(int, int)>>) returns (sorted: Dict<seq<(int, int)>>)
    requires byUser.Valid()
    ensures sorted.Valid() && sorted.keys == byUser.keys && sorted.m.Keys == byUser.m.Keys
    ensures forall u :: u in byUser.m ==> sorted.m[u] == SortByItem(byUser.m[u])
  {
    sorted := byUser;
    var i := 0;
    while i < |byUser.keys|
      invariant 0 <= i <= |byUser.keys|
      invariant sorted.Valid() && sorted.keys == byUser.keys && sorted.m.Keys == byUser.m.Keys
      invariant forall u :: u in byUser.m ==>
                  sorted.m[u] == if u in byUser.keys[..i] then SortByItem(byUser.m[u]) else byUser.m[u]
    {
      var u := byUser.keys[i];
      sorted := sorted.Put(u, SortByItem(sorted.m[u]));
      assert byUser.keys[..i + 1] == byUser.keys[..i] + [u];
      assert u !in byUser.keys[..i] by {
        forall t | 0 <= t < i ensures byUser.keys[t] != u { }
      }
      i := i + 1;
    }
    assert byUser.keys[..i] == byUser.keys;
  }

  /**
   * One oracle serves the users `keys` in turn: the first user starts at
   * position 0 and each next user where the previous one's `count`
   * negatives left off.
   */
  ghost predicate OracleRunsOn(keys: seq<int>, m: map<int, seq<int>>, count: nat, draw: nat -> int,
                               starts: map<int, nat>)
  {
    && (forall i :: 0 <= i < |keys| ==> keys[i] in starts && keys[i] in m)
    && (|keys| > 0 ==> starts[keys[0]] == 0)
    && (forall i :: 0 <= i < |keys| - 1 ==>
          starts[keys[i + 1]] == Cursor(m[keys[i]], count, draw, starts[keys[i]]))
  }

  /** Giving the next user the position the previous one left off at keeps the oracle running on. */
  lemma OracleStep(keys: seq<int>, m: map<int, seq<int>>, count: nat, draw: nat -> int,
                   starts: map<int, nat>, i: nat, c: nat)
    requires i < |keys| && keys[i] in m
    requires forall j :: 0 <= j < i ==> keys[j] != keys[i]
    requires OracleRunsOn(keys[..i], m, count, draw, starts)
    requires i == 0 ==> c == 0
    requires i > 0 ==> keys[i - 1] in starts && keys[i - 1] in m
                       && c == Cursor(m[keys[i - 1]], count, draw, starts[keys[i - 1]])
    ensures OracleRunsOn(keys[..i + 1], m, count, draw, starts[keys[i] := c])
  {
    var pre := keys[..i];
    var next := keys[..i + 1];
    assert next == pre + [keys[i]];
    forall j | 0 <= j < i ensures pre[j] == keys[j] && pre[j] != keys[i] { }
  }

  /**
   * `neg` holds, for each user of `userItems` in order (none when `count`
   * is 0), the `count` negatives taken from that user's oracle position in
   * `starts`, all of them item indices in `[0, numItems)`; the positions
   * run on from 0 across the users.
   */
  ghost predicate SampledFor(neg: Dict<seq<int>>, userItems: Dict<seq<int>>, count: nat,
                             draw: nat -> int, numItems: nat, starts: map<int, nat>)
  {
    && OracleRunsOn(userItems.keys, userItems.m, count, draw, starts)
    && neg.Valid()
    && neg.keys == (if count > 0 then userItems.keys else [])
    && (forall u :: u in neg.m ==>
          && u in starts && u in userItems.m
          && neg.m[u] == Samples(userItems.m[u], count, draw, starts[u])
          && |neg.m[u]| == count
          && forall t :: 0 <= t < count ==> 0 <= neg.m[u][t] < numItems)
  }

  /**
   * One user's `count` negatives, drawn from position `c` on, each with one
   * retry on a positive; `c'` is the position the next user starts at.
   */
  method SampleUser(items: seq<int>, count: nat, draw: nat -> int, c: nat) returns (row: seq<int>, c': nat)
    ensures row == Samples(items, count, draw, c)
    ensures c' == Cursor(items, count, draw, c)
  {
    row, c' := [], c;
    var t := 0;
    while t < count
      invariant 0 <= t <= count
      invariant c' == Cursor(items, t, draw, c)
      invariant row == Samples(items, t, draw, c)
    {
      var j := draw(c');
      c' := c' + 1;
      if j in items {
        j := draw(c');
        c' := c' + 1;
      }
      row := row + [j];
      t := t + 1;
    }
  }

  /**
   * The negative-sampling loop: for every user of `user_items_dict`, in
   * order, `count` negatives, each drawn with one retry on a positive.
   * The oracle position runs on across users.
   */
  method SampleNegatives(userItems: Dict<seq<int>>, count: nat, numItems: nat, draw: nat -> int)
    returns (negatives: Dict<seq<int>>, ghost starts: map<int, nat>)
    requires userItems.Valid()
    requires DrawsInRange(draw, numItems)
    ensures SampledFor(negatives, userItems, count, draw, numItems, starts)
  {
    negatives := Empty();
    starts := map[];
    var c: nat := 0;
    var i := 0;
    while i < |userItems.keys|
      invariant SampledUpTo(negatives, userItems, count, draw, starts, i, c)
    {
      negatives, starts, c := SampleNext(userItems, count, draw, negatives, starts, i, c);
      i := i + 1;
    }
    assert userItems.keys[..i] == userItems.keys;
    forall u | u in negatives.m
      ensures |negatives.m[u]| == count && forall t :: 0 <= t < count ==> 0 <= negatives.m[u][t] < numItems
    {
      SamplesShape(userItems.m[u], count, draw, starts[u], numItems);
    }
  }

  /**
   * The first `i` users of `userItems` have their negatives (when `count`
   * is not 0), each from its own oracle position in `starts`, and the
   * oracle now stands at `c`, where the last of them left off.
   */
  ghost predicate SampledUpTo(neg: Dict<seq<int>>, userItems: Dict<seq<int>>, count: nat, draw: nat -> int,
                              starts: map<int, nat>, i: nat, c: nat)
  {
    && i <= |userItems.keys|
    && neg.Valid()
    && neg.keys == (if count > 0 then userItems.keys[..i] else [])
    && (forall u :: u in neg.m ==>
          && u in starts && u in userItems.m
          && neg.m[u] == Samples(userItems.m[u], count, draw, starts[u]))
    && OracleRunsOn(userItems.keys[..i], userItems.m, count, draw, starts)
    && (i == 0 ==> c == 0)
    && (i > 0 ==>
          && userItems.keys[i - 1] in starts && userItems.keys[i - 1] in userItems.m
          && c == Cursor(userItems.m[userItems.keys[i - 1]], count, draw, starts[userItems.keys[i - 1]]))
  }

  /** One pass of the loop over `user_items.items()`: the next user's negatives. */
  method SampleNext(userItems: Dict<seq<int>>, count: nat, draw: nat -> int, neg: Dict<seq<int>>,
                    ghost starts: map<int, nat>, i: nat, c: nat)
    returns (neg': Dict<seq<int>>, ghost starts': map<int, nat>, c': nat)
    requires userItems.Valid() && i < |userItems.keys|
    requires SampledUpTo(neg, userItems, count, draw, starts, i, c)
    ensures SampledUpTo(neg', userItems, count, draw, starts', i + 1, c')
  {
    var u := userItems.keys[i];
    assert u in userItems.m;
    if count > 0 {
      FreshKey(userItems.keys, i, neg);
    }
    OracleStep(userItems.keys, userItems.m, count, draw, starts, i, c);
    var row;
    row, c' := SampleUser(userItems.m[u], count, draw, c);
    neg' := if count > 0 then neg.Put(u, row) else neg;
    starts' := starts[u := c];
    assert userItems.keys[..i + 1] == userItems.keys[..i] + [u];
  }

  /** The shape every loaded split has, relied on by the batch generators. */
  ghost predicate WellFormed(data: RatingsData) {
    && data.ratingsByUser.Valid()
    && data.userItems.Valid()
    && data.userNegativeItems.Valid()
    && data.ratingsByUser.keys == data.userItems.keys
    && (forall u :: u in data.ratingsByUser.m ==> data.ratingsByUser.m[u] != [])
  }

  /**
   * The two adjacencies of a split built from `lines`: one entry per line
   * on each side; the row of user `k` lists the items `k` rated, sorted,
   * with weights summing to 1; the row of item `k` lists the users who
   * rated it, sorted, every weight 1. User rows come in the order of the
   * users' first lines, each entry weighted `1 / len(row)`; item rows in
   * the order of the items' first lines.
   */
  ghost predicate RatingAdjacencies(data: RatingsData, lines: seq<RatingLine>) {
    && |data.userConsumedItems.indices| == |data.userConsumedItems.values| == |lines|
    && |data.itemConsumedUsers.indices| == |data.itemConsumedUsers.values| == |lines|
    && RowsInOrder(data.userConsumedItems, RatedUsers(lines), PerDegree)
    && RowsInOrder(data.itemConsumedUsers, RatedItems(lines), Unit)
    && (forall k ::
          && Sorted(RowEntries(data.userConsumedItems.indices, k))
          && multiset(RowEntries(data.userConsumedItems.indices, k)) == multiset(ItemsOf(lines, k))
          && RowSum(data.userConsumedItems.indices, data.userConsumedItems.values, k)
             == if k in RatedUsers(lines) then 1.0 else 0.0)
    && (forall k ::
          && Sorted(RowEntries(data.itemConsumedUsers.indices, k))
          && multiset(RowEntries(data.itemConsumedUsers.indices, k)) == multiset(UsersOf(lines, k)))
    && (forall t :: 0 <= t < |lines| ==> data.itemConsumedUsers.values[t] == 1.0)
  }

  /** `data` is what the loader builds from `lines`, with the oracle position each user's negatives start at. */
  ghost predicate LoadedFrom(data: RatingsData, lines: seq<RatingLine>, count: nat, draw: nat -> int, numItems: nat,
                             starts: map<int, nat>)
  {
    && WellFormed(data)
    && data.userItems.keys == RatedUsers(lines)
    && (forall u :: u in data.ratingsByUser.m ==> data.ratingsByUser.m[u] == SortByItem(RatingsOf(lines, u)))
    && (forall u :: u in data.userItems.m ==> data.userItems.m[u] == ItemsOf(lines, u))
    && RatingAdjacencies(data, lines)
    && SampledFor(data.userNegativeItems, data.userItems, count, draw, numItems, starts)
  }

  /**
   * The whole loader. `draw` stands for the successive results of
   * `np.random.randint(num_items)`; `numEvaluate` replaces `numNegatives`
   * for the test split.
   */
  method LoadRatings(split: DatasetType, lines: seq<RatingLine>, numItems: nat,
                     numNegatives: nat, numEvaluate: nat, draw: nat -> int)
    returns (data: RatingsData, ghost starts: map<int, nat>)
    requires DrawsInRange(draw, numItems)
    ensures LoadedFrom(data, lines, if split == Test then numEvaluate else numNegatives, draw, numItems, starts)
  {
    var byUser, userItems, uRows, iRows := GroupRatings(lines);
    var userConsumed := Flatten(uRows, PerDegree);
    var itemConsumed := Flatten(iRows, Unit);
    var sorted := SortRatings(byUser);
    var count := if split == Test then numEvaluate else numNegatives;
    var negatives;
    negatives, starts := SampleNegatives(userItems, count, numItems, draw);
    data := RatingsData(sorted, userConsumed, itemConsumed, userItems, negatives);
    GroupedRatingRows(data, lines, uRows, iRows);
    forall u | u in sorted.m ensures sorted.m[u] != [] {
      RatedUserHasRatings(lines, u);
      SortByItemSortsAndPermutes(RatingsOf(lines, u));
    }
  }

  lemma {:induction false} InsertionsCount(lines: seq<RatingLine>)
    ensures |UserInsertions(lines)| == |ItemInsertions(lines)| == |lines|
  {
    if lines != [] {
      InsertionsCount(lines[..|lines| - 1]);
    }
  }

  /** The grouped rows, flattened per degree on the user side and with unit weights on the item side. */
  lemma GroupedRatingRows(data: RatingsData, lines: seq<RatingLine>, userRows: Dict<seq<int>>, itemRows: Dict<seq<int>>)
    requires SortedGroups(userRows, UserInsertions(lines)) && FlattenedFrom(data.userConsumedItems, userRows, PerDegree)
    requires SortedGroups(itemRows, ItemInsertions(lines)) && FlattenedFrom(data.itemConsumedUsers, itemRows, Unit)
    ensures RatingAdjacencies(data, lines)
  {
    forall k
      ensures Sorted(RowEntries(data.userConsumedItems.indices, k))
      ensures multiset(RowEntries(data.userConsumedItems.indices, k)) == multiset(ItemsOf(lines, k))
      ensures RowSum(data.userConsumedItems.indices, data.userConsumedItems.values, k)
              == if k in RatedUsers(lines) then 1.0 else 0.0
      ensures Sorted(RowEntries(data.itemConsumedUsers.indices, k))
      ensures multiset(RowEntries(data.itemConsumedUsers.indices, k)) == multiset(UsersOf(lines, k))
    {
      RatingRow(data, lines, userRows, itemRows, k);
    }
    RatingRow(data, lines, userRows, itemRows, 0);
    FlattenedInOrder(data.userConsumedItems, userRows, PerDegree);
    FlattenedInOrder(data.itemConsumedUsers, itemRows, Unit);
  }

  /** Every entry of a loaded user->items adjacency weighs `1.0 / len(items)` of its own row. */
  lemma UserItemWeights(data: RatingsData, lines: seq<RatingLine>)
    requires RatingAdjacencies(data, lines)
    ensures forall t :: 0 <= t < |data.userConsumedItems.indices| ==>
              var row := RowEntries(data.userConsumedItems.indices, data.userConsumedItems.indices[t].0);
              |row| > 0 && data.userConsumedItems.values[t] == 1.0 / |row| as real
  {
    PerDegreeEntryWeights(data.userConsumedItems, RatedUsers(lines));
  }

  /** The user row and the item row of key `k`, and the item weights. */
  lemma RatingRow(data: RatingsData, lines: seq<RatingLine>, userRows: Dict<seq<int>>, itemRows: Dict<seq<int>>, k: int)
    requires SortedGroups(userRows, UserInsertions(lines)) && FlattenedFrom(data.userConsumedItems, userRows, PerDegree)
    requires SortedGroups(itemRows, ItemInsertions(lines)) && FlattenedFrom(data.itemConsumedUsers, itemRows, Unit)
    ensures |data.userConsumedItems.indices| == |data.userConsumedItems.values| == |lines|
    ensures |data.itemConsumedUsers.indices| == |data.itemConsumedUsers.values| == |lines|
    ensures RowSum(data.userConsumedItems.indices, data.userConsumedItems.values, k)
            == if k in RatedUsers(lines) then 1.0 else 0.0
    ensures Sorted(RowEntries(data.userConsumedItems.indices, k))
    ensures multiset(RowEntries(data.userConsumedItems.indices, k)) == multiset(ItemsOf(lines, k))
    ensures Sorted(RowEntries(data.itemConsumedUsers.indices, k))
    ensures multiset(RowEntries(data.itemConsumedUsers.indices, k)) == multiset(UsersOf(lines, k))
    ensures forall t :: 0 <= t < |lines| ==> data.itemConsumedUsers.values[t] == 1.0
  {
    InsertionsCount(lines);
    GroupedAdjacency(data.userConsumedItems, userRows, UserInsertions(lines), k);
    FirstAccessOrderHasInsertedKeys(UserInsertions(lines), k);
    UserRowHoldsItems(lines, k);
    FlatRowEntries(itemRows.keys, itemRows.m, k);
    FirstAccessOrderHasInsertedKeys(ItemInsertions(lines), k);
    ItemRowHoldsUsers(lines, k);
    UnitWeights(itemRows.keys, itemRows.m);
  }
}
