/**
 * The second `DataModule`: it loads the social links and the three rating
 * splits once, then serves the training batches, the validation rows and
 * the positive and negative test rows the evaluator scores.
 */
module DataModuleV2 {
  import opened OrderedDict
  import opened Outcome
  import SparseAdjacency
  import opened Links
  import opened Ratings
  import opened Batches

  // ---------------------------------------------------------------------
  // Steps shared by the generators

  lemma RowStep(u: int, ratings: seq<(int, int)>, j: nat)
    requires j < |ratings|
    ensures Join(Batch(Repeat(u, j), Firsts(ratings[..j]), Seconds(ratings[..j])),
                 Batch([u], [ratings[j].0], [ratings[j].1]))
            == Batch(Repeat(u, j + 1), Firsts(ratings[..j + 1]), Seconds(ratings[..j + 1]))
  {
    assert Repeat(u, j) + [u] == Repeat(u, j + 1);
    assert Firsts(ratings[..j]) + [ratings[j].0] == Firsts(ratings[..j + 1]);
    assert Seconds(ratings[..j]) + [ratings[j].1] == Seconds(ratings[..j + 1]);
  }

  /**
   * The rows one user adds: one `(user, item, rating)` per rating in list
   * order, then one `(user, item, 0)` per negative.
   */
  method AppendUserRows(b: Batch, u: int, ratings: seq<(int, int)>, negatives: seq<int>) returns (b': Batch)
    ensures b' == Join(b, UserRows(u, ratings, negatives))
  {
    b' := b;
    var j := 0;
    while j < |ratings|
      invariant 0 <= j <= |ratings|
      invariant b' == Join(b, Batch(Repeat(u, j), Firsts(ratings[..j]), Seconds(ratings[..j])))
    {
      JoinAssociative(b, Batch(Repeat(u, j), Firsts(ratings[..j]), Seconds(ratings[..j])),
                      Batch([u], [ratings[j].0], [ratings[j].1]));
      RowStep(u, ratings, j);
      b' := Join(b', Batch([u], [ratings[j].0], [ratings[j].1]));
      j := j + 1;
    }
    assert ratings[..j] == ratings;
    var t := 0;
    while t < |negatives|
      invariant 0 <= t <= |negatives|
      invariant b' == Join(b, Batch(Repeat(u, |ratings| + t), Firsts(ratings) + negatives[..t],
                                    Seconds(ratings) + Repeat(0, t)))
    {
      ghost var x := Batch(Repeat(u, |ratings| + t), Firsts(ratings) + negatives[..t], Seconds(ratings) + Repeat(0, t));
      JoinAssociative(b, x, Batch([u], [negatives[t]], [0]));
      assert Repeat(u, |ratings| + t) + [u] == Repeat(u, |ratings| + t + 1);
      assert (Firsts(ratings) + negatives[..t]) + [negatives[t]] == Firsts(ratings) + negatives[..t + 1];
      assert (Seconds(ratings) + Repeat(0, t)) + [0] == Seconds(ratings) + Repeat(0, t + 1);
      b' := Join(b', Batch([u], [negatives[t]], [0]));
      t := t + 1;
    }
    assert negatives[..t] == negatives;
  }

  /**
   * The rows of the users `us` (users without ratings skipped), looking up
   * each rated user's negatives in a `defaultdict(list)`, which inserts an
   * empty list for a user it does not hold.
   */
  method ChunkRows(us: seq<int>, byUser: Dict<seq<(int, int)>>, negatives: Dict<seq<int>>)
    returns (b: Batch, negatives': Dict<seq<int>>)
    requires negatives.Valid()
    ensures b == RowsOf(us, byUser, negatives)
    ensures negatives' == TouchAll(negatives, us, byUser)
  {
    b := NoRows;
    negatives' := negatives;
    var i := 0;
    while i < |us|
      invariant 0 <= i <= |us|
      invariant negatives'.Valid()
      invariant b == RowsOf(us[..i], byUser, negatives)
      invariant negatives' == TouchAll(negatives, us[..i], byUser)
    {
      var u := us[i];
      assert us[..i + 1][..i] == us[..i];
      if u in byUser.m {
        TouchAllFacts(negatives, us[..i], byUser);
        negatives' := Touch(negatives', u);
        b := AppendUserRows(b, u, byUser.m[u], negatives'.m[u]);
      }
      i := i + 1;
    }
    assert us[..i] == us;
  }

  /**
   * `[users[i : i + size] for i in range(0, len(users), size)]`: a step of
   * 0 raises, a negative step gives no slices.
   */
  method SliceBatches(users: seq<int>, size: int) returns (r: Result<seq<seq<int>>>)
    ensures size == 0 ==> r == Failure(ValueError)
    ensures size < 0 ==> r == Success([])
    ensures size > 0 ==> r == Success(Chunks(users, size))
  {
    if size == 0 {
      return Failure(ValueError);
    }
    if size < 0 {
      return Success([]);
    }
    var chunks: seq<seq<int>> := [];
    var i := 0;
    while i < |users|
      invariant 0 <= i
      invariant chunks + Chunks(users[Min(i, |users|)..], size) == Chunks(users, size)
      decreases |users| - i
    {
      var end := Min(i + size, |users|);
      var rest := users[i..];
      if |rest| > size {
        assert rest[..size] == users[i..end] && rest[size..] == users[end..];
        assert (chunks + [users[i..end]]) + Chunks(users[end..], size)
               == chunks + ([users[i..end]] + Chunks(users[end..], size));
      } else {
        assert rest == users[i..end] && users[end..] == [];
      }
      chunks := chunks + [users[i..end]];
      i := i + size;
    }
    assert users[Min(i, |users|)..] == [];
    assert chunks + [] == chunks;
    return Success(chunks);
  }

  /** The negatives of the users `us`, each beside its user, in user order. */
  method NegativeChunkRows(us: seq<int>, negatives: Dict<seq<int>>) returns (b: NegativeBatch)
    ensures b == NegativeBatch(NegativeRows(us, negatives).0, NegativeRows(us, negatives).1, us)
  {
    var users: seq<int> := [];
    var items: seq<int> := [];
    var i := 0;
    while i < |us|
      invariant 0 <= i <= |us|
      invariant (users, items) == NegativeRows(us[..i], negatives)
    {
      var u := us[i];
      assert us[..i + 1] == us[..i] + [u];
      if u in negatives.m {
        NegativeRowsSnoc(us[..i], u, negatives);
        var block := negatives.m[u];
        var t := 0;
        while t < |block|
          invariant 0 <= t <= |block|
          invariant users == NegativeRows(us[..i], negatives).0 + Repeat(u, t)
          invariant items == NegativeRows(us[..i], negatives).1 + block[..t]
        {
          assert Repeat(u, t) + [u] == Repeat(u, t + 1);
          assert block[..t] + [block[t]] == block[..t + 1];
          users := users + [u];
          items := items + [block[t]];
          t := t + 1;
        }
        assert block[..t] == block;
      } else {
        NegativeRowsSkip(us[..i], u, negatives);
      }
      i := i + 1;
    }
    assert us[..i] == us;
    b := NegativeBatch(users, items, us);
  }

  lemma {:induction false} NegativeRowsSkip(us: seq<int>, u: int, negatives: Dict<seq<int>>)
    requires u !in negatives.m
    ensures NegativeRows(us + [u], negatives) == NegativeRows(us, negatives)
  {
    if us == [] {
      assert [] + [u] == [u] && [u][1..] == [];
    } else {
      assert (us + [u])[1..] == us[1..] + [u];
      assert (us + [u])[0] == us[0];
      NegativeRowsSkip(us[1..], u, negatives);
    }
  }

  /** The batches of the slices `chunks`, one `ChunkRows` after the other. */
  method ChunksRows(chunks: seq<seq<int>>, byUser: Dict<seq<(int, int)>>, negatives: Dict<seq<int>>)
    returns (batches: seq<Batch>, negatives': Dict<seq<int>>)
    requires negatives.Valid()
    ensures batches == BatchesOf(chunks, byUser, negatives)
    ensures negatives' == TouchAll(negatives, Flatten(chunks), byUser)
  {
    batches := [];
    negatives' := negatives;
    var k := 0;
    while k < |chunks|
      invariant 0 <= k <= |chunks|
      invariant negatives'.Valid()
      invariant batches == BatchesOf(chunks[..k], byUser, negatives)
      invariant negatives' == TouchAll(negatives, Flatten(chunks[..k]), byUser)
    {
      var b;
      ghost var before := negatives';
      TouchAllFacts(negatives, Flatten(chunks[..k]), byUser);
      b, negatives' := ChunkRows(chunks[k], byUser, negatives');
      RowsOfSameNegatives(chunks[k], byUser, before, negatives);
      assert chunks[..k + 1] == chunks[..k] + [chunks[k]];
      FlattenSnoc(chunks[..k], chunks[k]);
      TouchAllAppend(negatives, Flatten(chunks[..k]), chunks[k], byUser);
      batches := batches + [b];
      assert batches == BatchesOf(chunks[..k + 1], byUser, negatives);
      k := k + 1;
    }
    assert chunks[..k] == chunks;
  }

  /**
   * One user's positive rows, and the positions they take from `counter`
   * on, appended under that user (`user_index_dict[user].append(...)`).
   */
  method IndexUserRows(b: Batch, userIndex: Dict<seq<int>>, counter: nat, u: int, ratings: seq<(int, int)>)
    returns (b': Batch, userIndex': Dict<seq<int>>, counter': nat)
    requires userIndex.Valid() && u !in userIndex.m
    ensures b' == Join(b, UserRows(u, ratings, []))
    ensures counter' == counter + |ratings|
    ensures userIndex'.Valid()
    ensures ratings == [] ==> userIndex' == userIndex
    ensures ratings != [] ==>
              userIndex'.keys == userIndex.keys + [u] && userIndex'.m == userIndex.m[u := Iota(counter, counter')]
  {
    b', userIndex', counter' := b, userIndex, counter;
    var j := 0;
    while j < |ratings|
      invariant 0 <= j <= |ratings|
      invariant b' == Join(b, Batch(Repeat(u, j), Firsts(ratings[..j]), Seconds(ratings[..j])))
      invariant counter' == counter + j
      invariant userIndex'.Valid()
      invariant j == 0 ==> userIndex' == userIndex
      invariant j > 0 ==> userIndex'.keys == userIndex.keys + [u] && userIndex'.m == userIndex.m[u := Iota(counter, counter + j)]
    {
      JoinAssociative(b, Batch(Repeat(u, j), Firsts(ratings[..j]), Seconds(ratings[..j])),
                      Batch([u], [ratings[j].0], [ratings[j].1]));
      RowStep(u, ratings, j);
      b' := Join(b', Batch([u], [ratings[j].0], [ratings[j].1]));
      assert Iota(counter, counter + j) + [counter'] == Iota(counter, counter + j + 1);
      userIndex' := userIndex'.Put(u, userIndex'.Get(u, []) + [counter']);
      counter' := counter' + 1;
      j := j + 1;
    }
    assert ratings[..j] == ratings;
    assert Firsts(ratings) + [] == Firsts(ratings) && Seconds(ratings) + Repeat(0, 0) == Seconds(ratings);
  }

  lemma IndexStep(keys: seq<int>, byUser: Dict<seq<(int, int)>>, i: nat,
                  before: Dict<seq<int>>, after: Dict<seq<int>>, lo: nat)
    requires AllIn(keys, byUser.m) && i < |keys|
    requires forall s, t :: 0 <= s < t < |keys| ==> keys[s] != keys[t]
    requires lo == Offset(keys[..i], byUser)
    requires forall t :: 0 <= t < i ==> keys[t] in before.m && before.m[keys[t]] == Block(keys, byUser, t)
    requires after.m == before.m[keys[i] := Iota(lo, lo + |byUser.m[keys[i]]|)]
    ensures lo + |byUser.m[keys[i]]| == Offset(keys[..i + 1], byUser)
    ensures forall t :: 0 <= t < i + 1 ==> keys[t] in after.m && after.m[keys[t]] == Block(keys, byUser, t)
  {
    OffsetStep(keys, byUser, i);
    forall t | 0 <= t < i + 1 ensures keys[t] in after.m && after.m[keys[t]] == Block(keys, byUser, t) {
      if t < i {
        assert keys[t] != keys[i];
      }
    }
  }

  /** The rows of one more user are the rows so far followed by that user's own rows. */
  lemma PositiveRowsStep(keys: seq<int>, byUser: Dict<seq<(int, int)>>, i: nat)
    requires i < |keys| && keys[i] in byUser.m
    ensures RowsOf(keys[..i + 1], byUser, Empty())
            == Join(RowsOf(keys[..i], byUser, Empty()), UserRows(keys[i], byUser.m[keys[i]], []))
  {
    assert keys[..i + 1][..i] == keys[..i];
  }

  /** The positive rows of every user of `byUser`, in order, and each user's row positions. */
  method PositiveRows(byUser: Dict<seq<(int, int)>>) returns (b: Batch, userIndex: Dict<seq<int>>)
    requires byUser.Valid() && AllIn(byUser.keys, byUser.m)
    requires forall u :: u in byUser.m ==> byUser.m[u] != []
    ensures b == RowsOf(byUser.keys, byUser, Empty())
    ensures userIndex.Valid() && userIndex.keys == byUser.keys
    ensures forall i :: 0 <= i < |userIndex.keys| ==> userIndex.m[userIndex.keys[i]] == Block(byUser.keys, byUser, i)
  {
    var keys := byUser.keys;
    b := NoRows;
    userIndex := Empty();
    var counter := 0;
    var i := 0;
    while i < |keys|
      invariant 0 <= i <= |keys|
      invariant b == RowsOf(keys[..i], byUser, Empty())
      invariant counter == Offset(keys[..i], byUser)
      invariant userIndex.Valid() && userIndex.keys == keys[..i]
      invariant forall t :: 0 <= t < i ==> keys[t] in userIndex.m && userIndex.m[keys[t]] == Block(keys, byUser, t)
    {
      var u := keys[i];
      FreshKey(keys, i, userIndex);
      ghost var before := userIndex;
      ghost var lo := counter;
      b, userIndex, counter := IndexUserRows(b, userIndex, counter, u, byUser.m[u]);
      IndexStep(keys, byUser, i, before, userIndex, lo);
      PositiveRowsStep(keys, byUser, i);
      i := i + 1;
    }
    assert keys[..i] == keys;
  }

  /**
   * Every split has the loader's shape, and every test user has
   * `numEvaluate` negatives, which lets the evaluator reshape them.
   */
  ghost predicate SplitsValid(train: RatingsData, validation: RatingsData, test: RatingsData, numEvaluate: nat) {
    && WellFormed(train)
    && WellFormed(validation)
    && WellFormed(test)
    && AllIn(test.ratingsByUser.keys, test.ratingsByUser.m)
    && (forall u :: u in test.userNegativeItems.m ==> |test.userNegativeItems.m[u]| == numEvaluate)
  }

  lemma LoadedSplitsValid(train: RatingsData, validation: RatingsData, test: RatingsData, numEvaluate: nat,
                          testLines: seq<RatingLine>, drawTest: nat -> int, numItems: nat, starts: map<int, nat>)
    requires WellFormed(train) && WellFormed(validation)
    requires LoadedFrom(test, testLines, numEvaluate, drawTest, numItems, starts)
    ensures SplitsValid(train, validation, test, numEvaluate)
  {
    KeysAllIn(test.ratingsByUser);
  }

  // ---------------------------------------------------------------------
  // What the generators' results mean

  /** Put together, the training batches are the rows of every user `0 .. n - 1` once, in order. */
  lemma TrainBatchesCover(n: nat, size: nat, byUser: Dict<seq<(int, int)>>, negatives: Dict<seq<int>>)
    requires size > 0
    ensures JoinAll(BatchesOf(Chunks(Range(n), size), byUser, negatives)) == RowsOf(Range(n), byUser, negatives)
  {
    BatchesJoin(Chunks(Range(n), size), byUser, negatives);
    ChunksFlatten(Range(n), size);
  }

  /** Every row of training batch `k` belongs to a rated user of `k * size .. (k + 1) * size - 1`. */
  lemma TrainBatchUsers(n: nat, size: nat, byUser: Dict<seq<(int, int)>>, negatives: Dict<seq<int>>, k: nat, t: nat)
    requires size > 0 && k < |Chunks(Range(n), size)|
    requires t < |BatchesOf(Chunks(Range(n), size), byUser, negatives)[k].users|
    ensures var u := BatchesOf(Chunks(Range(n), size), byUser, negatives)[k].users[t];
            k * size <= u < (k + 1) * size && u < n && u in byUser.m
  {
    var chunk := Chunks(Range(n), size)[k];
    RowsUsers(chunk, byUser, negatives);
    ChunkSlices(Range(n), size);
    var lo, hi := k * size, Min((k + 1) * size, n);
    assert chunk == Range(n)[lo..hi];
    var u := RowsOf(chunk, byUser, negatives).users[t];
    var p :| 0 <= p < |chunk| && chunk[p] == u;
    assert chunk[p] == lo + p;
  }

  /** The batch's users hold negatives of `count` each, so the items reshape to one row per user. */
  lemma TestNegativeBatchRows(negatives: Dict<seq<int>>, count: nat, size: nat, k: nat)
    requires negatives.Valid() && count > 0 && size > 0
    requires forall u :: u in negatives.m ==> |negatives.m[u]| == count
    requires k < |Chunks(negatives.keys, size)|
    ensures var b := NegativeBatchesOf(Chunks(negatives.keys, size), negatives)[k];
            && b.userBatch == Chunks(negatives.keys, size)[k]
            && (forall p :: 0 <= p < |b.userBatch| ==> b.userBatch[p] in negatives.m)
            && Chunks(b.items, count) == seq(|b.userBatch|, p requires 0 <= p < |b.userBatch| => negatives.m[b.userBatch[p]])
            && Chunks(b.users, count) == seq(|b.userBatch|, p requires 0 <= p < |b.userBatch| => Repeat(b.userBatch[p], count))
  {
    var chunks := Chunks(negatives.keys, size);
    ChunksFlatten(negatives.keys, size);
    forall p | 0 <= p < |chunks[k]| ensures chunks[k][p] in negatives.m {
      FlattenHolds(chunks, k, chunks[k][p]);
      assert chunks[k][p] in negatives.keys;
    }
    assert AllIn(chunks[k], negatives.m);
    forall i | 0 <= i < |chunks[k]| ensures |negatives.m[chunks[k][i]]| == count {
      var u := chunks[k][i];
      assert u in negatives.m;
    }
    NegativeRowsBlocks(chunks[k], negatives, count);
  }

  /** Every position `user_index_dict` holds for a test user is a row of that user. */
  lemma PositiveIndexRows(byUser: Dict<seq<(int, int)>>, i: nat, t: nat)
    requires AllIn(byUser.keys, byUser.m) && i < |byUser.keys| && t < |byUser.m[byUser.keys[i]]|
    ensures var rows := RowsOf(byUser.keys, byUser, Empty());
            var p := Block(byUser.keys, byUser, i)[t];
            && 0 <= p < |rows.users| && rows.Aligned()
            && rows.users[p] == byUser.keys[i]
            && rows.items[p] == byUser.m[byUser.keys[i]][t].0
            && rows.labels[p] == byUser.m[byUser.keys[i]][t].1
  {
    BlockRows(byUser.keys, byUser, i, t);
  }

  /**
   * The empty lists the negatives lookups leave behind change no later
   * rows: calling a generator again gives the same rows.
   */
  lemma TouchedRowsSame(us: seq<int>, vs: seq<int>, byUser: Dict<seq<(int, int)>>,
                        other: Dict<seq<(int, int)>>, negatives: Dict<seq<int>>)
    requires negatives.Valid()
    ensures RowsOf(us, byUser, TouchAll(negatives, vs, other)) == RowsOf(us, byUser, negatives)
  {
    TouchAllFacts(negatives, vs, other);
    RowsOfSameNegatives(us, byUser, TouchAll(negatives, vs, other), negatives);
  }

  // ---------------------------------------------------------------------
  // The data module

  class DataModule {
    const batchSize: int
    const numNegatives: nat
    const numEvaluate: nat

    /** `len(self.user_map)` and `len(self.item_map)`. */
    var numUsers: nat
    var numItems: nat
    var userLinks: SparseAdjacency.Adjacency
    var itemLinks: SparseAdjacency.Adjacency
    var trainData: RatingsData
    var validationData: RatingsData
    var testData: RatingsData

    ghost var trainStarts: map<int, nat>
    ghost var validationStarts: map<int, nat>
    ghost var testStarts: map<int, nat>

    /**
     * Every split has the loader's shape, and every test user has
     * `numEvaluate` negatives, which lets the evaluator reshape them.
     */
    ghost predicate Valid()
      reads this`trainData, this`validationData, this`testData
    {
      SplitsValid(trainData, validationData, testData, numEvaluate)
    }

    constructor(batchSize: int, numNegatives: nat, numEvaluate: nat)
      ensures Valid()
      ensures this.batchSize == batchSize && this.numNegatives == numNegatives && this.numEvaluate == numEvaluate
    {
      this.batchSize := batchSize;
      this.numNegatives := numNegatives;
      this.numEvaluate := numEvaluate;
      numUsers, numItems := 0, 0;
      userLinks := SparseAdjacency.Adjacency([], []);
      itemLinks := SparseAdjacency.Adjacency([], []);
      var none := RatingsData(Empty(), SparseAdjacency.Adjacency([], []), SparseAdjacency.Adjacency([], []), Empty(), Empty());
      trainData, validationData, testData := none, none, none;
      trainStarts, validationStarts, testStarts := map[], map[], map[];
    }

    /**
     * `load()`: both link files, then the train, validation and test
     * splits. The three oracles stand for the random stream as each split
     * finds it; the test split draws `numEvaluate` negatives per user.
     */
    method Load(numUsers: nat, numItems: nat, userLinkLines: seq<LinkLine>, itemLinkLines: seq<LinkLine>,
                trainLines: seq<RatingLine>, validationLines: seq<RatingLine>, testLines: seq<RatingLine>,
                drawTrain: nat -> int, drawValidation: nat -> int, drawTest: nat -> int)
      requires DrawsInRange(drawTrain, numItems)
      requires DrawsInRange(drawValidation, numItems)
      requires DrawsInRange(drawTest, numItems)
      modifies this
      ensures Valid()
      ensures this.numUsers == numUsers && this.numItems == numItems
      ensures LinksLoaded(userLinks, userLinkLines) && LinksLoaded(itemLinks, itemLinkLines)
      ensures SplitsLoaded(numItems, trainLines, validationLines, testLines, drawTrain, drawValidation, drawTest)
    {
      this.numUsers, this.numItems := numUsers, numItems;
      LoadLinks(userLinkLines, itemLinkLines);
      assert this.numUsers == numUsers && this.numItems == numItems;
      LoadSplits(numItems, trainLines, validationLines, testLines, drawTrain, drawValidation, drawTest);
      assert this.numUsers == numUsers && this.numItems == numItems;
    }

    /** The user links, then the item links; nothing else changes. */
    method LoadLinks(userLinkLines: seq<LinkLine>, itemLinkLines: seq<LinkLine>)
      modifies this
      ensures LinksLoaded(userLinks, userLinkLines) && LinksLoaded(itemLinks, itemLinkLines)
      ensures unchanged(this`numUsers, this`numItems, this`trainData, this`validationData, this`testData)
      ensures unchanged(this`trainStarts, this`validationStarts, this`testStarts)
    {
      ghost var links;
      userLinks, links := LoadKeyTypeLinks(userLinkLines);
      itemLinks, links := LoadKeyTypeLinks(itemLinkLines);
    }

    /** Each split is what the ratings loader builds from its lines and its oracle; the test split has `numEvaluate` negatives per user. */
    ghost predicate SplitsLoaded(numItems: nat, trainLines: seq<RatingLine>, validationLines: seq<RatingLine>,
                      testLines: seq<RatingLine>, drawTrain: nat -> int, drawValidation: nat -> int, drawTest: nat -> int)
      reads this`trainData, this`validationData, this`testData, this`trainStarts, this`validationStarts, this`testStarts
    {
      && LoadedFrom(trainData, trainLines, numNegatives, drawTrain, numItems, trainStarts)
      && LoadedFrom(validationData, validationLines, numNegatives, drawValidation, numItems, validationStarts)
      && LoadedFrom(testData, testLines, numEvaluate, drawTest, numItems, testStarts)
    }

    /** The train, validation and test splits; nothing else changes. */
    method LoadSplits(numItems: nat, trainLines: seq<RatingLine>, validationLines: seq<RatingLine>,
                      testLines: seq<RatingLine>, drawTrain: nat -> int, drawValidation: nat -> int, drawTest: nat -> int)
      requires DrawsInRange(drawTrain, numItems)
      requires DrawsInRange(drawValidation, numItems)
      requires DrawsInRange(drawTest, numItems)
      modifies this`trainData, this`validationData, this`testData
      modifies this`trainStarts, this`validationStarts, this`testStarts
      ensures Valid()
      ensures SplitsLoaded(numItems, trainLines, validationLines, testLines, drawTrain, drawValidation, drawTest)
      ensures unchanged(this`numUsers, this`numItems, this`userLinks, this`itemLinks)
    {
      LoadTrain(numItems, trainLines, drawTrain);
      LoadValidation(numItems, validationLines, drawValidation);
      LoadTest(numItems, testLines, drawTest);
      LoadedSplitsValid(trainData, validationData, testData, numEvaluate, testLines, drawTest, numItems, testStarts);
    }

    /** `self.train_data = self.__load_ratings__(DatasetType.Train)`; nothing else changes. */
    method LoadTrain(numItems: nat, lines: seq<RatingLine>, draw: nat -> int)
      requires DrawsInRange(draw, numItems)
      modifies this`trainData, this`trainStarts
      ensures LoadedFrom(trainData, lines, numNegatives, draw, numItems, trainStarts)
      ensures unchanged(this`validationData, this`testData, this`validationStarts, this`testStarts)
      ensures unchanged(this`numUsers, this`numItems, this`userLinks, this`itemLinks)
    {
      trainData, trainStarts := LoadRatings(Train, lines, numItems, numNegatives, numEvaluate, draw);
    }

    /** `self.validation_data = self.__load_ratings__(DatasetType.Validation)`; nothing else changes. */
    method LoadValidation(numItems: nat, lines: seq<RatingLine>, draw: nat -> int)
      requires DrawsInRange(draw, numItems)
      modifies this`validationData, this`validationStarts
      ensures LoadedFrom(validationData, lines, numNegatives, draw, numItems, validationStarts)
      ensures unchanged(this`trainData, this`testData, this`trainStarts, this`testStarts)
      ensures unchanged(this`numUsers, this`numItems, this`userLinks, this`itemLinks)
    {
      validationData, validationStarts := LoadRatings(Validation, lines, numItems, numNegatives, numEvaluate, draw);
    }

    /** `self.test_data = self.__load_ratings__(DatasetType.Test)`, with `numEvaluate` negatives per user; nothing else changes. */
    method LoadTest(numItems: nat, lines: seq<RatingLine>, draw: nat -> int)
      requires DrawsInRange(draw, numItems)
      modifies this`testData, this`testStarts
      ensures LoadedFrom(testData, lines, numEvaluate, draw, numItems, testStarts)
      ensures unchanged(this`trainData, this`validationData, this`trainStarts, this`validationStarts)
      ensures unchanged(this`numUsers, this`numItems, this`userLinks, this`itemLinks)
    {
      testData, testStarts := LoadRatings(Test, lines, numItems, numNegatives, numEvaluate, draw);
    }

    /**
     * `train_data_batch_generator()`: users `0 .. numUsers - 1` in slices
     * of `batchSize`, each slice giving the rows of its rated users. The
     * negatives lookups leave an empty list behind for every rated user
     * without negatives; nothing else changes.
     */
    method TrainDataBatchGenerator() returns (r: Result<seq<Batch>>)
      requires Valid()
      modifies this
      ensures Valid()
      ensures batchSize == 0 <==> r == Failure(ValueError)
      ensures batchSize < 0 ==> r == Success([])
      ensures batchSize > 0 ==>
                r == Success(BatchesOf(Chunks(Range(numUsers), batchSize),
                                       trainData.ratingsByUser, old(trainData.userNegativeItems)))
      ensures trainData == old(trainData).(userNegativeItems :=
                if batchSize > 0 then TouchAll(old(trainData.userNegativeItems), Range(numUsers), trainData.ratingsByUser)
                else old(trainData.userNegativeItems))
      ensures unchanged(this`numUsers, this`numItems, this`userLinks, this`itemLinks, this`validationData, this`testData)
    {
      var users := Range(numUsers);
      var sliced := SliceBatches(users, batchSize);
      if sliced.Failure? {
        return Failure(sliced.error);
      }
      var chunks := sliced.value;
      var batches, negatives := ChunksRows(chunks, trainData.ratingsByUser, trainData.userNegativeItems);
      if batchSize > 0 {
        ChunksFlatten(users, batchSize);
      }
      trainData := trainData.(userNegativeItems := negatives);
      return Success(batches);
    }

    /**
     * `get_validation_data()`: the rows of every validation user, in load
     * order, with that user's train negatives, which the lookup leaves
     * behind as an empty list when there are none.
     */
    method GetValidationData() returns (b: Batch)
      requires Valid()
      modifies this
      ensures Valid()
      ensures b == RowsOf(validationData.ratingsByUser.keys, validationData.ratingsByUser, old(trainData.userNegativeItems))
      ensures trainData == old(trainData).(userNegativeItems :=
                TouchAll(old(trainData.userNegativeItems), validationData.ratingsByUser.keys, validationData.ratingsByUser))
      ensures unchanged(this`numUsers, this`numItems, this`userLinks, this`itemLinks, this`validationData, this`testData)
    {
      var negatives;
      b, negatives := ChunkRows(validationData.ratingsByUser.keys, validationData.ratingsByUser,
                                trainData.userNegativeItems);
      trainData := trainData.(userNegativeItems := negatives);
    }

    /**
     * `get_test_data_positive()`: the rows of every test user, in load
     * order, without negatives, and for each user the positions of its
     * rows.
     */
    method GetTestDataPositive() returns (b: Batch, userIndex: Dict<seq<int>>)
      requires Valid()
      ensures b == RowsOf(testData.ratingsByUser.keys, testData.ratingsByUser, Empty())
      ensures userIndex.Valid() && userIndex.keys == testData.ratingsByUser.keys
      ensures forall i :: 0 <= i < |userIndex.keys| ==>
                userIndex.m[userIndex.keys[i]] == Block(testData.ratingsByUser.keys, testData.ratingsByUser, i)
    {
      b, userIndex := PositiveRows(testData.ratingsByUser);
    }

    /**
     * `get_test_data_negative()`: the users holding test negatives, in
     * slices of `batchSize`, each slice with its users' negatives.
     */
    method GetTestDataNegative() returns (r: Result<seq<NegativeBatch>>)
      requires Valid()
      ensures batchSize == 0 <==> r == Failure(ValueError)
      ensures batchSize < 0 ==> r == Success([])
      ensures batchSize > 0 ==>
                r == Success(NegativeBatchesOf(Chunks(testData.userNegativeItems.keys, batchSize), testData.userNegativeItems))
    {
      var negatives := testData.userNegativeItems;
      var sliced := SliceBatches(negatives.keys, batchSize);
      if sliced.Failure? {
        return Failure(sliced.error);
      }
      var chunks := sliced.value;
      var batches: seq<NegativeBatch> := [];
      var k := 0;
      while k < |chunks|
        invariant 0 <= k <= |chunks|
        invariant batches == NegativeBatchesOf(chunks[..k], negatives)
      {
        var b := NegativeChunkRows(chunks[k], negatives);
        batches := batches + [b];
        assert batches == NegativeBatchesOf(chunks[..k + 1], negatives);
        k := k + 1;
      }
      assert chunks[..k] == chunks;
      return Success(batches);
    }
  }
}
