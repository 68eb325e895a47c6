# diffnet data pipeline and ranking evaluator, modelled in Dafny

The model covers the parts of the diffnet recommender that are not the neural network:

- **Graph building.** The social `.links` files and the `.ratings` splits become row-normalised sparse
  adjacencies. A `defaultdict(list)` grows sorted rows with `bisect.insort_left`, and the rows are then
  flattened into parallel `indices` / `values` lists.
- **Rating loading.** Ratings are grouped per user, each user's list is sorted by item, and negative
  items are sampled per user.
- **Batch generation.** `data_module_v2.py` serves training batches, validation rows, positive test
  rows with their per-user index map, and negative test batches. The older `data_module.py` pages
  through users with `get_training_batch`.
- **Ranking evaluator** (`evaluate.py`). For each user it ranks the positive and negative predictions,
  builds the 0/1 relevance list of the top `top_k`, and averages the hit rate and NDCG over users.

Modules, one per concern:

| module | file | models |
|---|---|---|
| `Outcome` | outcome.dfy | the Python exceptions the code raises (`IndexError`, `ValueError`, `KeyError`, `TypeError`), a `Result` type and `max(0, n)` |
| `OrderedDict` | ordered_dict.dfy | Python dicts: keys in insertion order, plus the map |
| `Bisect` | bisect.dfy | `bisect_left` / `insort_left` on a sorted list |
| `SparseAdjacency` | sparse_adjacency.dfy | the sorted-insert grouping and the flattening into `(indices, values)`, with per-degree or unit weights |
| `Links` | links.dfy | `__load_key_type_links__`, shared by both data modules |
| `Ratings` | ratings.dfy | `__load_ratings__` of `data_module_v2.py`: grouping, both adjacencies, the sort, negative sampling |
| `Batches` | batches.dfy | the values the generators build: rows per user, chunks of users, test blocks |
| `DataModuleV2` | data_module_v2.dfy | loading and the four generators |
| `DataModuleV1` | data_module_v1.dfy | the first data module: its loader variant and `get_training_batch` |
| `Evaluate` | evaluate.dfy | `compute_dcg`, `compute_ndcg`, `evaluate_hit_rate_and_ndcg_2` |

How the model represents the source:

- **Dicts.** A Python dict is an `OrderedDict.Dict`, a value that loops reassign.
- **Data modules.** Each `DataModule` is a Dafny `class` whose fields the methods update.
- **Random draws.** The successive results of `np.random.randint(num_items)` are an oracle `draw: nat -> int`,
  and every draw is required to lie in `[0, num_items)`.
- **Discount.** `np.log2(idx + 2)` is an abstract discount `disc`, known only to be positive and strictly
  increasing.
- **Scores** are reals.
- **Generators.** A generator is modelled by the list of everything it yields.

Where the code and the design description disagree, the model follows the code:

- Flattened rows come in the order their keys were first used, not sorted by source node (`Links.RowsInFirstUseOrder`).
- The v1 `get_training_batch` raises `IndexError` on an empty window (`batch_users[-1]`) instead of
  finishing quietly.
- A test user with no positive index makes `np.concatenate` raise `ValueError` before any division, so such a user
  never adds a degenerate term to the mean.

## Model

| member | source | states |
|---|---|---|
| Bisect.BisectLeft | src/util/data_module_v2.py:53 | the returned position has every earlier entry below `x` and every later entry at least `x` |
| Bisect.InsortLeft | src/util/data_module_v2.py:53-55 | the new list is sorted, one longer, and holds the old entries plus `x` (as a multiset) |
| Bisect.SortedPermutationUnique | src/util/data_module_v2.py:53-55 | two sorted lists with the same multiset are equal, so sortedness and contents fix what `insort_left` returns |
| SparseAdjacency.FirstAccessOrderHasInsertedKeys | src/util/data_module_v2.py:49-55 | a key is in the `defaultdict` exactly when something was inserted under it |
| SparseAdjacency.InsortInto | src/util/data_module_v2.py:53 | one `insort_left(d[k], x)` extends the grouping invariant by exactly that insertion and changes no other row |
| SparseAdjacency.GroupsStep | src/util/data_module_v2.py:53-55 | putting the sorted row back keeps keys in first-use order, rows sorted and non-empty, and one entry per insertion |
| SparseAdjacency.Flatten | src/util/data_module_v2.py:58-64 | the output lists each row in key order as `[key, col]` pairs with the row's weight, one entry per list element |
| SparseAdjacency.PerDegreeRowSum | src/util/data_module_v2.py:61-64 | with weight `1/len(row)` every listed row's weights sum to exactly 1, and an absent key sums to 0 |
| SparseAdjacency.UnitWeights | src/util/data_module_v2.py:99-102 | with the constant weight every entry weighs exactly 1.0 |
| SparseAdjacency.FlatRowEntries | src/util/data_module_v2.py:61-63 | the entries of row `k` are exactly `k`'s list, in order, with duplicates kept and no rows merged |
| SparseAdjacency.GroupedAdjacency | src/util/data_module_v2.py:49-64 | grouped then flattened: one entry per insertion, each row sorted and holding exactly the values inserted under it, row sum 1 iff something was inserted |
| SparseAdjacency.FlatIsLaidOut | src/util/data_module_v2.py:60-64 | flattening rows in key order, each row equal to the entries read back for its key, gives the key-order layout of those entries with each row's weight |
| SparseAdjacency.FlattenedInOrder | src/util/data_module_v2.py:60-64 | a flattened dict lists its rows one after the other in the dict's key order (first use), each entry weighted from its own row's length |
| SparseAdjacency.FlatEntryWeight | src/util/data_module_v2.py:60-63 | entry `t` of a flattening belongs to a non-empty row of a listed key and carries that row's weight |
| SparseAdjacency.PerDegreeEntryWeights | src/util/data_module_v2.py:60-63 | in a per-degree layout every entry weighs `1 / len(row)` of its own row |
| Links.LinkInsertionsCount | src/util/data_module_v2.py:51-55 | a file performs one insertion per line plus one per nonzero reverse flag |
| Links.LinkNeighbours | src/util/data_module_v2.py:52-55 | node `k` receives `b` for each line `(k, b, _)` and `c` for each line `(c, k, r)` with `r != 0`, and nothing else |
| Links.LoadKeyTypeLinks | src/util/data_module_v2.py:48-68 | the result has `len(lines) + #reverse` entries; the rows follow one another in the order the nodes were first used, each entry weighing `1.0 / len(neighbors)` of its own row; node `k`'s row is sorted and is the multiset of its neighbours; its weights sum to 1 iff it has any |
| Links.GroupLinks | src/util/data_module_v2.py:49-55 | after the loop the dict holds every insertion of the file: keys in first-use order, each row sorted with one entry per insertion under it |
| Links.GroupLine | src/util/data_module_v2.py:51-55 | one line adds its forward insertion and, with a nonzero flag, its reverse one, to the grouping |
| Links.LinkedRows | src/util/data_module_v2.py:49-64 | the grouped and flattened links satisfy all the facts above, row order and entry weights included, for every node |
| Links.LinkWeights | src/util/data_module_v2.py:60-63 | in a loaded link adjacency every entry weighs `1.0 / len(neighbors)` of its own node's row |
| Links.LinkRow | src/util/data_module_v2.py:49-64 | the same facts for one node `k` |
| Links.RowsInFirstUseOrder | src/util/data_module_v2.py:51-63 | rows follow first use, not node order: whatever meets the loader's contract for lines `1,0,0` then `0,5,0` is exactly the entries `[1, 0]` then `[0, 5]`, each with weight 1.0 |
| Links.TwoOutgoingLinks | src/util/data_module_v2.py:49-68 | whatever meets the loader's contract for lines `0,1,0` and `0,2,0` is exactly the entries `[0, 1]` and `[0, 2]`, each with weight 0.5 |
| Ratings.UserRowHoldsItems | src/util/data_module_v2.py:83 | user `u`'s consumed-items row holds exactly the items `u` rated, repeats kept |
| Ratings.ItemRowHoldsUsers | src/util/data_module_v2.py:85 | item `i`'s consumed-users row holds exactly the users who rated `i`, repeats kept |
| Ratings.ItemsMatchRatings | src/util/data_module_v2.py:79-81 | `user_items_dict[u]` and `ratings_by_user[u]` pair up entry by entry |
| Ratings.RatedUserHasRatings | src/util/data_module_v2.py:76-81 | a user is a key exactly when it has at least one rating line |
| Ratings.SortByItemSortsAndPermutes | src/util/data_module_v2.py:107-109 | the sorted list is ordered by item and is a permutation of the user's pairs |
| Ratings.SortByItemStable | src/util/data_module_v2.py:107-109 | pairs with the same item keep their file order (the sort is stable) |
| Ratings.SamplesShape | src/util/data_module_v2.py:118-123 | a user gets exactly `num_negatives` negatives, each in `[0, num_items)` |
| Ratings.SamplesPrefix | src/util/data_module_v2.py:118-123 | the `t`-th negative is the one drawn at oracle position `Cursor(t)`, whatever follows it |
| Ratings.SampleIsPositiveOnlyAfterTwoHits | src/util/data_module_v2.py:120-122 | a negative is one of the user's items only when both its draw and its single retry hit positives |
| Ratings.NegativeCanBePositive | src/util/data_module_v2.py:120-122 | the single retry does not exclude positives: items `[0]` with an oracle always drawing 0 give negative `[0]` |
| Ratings.GroupRatings | src/util/data_module_v2.py:75-85 | the loop builds `ratings_by_user` and `user_items_dict` with keys in first-line order and each user's lines in file order, plus both sorted-row groupings |
| Ratings.SortRatings | src/util/data_module_v2.py:107-109 | every user's list is replaced by its stable sort by item; keys and their order unchanged |
| Ratings.SampleUser | src/util/data_module_v2.py:118-123 | one user's `count` negatives are those taken from its oracle position on, and the position moves past every draw and retry |
| Ratings.SampleNegatives | src/util/data_module_v2.py:111-123 | each user of `user_items_dict`, in order, gets `count` negatives, all in range; the first user draws from oracle position 0 and each next user from where the previous one's draws and retries left off; no user with no ratings gets any |
| Ratings.SampleNext | src/util/data_module_v2.py:117-122 | one pass of the loop over the users keeps the loop's invariant: the next user gets its negatives from the position the previous user left the oracle at |
| Ratings.OracleStep | src/util/data_module_v2.py:117-122 | adding the next user, started where the previous one left off (or at 0 for the first), extends the chain of oracle positions |
| Ratings.LoadRatings | src/util/data_module_v2.py:70-136 | the split is grouped, flattened with rows in the order their keys first appear (user side `1/len(row)` per entry, item side 1.0), sorted and sampled, with `num_evaluate` negatives for the test split |
| Ratings.InsertionsCount | src/util/data_module_v2.py:76-85 | each line performs one insertion on each side |
| Ratings.RatingRow | src/util/data_module_v2.py:87-105 | one entry per line on each side; user `k`'s row sorted, holding `k`'s items, summing to 1 exactly when `k` rated something; item `k`'s row sorted, holding `k`'s users; every item-side weight 1.0 |
| Ratings.GroupedRatingRows | src/util/data_module_v2.py:87-105 | the same facts for every key at once, plus rows in first-line order of their keys on both sides, which is what a loaded split promises about its two adjacencies |
| Ratings.UserItemWeights | src/util/data_module_v2.py:89-92 | in a loaded split every user-side entry weighs `1.0 / len(items)` of its own user's row |
| Batches.ChunksCount | src/util/data_module_v2.py:142 | there are `ceil(len / size)` slices, and none for an empty list |
| Batches.ChunkSlices | src/util/data_module_v2.py:142 | slice `k` is `s[k*size : (k+1)*size]`, cut at the end |
| Batches.ChunkSizes | src/util/data_module_v2.py:142 | every slice is non-empty and at most `size` long; all but the last are exactly `size` |
| Batches.ChunksFlatten | src/util/data_module_v2.py:141-142 | the slices put back together are the list: nothing lost, repeated or reordered |
| Batches.RowsOfAppend | src/util/data_module_v2.py:150-163 | the rows of two user lists are the rows of each, one after the other |
| Batches.RowsAligned | src/util/data_module_v2.py:165-167 | the users, items and labels columns always have equal length |
| Batches.RowsUsers | src/util/data_module_v2.py:150-152 | every row belongs to a listed user that has ratings |
| Batches.BatchesJoin | src/util/data_module_v2.py:146-169 | the batches of all slices joined are the rows of all sliced users at once |
| Batches.RowsOfSameNegatives | src/util/data_module_v2.py:159 | rows depend on the negatives only through the `defaultdict` lookups |
| Batches.TouchAllFacts | src/util/data_module_v2.py:159 | the negatives lookups change no existing entry, add `[]` only for looked-up rated users lacking one (after the old keys), and change no lookup result |
| Batches.PositiveRowsCount | src/util/data_module_v2.py:204-210 | positive test rows number the users' ratings in total, columns aligned |
| Batches.BlocksPartition | src/util/data_module_v2.py:202-210 | the users' index blocks, in order, put together are exactly `0 .. N-1` |
| Batches.BlockRows | src/util/data_module_v2.py:204-210 | position `t` of user `i`'s block is a row of that user holding its `t`-th item and rating |
| Batches.OffsetPrefix | src/util/data_module_v2.py:209-210 | every user's block lies inside `0 .. N-1` |
| Batches.NegativeRowsBlocks | src/util/data_module_v2.py:226-236 | when each user has `count` negatives, the items reshaped by `count` are the users' negative lists in order, beside each user repeated |
| DataModuleV2.AppendUserRows | src/util/data_module_v2.py:153-163 | one user adds its pairs in list order, then its negatives labelled 0 |
| DataModuleV2.ChunkRows | src/util/data_module_v2.py:150-163 | a slice gives the rows of its rated users in order, and the lookups leave `TouchAll` behind |
| DataModuleV2.SliceBatches | src/util/data_module_v2.py:142 | `range` step 0 raises `ValueError`, a negative step gives no slices, a positive one the slices |
| DataModuleV2.NegativeChunkRows | src/util/data_module_v2.py:226-233 | a slice of test users gives each user's negatives beside that user, in user order |
| DataModuleV2.NegativeRowsSkip | src/util/data_module_v2.py:227-228 | a user without negatives adds no rows |
| DataModuleV2.ChunksRows | src/util/data_module_v2.py:146-169 | the slices give one batch each, in order, and the lookups leave `TouchAll` over all sliced users behind |
| DataModuleV2.IndexUserRows | src/util/data_module_v2.py:205-210 | one user's rows are appended and its positions `counter .. counter+n-1` are recorded under it |
| DataModuleV2.PositiveRows | src/util/data_module_v2.py:198-216 | the rows of every test user in load order, and each user mapped to its block of positions |
| DataModuleV2.PositiveRowsStep | src/util/data_module_v2.py:204-210 | one more user's pass appends exactly that user's rows to those built so far |
| DataModuleV2.LoadedSplitsValid | src/util/data_module_v2.py:113-123 | loaded splits are well formed and every test user has `num_evaluate` negatives |
| DataModuleV2.TrainBatchesCover | src/util/data_module_v2.py:141-169 | the training batches together are the rows of users `0 .. num_users-1`, each once, ascending |
| DataModuleV2.TrainBatchUsers | src/util/data_module_v2.py:141-152 | every row of batch `k` belongs to a rated user in `k*size .. (k+1)*size-1` below `num_users` |
| DataModuleV2.TestNegativeBatchRows | src/util/data_module_v2.py:219-238 | batch `k` carries slice `k` of the users; its items and users reshape to one row per user |
| DataModuleV2.PositiveIndexRows | src/util/data_module_v2.py:202-216 | every position in `user_index_dict[u]` is a row of `u` with the matching item and rating |
| DataModuleV2.TouchedRowsSame | src/util/data_module_v2.py:159 | the empty lists the lookups leave behind do not change the rows of a later call |
| DataModuleV2.DataModule.constructor | src/util/data_module_v2.py:17-21 | stores batch size, `num_negatives` and `num_evaluate` |
| DataModuleV2.DataModule.Load | src/util/data_module_v2.py:23-38 | both link adjacencies and the three splits are loaded as their loaders promise (row order and entry weights included), the test split with `num_evaluate` negatives |
| DataModuleV2.DataModule.LoadLinks | src/util/data_module_v2.py:32-33 | the user and item links are loaded; nothing else changes |
| DataModuleV2.DataModule.LoadSplits | src/util/data_module_v2.py:36-38 | the three splits are loaded and the invariant holds; only the split fields may change |
| DataModuleV2.DataModule.LoadTrain | src/util/data_module_v2.py:36 | the train split is what the ratings loader builds with `num_negatives` negatives; no other field changes |
| DataModuleV2.DataModule.LoadValidation | src/util/data_module_v2.py:37 | the validation split is what the ratings loader builds with `num_negatives` negatives; no other field changes |
| DataModuleV2.DataModule.LoadTest | src/util/data_module_v2.py:38 | the test split is what the ratings loader builds with `num_evaluate` negatives; no other field changes |
| DataModuleV2.DataModule.TrainDataBatchGenerator | src/util/data_module_v2.py:138-169 | batch size 0 raises `ValueError`, negative gives nothing, positive gives the batches of the user slices; train negatives gain `[]` for looked-up users only |
| DataModuleV2.DataModule.GetValidationData | src/util/data_module_v2.py:171-195 | the rows of every validation user with its train negatives; users absent from train get none and are added to the train negatives with `[]` |
| DataModuleV2.DataModule.GetTestDataPositive | src/util/data_module_v2.py:197-216 | the rows of every test user and the map from user to its contiguous block of positions |
| DataModuleV2.DataModule.GetTestDataNegative | src/util/data_module_v2.py:218-238 | the test-negative users sliced by batch size, each slice with its users' negatives; step 0 raises `ValueError` |
| DataModuleV1.LoadKeyTypeLinks | src/util/data_module.py:47-67 | the same link adjacency, returned as an `(indices, values)` pair: rows in first-use order of the nodes, each entry `1.0 / len(neighbors)`, each row sorted and holding the node's neighbours |
| DataModuleV1.BothSidesPerDegree | src/util/data_module.py:84-103 | both rating adjacencies have one entry per line, sorted rows with the right contents, and each row sums to 1 |
| DataModuleV1.GroupAndFlatten | src/util/data_module.py:71-103 | groups the lines per user and flattens both sides, rows in the order their keys first appear, each entry weighted `1/len(row)` of its own row, each row sorted with the right contents and summing to 1 |
| DataModuleV1.EntryWeightsV1 | src/util/data_module.py:86-99 | in a split of the first module every entry of both adjacencies weighs `1.0 / len(row)` of its own row |
| DataModuleV1.LoadRatingsAsWritten | src/util/data_module.py:69-119 | fails with `TypeError` exactly when the file has a line; only an empty file loads |
| DataModuleV1.LoadRatingsCorrected | src/util/data_module.py:69-119 | with the sort keyed by item, the split loads: pairs sorted by item, both sides laid out in first-appearance order of their keys with per-row `1/len(row)` weights |
| DataModuleV1.ItemRowsSumToOne | src/util/data_module.py:94-99 | every rated item's weights sum to 1 (unlike the 1.0 item weights of the second module) |
| DataModuleV1.Window | src/util/data_module.py:124 | the window is `batch_size` consecutive users from `bi*batch_size`, empty for a batch size of 0 or less |
| DataModuleV1.Present | src/util/data_module.py:129-131 | the kept users are window users that have ratings |
| DataModuleV1.PagesReachUser | src/util/data_module.py:141 | paging from 0 reaches every user's page, and every earlier page answers the next index |
| DataModuleV1.LastPageHoldsLastUser | src/util/data_module.py:141 | the page holding the last user answers -1 |
| DataModuleV1.WindowRows | src/util/data_module.py:125-134 | one row per rated window user, item and label its first and second pairs; `IndexError` iff a rated user has fewer than two pairs |
| DataModuleV1.DataModule.constructor | src/util/data_module.py:15-17 | stores the batch size |
| DataModuleV1.DataModule.Load | src/util/data_module.py:19-35 | both link adjacencies and the three splits loaded (with the corrected sort), row order and entry weights included |
| DataModuleV1.DataModule.LoadLinks | src/util/data_module.py:29-30 | both link adjacencies loaded; no other field changes |
| DataModuleV1.DataModule.LoadSplits | src/util/data_module.py:33-35 | the three splits loaded with the corrected sort; no other field changes |
| DataModuleV1.DataModule.GetTrainingBatch | src/util/data_module.py:121-143 | the rows of the window's rated users, and next index `bi+1` while the window ends below the last user, else -1; `IndexError` on an empty window or a short list |
| Evaluate.ComputeDcg | src/metrics/evaluate.py:13-21 | the sum over positions of `(2^rel - 1) / disc(i)`, 0 for an empty list |
| Evaluate.SumOfScores | src/metrics/evaluate.py:14-21 | summing the collected per-position scores gives the DCG |
| Evaluate.ComputeNdcg | src/metrics/evaluate.py:7-10 | 0 when the ideal DCG is 0, the ratio otherwise |
| Evaluate.SortDescBinary | src/metrics/evaluate.py:45 | `sorted(rel, reverse=True)` of a 0/1 list is its ones followed by its zeros |
| Evaluate.DescendingBinary | src/metrics/evaluate.py:45 | a 0/1 list already in descending order is its ones followed by its zeros |
| Evaluate.BinaryDcgBelowIdeal | src/metrics/evaluate.py:13-21 | the DCG of a 0/1 list lies between 0 and that of the same ones placed first |
| Evaluate.NdcgBounds | src/metrics/evaluate.py:7-10 | NDCG of a 0/1 list against its descending sort lies in [0, 1] |
| Evaluate.NdcgOfIdealRanking | src/metrics/evaluate.py:7-10 | a descending 0/1 list holding a 1 has NDCG exactly 1 |
| Evaluate.IdealNdcgIsOne | src/metrics/evaluate.py:7-10 | the ones-then-zeros list scored against itself has NDCG 1 |
| Evaluate.NdcgRelevantFirst | src/metrics/evaluate.py:7-21 | `[1, 0]` has NDCG 1 |
| Evaluate.NdcgRelevantSecond | src/metrics/evaluate.py:7-21 | `[0, 1]` has NDCG `disc(0) / disc(1)`, below 1 |
| Evaluate.ArgsortDescending | src/metrics/evaluate.py:35 | the result lists every index once, by non-increasing score; tie order is left open |
| Evaluate.Relevance | src/metrics/evaluate.py:36-42 | one 0/1 entry per ranked index |
| Evaluate.RelevanceScores | src/metrics/evaluate.py:36-42 | `IndexError` iff `top_k` passes the end of the ranking; otherwise entry `i` is 1 iff the `i`-th ranked index is a positive |
| Evaluate.RelevanceCountsPositives | src/metrics/evaluate.py:36-44 | the ones count the distinct positives among the ranked indices |
| Evaluate.HitsBounded | src/metrics/evaluate.py:36-44 | the hits are at most the number ranked and at most the number of positives |
| Evaluate.HitRateBounds | src/metrics/evaluate.py:31-44 | with a positive and `top_k >= 1` the hit rate lies in [0, 1] |
| Evaluate.MeanBounds | src/metrics/evaluate.py:47 | the mean of values in [0, 1] lies in [0, 1] |
| Evaluate.OnePositiveRankedFirst | src/metrics/evaluate.py:29-45 | one positive scored 0.9 against negatives 0.1 and 0.2 with `top_k = 2`: the only ranking is `[0, 2, 1]`, and hit rate and NDCG are both 1 |
| Evaluate.EvaluateUser | src/metrics/evaluate.py:29-45 | fails with the first error the code meets (bad index, no positives, user missing from the negatives, `top_k` too large); otherwise ranks the positives then negatives and scores the top `top_k` |
| Evaluate.EvaluateHitRateAndNdcg | src/metrics/evaluate.py:24-47 | every user in index order is scored by some descending ranking; the first failing user decides the error; otherwise the means of the per-user hit rates and NDCGs |
| Evaluate.EvaluationBounds | src/metrics/evaluate.py:24-47 | a completed evaluation over at least one user with `top_k >= 1` gives a mean hit rate and a mean NDCG in [0, 1] |

## Left out

- File reading, line parsing and malformed-line errors. The loaders take already-parsed `(a, b, r)` and `(user, item, rating)` lines.
- `np.load` of the embeddings and `json.load` of the maps. `len(user_map)` and `len(item_map)` are parameters of `Load`.
- The numpy conversions `np.array(...).astype(...)` and `np.reshape(..., [-1, 1])`. Columns are plain sequences, and `int64` / `float32` rounding is not modelled.
- Weights are exact reals. `1.0 / len(row)` in `float32` need not sum to exactly 1.
- `np.random.randint`: an oracle of draws per split stands in for the global random stream, which runs on from split to split.
- Generator laziness. A generator is its whole list of yields; the negatives lookups that happen while it is consumed are applied all at once.
- `AttributeError` from calling a generator before `load()`. The class's fields always exist in the model.
- The `Tuple(npt.ArrayLike, npt.ArrayLike)` return annotation of the first module's `__load_key_type_links__`. It calls `typing.Tuple`, which would raise while the class is being defined; the model treats the module as importable.
- DataModuleV1.DataModule.Load: stores the validation split as `validationData`; the source's attribute is spelled `validataion_data`, which no modelled member reads.
- DataModuleV1.DataModule.Load: loads every split with the corrected sort (`DataModuleV1.LoadRatingsCorrected`). As written, the source's `load()` raises `TypeError` at src/util/data_module.py:107 on the first non-empty ratings file (see Findings); only `DataModuleV1.LoadRatingsAsWritten` models that.
- Ratings.LoadRatings: requires every oracle draw to lie in `[0, num_items)`, which no oracle can meet when `num_items` is 0. With an empty item map the source still loads a split that draws nothing (no users, or 0 negatives) and raises `ValueError` from `np.random.randint(0)` on the first draw otherwise; neither outcome is modelled. The same requirement reaches `DataModuleV2.DataModule.Load` and its split loaders.
- DataModuleV2.DataModule.constructor: `num_negatives` and `num_evaluate` are `nat`. A negative count gives no negatives in the source too (`range` of a negative is empty), so this only excludes values that behave like 0.
- DataModuleV2.DataModule.constructor: takes all three arguments; the defaults `num_negatives=8`, `num_evaluate=1000` and `batch_size=32` are not modelled.
- DataModuleV1.DataModule.constructor: takes the batch size; the default `batch_size=32` is not modelled.
- DataModuleV1.DataModule.GetTrainingBatch: takes the batch index; the default `batch_index=0` is not modelled.
- Evaluate.ArgsortDescending: any descending order of the indices is accepted. `np.argsort`'s particular tie order is not modelled.
- Evaluate.ComputeDcg: `log2(i + 2)` is an abstract positive, strictly increasing discount, and floats are reals.
- Evaluate.EvaluateUser: `positive_ratings` is taken as one prediction per row, so `np.concatenate` of the gathered rows is the list of those predictions. Other shapes are not modelled.
- DataModuleV1.DataModule.GetTrainingBatch: `nextBatchIndex` is stated for a positive batch size. Otherwise the method fails before computing it.
- The TensorFlow model, training loop, CLI, logging, plotting and run-script generation are not part of this model.

## Findings

| source | as written | input that shows it | evidently intended | confidence | as-written member | corrected member |
|---|---|---|---|---|---|---|
| src/util/data_module.py:106-107 | `value.sort(lambda v: v[0])` passes the key positionally; `list.sort` accepts only keyword arguments, so it raises `TypeError` for the first user | a ratings file with the single line `0,0,1` | `value.sort(key=lambda v: v[0])`, each user's pairs sorted by item | high (follows from the `list.sort` signature; not executed) | DataModuleV1.LoadRatingsAsWritten | DataModuleV1.LoadRatingsCorrected |
