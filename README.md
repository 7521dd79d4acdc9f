# Fairness-aware group recommendations, modelled in Dafny

This project models the recommendation engine of *fairness-group-recommendations*, a
collaborative-filtering recommender that recommends items to single users and to groups of
users. The model has two layers.

**Single-user layer.** It covers both versions of the rating index:
- the first assignment's index rescans the rating rows;
- the final index precomputes one dictionary per user.

On top of the index sit:
- the Jaccard and Pearson user similarities, and a memoising similarity;
- the similarity statistics: the most similar users and the full similarity matrix;
- the mean-centred neighbourhood predictors, with and without absolute values in the denominator, and the first assignment's predictor;
- the recommenders and performance evaluators of both versions.

**Group layer.** It covers:
- the average aggregation of the members' relevances;
- the average pairwise disagreement;
- the consensus predictor;
- the group recommender that can exclude items it recommended before;
- the recommendations log;
- user satisfaction;
- the multi-iteration hybrid of average and least misery;
- the sequential group recommender.

A CSV result saver completes the picture.

**How Python is modelled.**
- Ratings are `real`.
- A dictionary built from rows keeps the rating of the last row for each key. `Ratings` is the reference for this.
- `list.sort(key=…, reverse=True)` is a stable descending insertion sort (`Ranking.SortDesc`).
- `xs[:k]` and `xs[-k:]` follow Python's slice rules for negative and oversized bounds (`Common.PySlice`, `Common.PySliceFrom`).
- `list(set(…))` has no order the program relies on. A method that turns a set into a list returns *some* enumeration of the set (`Common.Enumerates`), and every contract built on it holds for every order.
- Predictors and similarities are function-valued parameters.
- Objects the source updates in place are classes:
  - the memo tables of `MeanCenteredPrediction` and `CachedSimilarity`;
  - the previous-recommendation table of `GroupRecommender`;
  - the log of `RecommendationsLog`;
  - the per-user cache of `UserSatisfaction`;
  - the list of writes of `CsvResultSaver`.
- Division by zero and `max` of an empty list are Python exceptions. Where the source can reach them they are `Result` values (`Err(ZeroDivisionError)`, `Err(ValueError)`). A `KeyError` on a user unknown to the dataset is a precondition.

## Model

| member | source | states |
|---|---|---|
| Common.PySlice | fairness-group-recommendations/src/app/domain/recommender.py:20 | `xs[:k]` is the prefix of Python's length: `min(k, n)` for `k >= 0`, `max(0, n + k)` for negative `k` |
| Common.PySliceFrom | fairness-group-recommendations/src/app/domain/sequential_group/prediction/multi_iter_sequential_hybrid_aggregation.py:32 | `xs[k:]` is a suffix of length `max(0, n - k)` for `k >= 0` and `min(-k, n)` for negative `k` |
| Common.SliceEnd | fairness-group-recommendations/src/app/domain/dataset.py:82-83 | definition of where a Python slice `[:k]` ends, for positive, negative and oversized `k`; PySlice and PySliceFrom state the slice lengths |
| Common.Enumerate | fairness-group-recommendations/src/app/domain/dataset.py:61-65 | `list(some_set)` lists every element of the set exactly once |
| Common.Distinct | fairness-group-recommendations/src/app/domain/dataset.py:100-104 | `list(set(xs))` enumerates the elements of `xs`, without repeats |
| Common.EnumerationSize | fairness-group-recommendations/src/app/domain/dataset.py:100-101 | a list enumerating a set without repeats is as long as the set |
| Common.MeanBounds | fairness-group-recommendations/src/app/domain/dataset.py:78 | a mean lies between the least and the greatest value averaged |
| Common.SumPermutation | fairness-group-recommendations/src/app/domain/average_aggregation.py:20 | a sum does not depend on the order of its terms |
| Common.MapPermutation | fairness-group-recommendations/src/app/domain/prediction/mean_centered.py:88 | mapping a function over two permutations of a list gives permutations of each other |
| Ratings.LastRatingIsLastRow | fairness-group-recommendations/src/app/domain/dataset.py:92-96 | a (user, item) pair has a rating iff the user rated the item, and the rating is that of the last row for the pair |
| Ratings.RatingsMapIsLastRating | fairness-group-recommendations/assignment-01/src/app/domain/dataset.py:25-29 | the dictionary built by the row scan has the user's rated items as keys and the last row's rating as values |
| Ratings.UserRatingsOfIsLastRating | fairness-group-recommendations/src/app/domain/dataset.py:92-96 | the per-user insertion-ordered dictionary has distinct keys, exactly the rated items, and maps each to its last rating |
| Ratings.UsersWhoRatedInRowOrder | fairness-group-recommendations/src/app/domain/dataset.py:54-59 | the raters of an item are listed in row order: the raters of two row lists concatenate |
| Ratings.UserRowsInRowOrder | fairness-group-recommendations/assignment-01/src/app/domain/dataset.py:58-60 | a user's rows are listed in row order: the lists of two row lists concatenate |
| Ratings.UsersWhoRatedMembers | fairness-group-recommendations/src/app/domain/dataset.py:54-59 | `(u, r)` is a listed rater of item `i` iff the row `(u, i, r)` is in the data |
| Ratings.UserRowsMembers | fairness-group-recommendations/assignment-01/src/app/domain/dataset.py:58-60 | `(i, r)` is listed for user `u` iff the row `(u, i, r)` is in the data |
| Ratings.RowRatingsNonEmpty | fairness-group-recommendations/assignment-01/src/app/domain/dataset.py:79-84 | a known user has at least one rating, so the mean divides by a positive count |
| Ratings.DictValuesAreRowRatings | fairness-group-recommendations/src/app/domain/dataset.py:77-78 | without repeated items the dictionary's values are the user's row ratings in order |
| Ratings.RatedItemsSnoc | fairness-group-recommendations/src/app/domain/dataset.py:99-104 | one row more adds at most its own item to its user's rated items |
| Ratings.UsersItemsSnoc | fairness-group-recommendations/src/app/domain/dataset.py:100-104 | one row more adds exactly its user and its item to the known users and items |
| PyDict.Get | fairness-group-recommendations/src/app/domain/dataset.py:86 | a lookup finds a value iff the key is stored, and the value is stored under it |
| PyDict.GetOr | fairness-group-recommendations/src/app/domain/dataset.py:86 | `d.get(k, default)` is the stored value when the key is present and the default otherwise |
| PyDict.Put | fairness-group-recommendations/src/app/domain/dataset.py:92-96 | storing adds the key to the keys; a new key is appended at the end; an existing key leaves the length unchanged |
| PyDict.PutInPlace | fairness-group-recommendations/src/app/domain/dataset.py:92-96 | storing under a key already present keeps every key in its place and changes only that key's value |
| PyDict.GetPut | fairness-group-recommendations/src/app/domain/dataset.py:92-96 | after storing `v` under `k`, `k` reads `v` and every other key reads as before |
| PyDict.PutDistinct | fairness-group-recommendations/src/app/domain/dataset.py:92-96 | storing keeps the keys distinct |
| PyDict.Values | fairness-group-recommendations/src/app/domain/dataset.py:77 | definition of `d.values()`: the stored values in insertion order |
| PyDict.UpdatesEntries | fairness-group-recommendations/src/app/domain/recommender.py:59-67 | a dict built from key/value pairs has exactly the listed keys, each bound to the value of its last pair |
| PyDict.UpdatesMapped | fairness-group-recommendations/src/app/domain/recommender.py:59-67 | a dict comprehension applying `f` to each pair binds each key to `f` of the value the plain dict would hold |
| RatingIndex.ComputeUserRatings | fairness-group-recommendations/src/app/domain/dataset.py:88-98 | the precomputed table has one entry per known user, holding that user's insertion-ordered dictionary |
| RatingIndex.ComputeAverageUserRatings | fairness-group-recommendations/src/app/domain/dataset.py:73-80 | every known user's average is the mean of the values of that user's dictionary, over a non-empty dictionary |
| RatingIndex.NewDataset | fairness-group-recommendations/src/app/domain/dataset.py:12-14 | construction precomputes tables that are consistent with the rows |
| RatingIndex.Len | fairness-group-recommendations/src/app/domain/dataset.py:16-17 | definition of `len(ds)`: the number of rows |
| RatingIndex.GetFirst | fairness-group-recommendations/src/app/domain/dataset.py:82-83 | `get_first(limit)` is the prefix `data[:limit]`, negative limits included |
| RatingIndex.GetRating | fairness-group-recommendations/src/app/domain/dataset.py:85-86 | the rating of a pair is its last row's rating, and 0 for an item the user did not rate |
| RatingIndex.GetAverageRatingByUser | fairness-group-recommendations/src/app/domain/dataset.py:22-23 | the average is the sum of the dictionary's values over the number of distinct rated items, and the plain row mean when no item repeats |
| RatingIndex.RowsWithoutRepeats | fairness-group-recommendations/src/app/domain/dataset.py:77-78 | without repeated items the dictionary's values are the row ratings |
| RatingIndex.GetRatingsByUser | fairness-group-recommendations/src/app/domain/dataset.py:51-52 | the user's pairs have distinct items, exactly the rated ones, each with its last rating |
| RatingIndex.GetUsersWhoRated | fairness-group-recommendations/src/app/domain/dataset.py:54-59 | the raters list is the item's rows in row order, repetitions included (UsersWhoRatedInRowOrder); it has exactly the rows of the item; an unknown item has none |
| RatingIndex.GetAllUsers | fairness-group-recommendations/src/app/domain/dataset.py:67-68 | the user list names every known user once |
| RatingIndex.GetAllItems | fairness-group-recommendations/src/app/domain/dataset.py:70-71 | the item list names every known item once |
| RatingIndex.GetItemsNotRatedByUser | fairness-group-recommendations/src/app/domain/dataset.py:61-65 | lists exactly the known items the user did not rate, each of which has rating 0 |
| RatingIndex.GetItemsRatedByBoth | fairness-group-recommendations/src/app/domain/dataset.py:25-36 | keys are the items both users rated, values the two ratings |
| RatingIndex.GetItemsRatedByAny | fairness-group-recommendations/src/app/domain/dataset.py:38-49 | keys are the items either user rated, values the two ratings with 0 for a missing one |
| RatingIndex.DistinctKeyLookup | fairness-group-recommendations/src/app/domain/dataset.py:34 | in a dictionary with distinct keys, a listed pair is what a lookup of its key returns |
| RatingIndex.KnownUserHasRatings | fairness-group-recommendations/src/app/domain/dataset.py:78 | a known user's dictionary is non-empty, so the average never divides by zero |
| RatingIndexV1.ComputeAverageUserRatings | fairness-group-recommendations/assignment-01/src/app/domain/dataset.py:75-86 | every known user's average is the mean of all that user's row ratings, repetitions included |
| RatingIndexV1.NewDataset | fairness-group-recommendations/assignment-01/src/app/domain/dataset.py:12-14 | construction yields averages that are consistent with the rows |
| RatingIndexV1.GetAverageRatingByUser | fairness-group-recommendations/assignment-01/src/app/domain/dataset.py:19-20 | the average is the row mean over a non-empty list of ratings |
| RatingIndexV1.AverageWithinRatings | fairness-group-recommendations/assignment-01/src/app/domain/dataset.py:84 | a user's average lies between that user's lowest and highest rating |
| RatingIndexV1.ScanPair | fairness-group-recommendations/assignment-01/src/app/domain/dataset.py:23-29 | the single scan gives the first user's last ratings and, through the `elif`, the second user's only when the users differ |
| RatingIndexV1.ElifRatingsMapIsSecondUser | fairness-group-recommendations/assignment-01/src/app/domain/dataset.py:25-29 | the `elif` branch collects the second user's ratings, and nothing when both users are the same |
| RatingIndexV1.RatedByBothMeaning | fairness-group-recommendations/assignment-01/src/app/domain/dataset.py:31-38 | for two different users the keys are the common items; for a user paired with itself the result is empty; values are both ratings |
| RatingIndexV1.RatedByAnyMeaning | fairness-group-recommendations/assignment-01/src/app/domain/dataset.py:49-56 | keys are the items either rated; the second rating is 0 when missing and always 0 for a user paired with itself |
| RatingIndexV1.GetItemsRatedByBoth | fairness-group-recommendations/assignment-01/src/app/domain/dataset.py:22-38 | the scan, intersection and loop compute the common-items reference map |
| RatingIndexV1.GetItemsRatedByAny | fairness-group-recommendations/assignment-01/src/app/domain/dataset.py:40-56 | the scan, union and loop compute the any-items reference map |
| RatingIndexV1.GetRatingsByUser | fairness-group-recommendations/assignment-01/src/app/domain/dataset.py:58-60 | lists exactly the user's rows, in row order (UserRowsInRowOrder), repetitions included, with the ratings the average is taken over |
| RatingIndexV1.UserRowsAreRowRatings | fairness-group-recommendations/assignment-01/src/app/domain/dataset.py:58-60 | the listed ratings are the row ratings that the average is taken over |
| RatingIndexV1.GetUsersWhoRated | fairness-group-recommendations/assignment-01/src/app/domain/dataset.py:62-67 | the raters list is the item's rows in row order, repetitions included (UsersWhoRatedInRowOrder); it has exactly the item's rows, all of known users |
| RatingIndexV1.GetItemsNotRatedByUser | fairness-group-recommendations/assignment-01/src/app/domain/dataset.py:69-73 | lists exactly the known items the user did not rate |
| Jaccard.Ratio | fairness-group-recommendations/assignment-01/src/app/domain/similarity/jaccard.py:16 | an overlap ratio lies in [0, 1]: 0 with no common items, 1 when the common items are all items |
| Jaccard.GetSimilarity | fairness-group-recommendations/assignment-01/src/app/domain/similarity/jaccard.py:9-16 | the similarity lies in [0, 1] and is 0 when neither user rated anything |
| Jaccard.SimilarityIsOverlap | fairness-group-recommendations/assignment-01/src/app/domain/similarity/jaccard.py:15-16 | for two users it is the size of the intersection of their rated items over the size of the union |
| Jaccard.Symmetric | fairness-group-recommendations/assignment-01/src/app/domain/similarity/jaccard.py:9-16 | the similarity of `a` and `b` equals that of `b` and `a` |
| Jaccard.SameItemsGiveOne | fairness-group-recommendations/assignment-01/src/test/domain/TestJaccardSimilarity.py:24 | two different users with the same non-empty rated items have similarity 1 |
| Jaccard.DisjointItemsGiveZero | fairness-group-recommendations/assignment-01/src/test/domain/TestJaccardSimilarity.py:26 | users without a common item have similarity 0 |
| Jaccard.NoCommonItems | fairness-group-recommendations/assignment-01/src/app/domain/similarity/jaccard.py:15-16 | an empty common-items map makes the similarity 0 |
| Jaccard.SelfSimilarityIsZero | fairness-group-recommendations/assignment-01/src/app/domain/dataset.py:25-29 | a user compared with itself scores 0, because the `elif` scan leaves the second map empty |
| Pearson.GetSimilarity | fairness-group-recommendations/assignment-01/src/app/domain/similarity/pearson.py:10-39 | a user's correlation with itself is 1 |
| Pearson.Formula | fairness-group-recommendations/assignment-01/src/app/domain/similarity/pearson.py:19-39 | for two different users with positive sums of squares over the common items, the similarity is `Normalised`: the covariance sum around each user's overall mean divided by `sqrt` of the product of the two sums of squares |
| Pearson.NoCommonItemsGiveZero | fairness-group-recommendations/assignment-01/src/app/domain/similarity/pearson.py:36-37 | different users without a common item correlate 0 |
| Pearson.FlatRatingsGiveZero | fairness-group-recommendations/assignment-01/src/app/domain/similarity/pearson.py:36-37 | if one user rates every common item at their own mean, the correlation is 0 |
| Pearson.Symmetric | fairness-group-recommendations/assignment-01/src/app/domain/similarity/pearson.py:10-39 | the correlation of `a` and `b` equals that of `b` and `a` |
| Pearson.SwappedCommonItems | fairness-group-recommendations/assignment-01/src/app/domain/dataset.py:22-38 | swapping two different users keeps the common items and swaps the rating pairs |
| Pearson.SwappedSums | fairness-group-recommendations/assignment-01/src/app/domain/similarity/pearson.py:19-34 | swapping the rating pairs keeps the numerator and exchanges the two sums of squares |
| Pearson.SquaresFirst | fairness-group-recommendations/assignment-01/src/app/domain/similarity/pearson.py:24-28 | a sum of squared deviations is non-negative |
| CachedSimilarity.CachedSimilarity.constructor | fairness-group-recommendations/assignment-01/src/app/domain/similarity/cached.py:7-10 | the memo starts empty and the wrapped similarity has not been asked |
| CachedSimilarity.CachedSimilarity.GetSimilarity | fairness-group-recommendations/assignment-01/src/app/domain/similarity/cached.py:12-24 | a hit on the pair or the reversed pair returns the stored value and changes nothing; a double miss asks once and stores under the given pair; every stored value is the wrapped similarity of its pair |
| CachedSimilarity.AskBothOrders | fairness-group-recommendations/assignment-01/src/app/domain/similarity/cached.py:12-24 | asking `(a, b)` then `(b, a)` gives the same answer and asks the wrapped similarity at most once |
| SimilarityStats.Others | fairness-group-recommendations/src/app/domain/similarity/stats.py:12 | the other users are the listed users except the given one |
| SimilarityStats.OthersNoDuplicates | fairness-group-recommendations/src/app/domain/similarity/stats.py:12 | filtering a list without repeats keeps it without repeats |
| SimilarityStats.GetMostSimilarUsers | fairness-group-recommendations/src/app/domain/similarity/stats.py:11-20 | the result is a top-`limit` selection, by similarity, of the other known users, each with its similarity; it has `min(limit, users - 1)` entries |
| SimilarityStats.GetUserSimilarityMatrix | fairness-group-recommendations/src/app/domain/similarity/stats.py:22-28 | the matrix has an entry for exactly every ordered pair of known users, self-pairs included, holding its similarity |
| SimilarityStats.FillMatrix | fairness-group-recommendations/src/app/domain/similarity/stats.py:25-27 | the nested loops fill every ordered pair of the listed users, `n * n` entries |
| SimilarityStats.FillRow | fairness-group-recommendations/src/app/domain/similarity/stats.py:26-27 | the inner loop adds the row of one user and leaves earlier rows unchanged |
| Ranking.SortDescFacts | fairness-group-recommendations/src/app/domain/recommender.py:18 | `sort(key, reverse=True)` yields a descending permutation in which equal keys keep their order |
| Ranking.SortDescSorted | fairness-group-recommendations/src/app/domain/recommender.py:18 | the sorted list is descending by key |
| Ranking.SortDescPermutes | fairness-group-recommendations/src/app/domain/recommender.py:18 | the sorted list is a permutation of the input |
| Ranking.SortDescStable | fairness-group-recommendations/src/app/domain/recommender.py:18 | for each key value, the entries with that key keep their input order |
| Ranking.SortDescLength | fairness-group-recommendations/src/app/domain/recommender.py:18 | sorting keeps the length |
| Ranking.InsertAt | fairness-group-recommendations/src/app/domain/recommender.py:18 | an insertion places the new entry after every entry with a key at least as large |
| Ranking.InsertMultiset | fairness-group-recommendations/src/app/domain/recommender.py:18 | an insertion adds exactly the new entry |
| Ranking.InsertSorted | fairness-group-recommendations/src/app/domain/recommender.py:18 | inserting into a descending list keeps it descending |
| Ranking.InsertWithScore | fairness-group-recommendations/src/app/domain/recommender.py:18 | an insertion puts the new entry after every entry with the same key |
| Ranking.WithScoreAppend | fairness-group-recommendations/src/app/domain/recommender.py:18 | selecting the entries with a given key distributes over concatenation |
| Ranking.WithScorePrefix | fairness-group-recommendations/src/app/domain/recommender.py:20 | the entries with a given key in a prefix start the entries with that key in the whole list |
| Ranking.AllBelow | fairness-group-recommendations/src/app/domain/recommender.py:18 | a descending list whose first key is below `v` has no entry with key `v` |
| Ranking.PrefixDominates | fairness-group-recommendations/src/app/domain/recommender.py:18-20 | in a descending list, everything kept by a prefix scores at least as high as everything cut off |
| Ranking.PrefixMultiset | fairness-group-recommendations/src/app/domain/recommender.py:20 | a prefix takes entries of the list only |
| Ranking.TopOfSorted | fairness-group-recommendations/src/app/domain/recommender.py:18-20 | sort-then-slice is a top selection: sorted, drawn from the input, of Python's slice length, dominating what it leaves out |
| Ranking.Scored | fairness-group-recommendations/src/app/domain/recommender.py:14-17 | definition of the `(item, score)` comprehension, in key order; TopScored states the ranking |
| Ranking.TopScored | fairness-group-recommendations/src/app/domain/recommender.py:14-20 | the score-sort-slice pipeline is a top selection of scored keys of length `min(limit, n)`, each pair carrying its own score |
| Neighborhood.Predict | fairness-group-recommendations/src/app/domain/prediction/mean_centered.py:32-54 | with no neighbours, or a zero denominator, the prediction is the user's mean |
| Neighborhood.AbsDenominator | fairness-group-recommendations/src/app/domain/prediction/mean_centered.py:34-35 | the absolute denominator is non-negative, and 0 exactly when every similarity is 0 |
| Neighborhood.UnrelatedNeighborsGiveMean | fairness-group-recommendations/src/app/domain/prediction/mean_centered.py:39-43 | neighbours all of similarity 0 give the user's mean |
| Neighborhood.ZeroSimilaritiesGiveZeroDenominator | fairness-group-recommendations/src/app/domain/prediction/mean_centered.py:34-37 | similarities all 0 give a zero denominator in either form |
| Neighborhood.AbsAndRawAgree | fairness-group-recommendations/src/app/domain/prediction/mean_centered.py:34-37 | with non-negative similarities the two denominators, and so the two predictions, are equal |
| Neighborhood.WeightedDeviationBounds | fairness-group-recommendations/src/app/domain/prediction/mean_centered.py:46-49 | with non-negative weights, the weighted deviation sum lies between the least and greatest deviation times the weight sum |
| Neighborhood.PredictionWithinDeviations | fairness-group-recommendations/src/app/domain/prediction/mean_centered.py:44-54 | with non-negative similarities the prediction is the user's mean moved by at most the neighbours' extreme deviations |
| Neighborhood.SingleNeighbor | fairness-group-recommendations/src/app/domain/prediction/mean_centered.py:44-54 | one neighbour moves the mean by its deviation, reversed when the absolute denominator meets a negative similarity |
| Neighborhood.DenominatorAppend | fairness-group-recommendations/src/app/domain/prediction/mean_centered.py:34-49 | both sums split over concatenated neighbour lists |
| Neighborhood.PermutationInvariant | fairness-group-recommendations/src/app/domain/prediction/mean_centered.py:44-54 | the prediction does not depend on the order of the neighbours |
| Neighborhood.SumsPermutationInvariant | fairness-group-recommendations/src/app/domain/prediction/mean_centered.py:34-49 | the denominator and the weighted sum do not depend on the order of the neighbours |
| Neighborhood.ZeroDeviationsGiveMean | fairness-group-recommendations/src/app/domain/prediction/mean_centered.py:44-54 | neighbours who all rate at their own mean give the user's mean |
| Neighborhood.NoDeviationNoWeight | fairness-group-recommendations/src/app/domain/prediction/mean_centered.py:46-49 | zero deviations give a zero weighted sum |
| MeanCentered.RatersOf | fairness-group-recommendations/src/app/domain/prediction/mean_centered.py:61-73 | the all-neighbours list has one entry for each row of the item, the user's own included, with its similarity to the user |
| MeanCentered.Candidates | fairness-group-recommendations/src/app/domain/prediction/mean_centered.py:75-85 | the bounded candidates are every other known user, with that user's rating of the item (0 if unrated) and similarity |
| MeanCentered.Rated | fairness-group-recommendations/src/app/domain/prediction/mean_centered.py:92-96 | the filter keeps exactly the neighbours with a non-zero rating |
| MeanCentered.ClosestRaters | fairness-group-recommendations/src/app/domain/prediction/mean_centered.py:74-99 | the bounded neighbours are the raters among a top-`k` selection of the candidates by similarity, at most `k` of them |
| MeanCentered.GetNeighborsSimilarities | fairness-group-recommendations/src/app/domain/prediction/mean_centered.py:60-99 | `ALL_NEIGHBORS` (-1) selects every rater of the item, any other count the closest raters; all are known users |
| MeanCentered.Terms | fairness-group-recommendations/src/app/domain/prediction/mean_centered.py:23-30 | definition of the neighbour terms: each neighbour's similarity and its rating's deviation from its own mean, in neighbour order; TermsPermutation states their order independence |
| MeanCentered.TermsPermutation | fairness-group-recommendations/src/app/domain/prediction/mean_centered.py:23-30 | permuted neighbours give permuted terms |
| MeanCentered.Prediction | fairness-group-recommendations/src/app/domain/prediction/mean_centered.py:17-58 | without neighbours the prediction is the user's mean |
| MeanCentered.UnratedItemGivesMean | fairness-group-recommendations/src/app/domain/prediction/mean_centered.py:39-43 | an item nobody rated is predicted at the user's mean |
| MeanCentered.NoOtherRaterGivesMean | fairness-group-recommendations/src/app/domain/prediction/mean_centered.py:92-96 | with bounded neighbours, an item no other user rated is predicted at the user's mean |
| MeanCentered.AbsOnlyMattersForNegativeSimilarities | fairness-group-recommendations/src/app/domain/prediction/mean_centered.py:34-37 | with non-negative similarities `use_absolute_value` makes no difference |
| MeanCentered.BoundedExampleFromFacts | fairness-group-recommendations/src/test/domain/TestMeanCenteredPrediction.py:29-49 | in the one-neighbour example the closest rater moves user 1's mean 5 by -1 |
| MeanCentered.ExampleCandidates | fairness-group-recommendations/src/test/domain/TestMeanCenteredPrediction.py:29-49 | the example's candidates are users 2 and 3 with their ratings and similarities |
| MeanCentered.ExampleClosest | fairness-group-recommendations/src/test/domain/TestMeanCenteredPrediction.py:29-49 | with one neighbour the example keeps only user 2 |
| MeanCentered.ExampleRatings | fairness-group-recommendations/src/test/domain/TestMeanCenteredPrediction.py:29-49 | the example's ratings of item 2 are 3 by user 2 and 5 by user 3 |
| MeanCentered.ExampleDictionaries | fairness-group-recommendations/src/test/domain/TestMeanCenteredPrediction.py:29-49 | the example's per-user dictionaries, built from its rows |
| MeanCentered.MeanCenteredPrediction.constructor | fairness-group-recommendations/src/app/domain/prediction/mean_centered.py:10-15 | a new predictor has an empty memo |
| MeanCentered.MeanCenteredPrediction.GetPrediction | fairness-group-recommendations/src/app/domain/prediction/mean_centered.py:17-58 | the answer always equals the reference prediction; a stored non-zero value is returned as is, otherwise it is computed and stored; every stored value stays correct |
| MeanCentered.ComputePrediction | fairness-group-recommendations/src/app/domain/prediction/mean_centered.py:21-54 | the computing part of `get_prediction` yields the reference prediction |
| MeanCenteredNoAbs.ClosestNeighbors | fairness-group-recommendations/src/app/domain/prediction/mean_centered_no_abs.py:19-41 | bounded: the closest raters; all neighbours: every other user, raters or not, sorted by similarity |
| MeanCenteredNoAbs.Prediction | fairness-group-recommendations/src/app/domain/prediction/mean_centered_no_abs.py:18-73 | without neighbours the prediction is the user's mean |
| MeanCenteredNoAbs.BoundedIsMeanCenteredWithoutAbs | fairness-group-recommendations/src/app/domain/prediction/mean_centered_no_abs.py:32-39 | with a neighbour bound it predicts what the mean-centred predictor predicts without absolute values |
| MeanCenteredNoAbs.AllNeighborsIgnoresRanking | fairness-group-recommendations/src/app/domain/prediction/mean_centered_no_abs.py:30 | with all neighbours, the sort has no effect on the prediction |
| MeanCenteredNoAbs.AllNeighborsCountsNonRaters | fairness-group-recommendations/src/app/domain/prediction/mean_centered_no_abs.py:40-41 | with all neighbours, a user who did not rate the item still takes part, with rating 0 |
| MeanCenteredNoAbs.LoneNonRater | fairness-group-recommendations/src/app/domain/prediction/mean_centered_no_abs.py:40-71 | a sole neighbour who did not rate the item moves the mean by minus its own mean |
| MeanCenteredNoAbs.TermOfMember | fairness-group-recommendations/src/app/domain/prediction/mean_centered_no_abs.py:43-50 | each neighbour's term is among the terms |
| Recommender.GetRecommendations | fairness-group-recommendations/src/app/domain/recommender.py:12-20 | returns a top-`limit` selection of the unrated items by prediction, each once with its prediction, `min(limit, unrated)` of them |
| Recommender.ExampleRecommendations | fairness-group-recommendations/src/test/domain/TestRecommender.py:10-24 | two unrated items predicted 1 and 5 come back as item 2 then item 1 |
| Recommender.AbsoluteError | fairness-group-recommendations/src/app/domain/recommender.py:37-39 | the error is non-negative, is the distance between the two values, and is 0 iff the prediction is exact |
| Recommender.Errors | fairness-group-recommendations/src/app/domain/recommender.py:48 | lists each prediction's absolute error |
| Recommender.MeanAbsoluteError | fairness-group-recommendations/src/app/domain/recommender.py:46-48 | the mean error is non-negative and lies between the least and the greatest error |
| Recommender.ExactPredictionsHaveNoError | fairness-group-recommendations/src/app/domain/recommender.py:46-48 | exact predictions have mean error 0 |
| Recommender.ExampleMeanAbsoluteError | fairness-group-recommendations/src/test/domain/TestPerformanceEvaluator.py:9-34 | errors 1, 1, 1 and 0 average to 0.75 |
| Recommender.EvaluationOf | fairness-group-recommendations/src/app/domain/recommender.py:59-68 | one entry per rated item, with its last rating and the predictor's value |
| Recommender.Evaluations | fairness-group-recommendations/src/app/domain/recommender.py:58-69 | definition of the list of evaluations, one per named predictor in list order; GetComparisonByUser states the dict built from it |
| Recommender.GetComparisonByUser | fairness-group-recommendations/src/app/domain/recommender.py:55-70 | the result maps each predictor name to its evaluation, a later entry with the same name winning |
| Recommender.PredictorNames | fairness-group-recommendations/src/app/domain/recommender.py:82-84 | definition of the list of predictor names, in order |
| Recommender.GetAllPredictions | fairness-group-recommendations/src/app/domain/recommender.py:72-80 | every known user gets every known item paired with its prediction |
| Recommender.AllPredictionsCoverItems | fairness-group-recommendations/src/app/domain/recommender.py:76-79 | each user's list has one predicted pair for every known item |
| RecommenderV1.Terms | fairness-group-recommendations/assignment-01/src/app/domain/recommender.py:19-32 | each rater contributes its similarity and its rating's deviation from its own mean |
| RecommenderV1.GetPrediction | fairness-group-recommendations/assignment-01/src/app/domain/recommender.py:18-55 | an item nobody rated is predicted at the user's mean |
| RecommenderV1.OwnRatingTakesPart | fairness-group-recommendations/assignment-01/src/app/domain/recommender.py:19 | the user's own rating of the item is among the neighbour terms |
| RecommenderV1.UnrelatedRatersGiveMean | fairness-group-recommendations/assignment-01/src/app/domain/recommender.py:38-42 | raters all of similarity 0 give the user's mean |
| RecommenderV1.RatersAtTheirMeanGiveMean | fairness-group-recommendations/assignment-01/src/app/domain/recommender.py:44-53 | raters who all rate at their own mean give the user's mean |
| RecommenderV1.ExamplePrediction | fairness-group-recommendations/assignment-01/src/test/domain/TestPredictionImpl.py:8-26 | in the example, user 1's prediction for item 2 is 5 |
| RecommenderV1.ExampleMeans | fairness-group-recommendations/assignment-01/src/test/domain/TestPredictionImpl.py:8-26 | both example users average 5 |
| RecommenderV1.GetMostSimilarUsers | fairness-group-recommendations/assignment-01/src/app/domain/recommender.py:62-75 | a top-`limit` selection of the other users by similarity, `min(limit, others)` of them |
| RecommenderV1.GetRecommendations | fairness-group-recommendations/assignment-01/src/app/domain/recommender.py:82-90 | a top-`limit` selection of the unrated items by prediction |
| RecommenderV1.ComparisonOf | fairness-group-recommendations/assignment-01/src/app/domain/recommender.py:108-118 | one prediction per predictor, each with its non-negative error, 0 iff exact |
| RecommenderV1.Comparisons | fairness-group-recommendations/assignment-01/src/app/domain/recommender.py:105-118 | definition of the list of comparisons, one per listed rating of the user, in order; ComparisonCoversRatedItems states its keys |
| RecommenderV1.GetComparisonByUser | fairness-group-recommendations/assignment-01/src/app/domain/recommender.py:104-119 | the loop builds the dict of the comparisons, a later row for an item overwriting an earlier one |
| RecommenderV1.ComparisonCoversRatedItems | fairness-group-recommendations/assignment-01/src/app/domain/recommender.py:104-119 | keys are exactly the rated items, each compared against its last rating |
| RecommenderV1.ScannedComparison | fairness-group-recommendations/assignment-01/src/app/domain/recommender.py:104-119 | the comparison agrees with the rating map the row scan builds |
| RecommenderV1.UserRowsUpdates | fairness-group-recommendations/assignment-01/src/app/domain/dataset.py:58-60 | a dict of the user's listed pairs is the user's rating map |
| RecommenderV1.PredictorNamesInOrder | fairness-group-recommendations/assignment-01/src/app/domain/recommender.py:121-123 | the names of the predictors, in order |
| RecommenderV1.ExampleComparison | fairness-group-recommendations/assignment-01/src/test/domain/TestPerformanceEvaluator.py:9-30 | the example's four items get errors (1, 4), (1, 3), (1, 1) and (0, 4) |
| RecommenderV1.ExampleErrors | fairness-group-recommendations/assignment-01/src/app/domain/recommender.py:112-115 | with two predictors the errors are the two distances to the actual rating |
| GroupAggregation.Relevance | fairness-group-recommendations/src/app/domain/average_aggregation.py:15-17 | a member's relevance is their non-zero rating, else the personal prediction |
| GroupAggregation.PredictorOnlyForZeroRatings | fairness-group-recommendations/src/app/domain/average_aggregation.py:16 | the personal predictor is consulted only when the rating is 0 |
| GroupAggregation.Relevances | fairness-group-recommendations/src/app/domain/average_aggregation.py:13-18 | definition of the member relevances, one per member in member order; AveragePrediction states their mean |
| GroupAggregation.AveragePrediction | fairness-group-recommendations/src/app/domain/average_aggregation.py:20 | the group rating lies between the least and the greatest member relevance |
| GroupAggregation.GetPrediction | fairness-group-recommendations/src/app/domain/average_aggregation.py:12-20 | an empty group divides by zero; any other group gets the mean relevance |
| GroupAggregation.MemberOrderIgnored | fairness-group-recommendations/src/app/domain/average_aggregation.py:12-20 | listing the members in another order does not change the group rating |
| GroupAggregation.RepeatedMemberWeighsDouble | fairness-group-recommendations/src/app/domain/average_aggregation.py:14 | a member listed twice counts twice |
| GroupAggregation.AverageOfTwo | fairness-group-recommendations/src/app/domain/average_aggregation.py:20 | a pair's rating is the mid-point of the two relevances |
| GroupAggregation.ExampleAverage | fairness-group-recommendations/src/test/domain/TestAverageAggregation.py:10-29 | a predicted 3 and a rated 4 average to 3.5 |
| PairwiseDisagreement.PairRowFacts | fairness-group-recommendations/src/app/domain/group_prediction/disagreement/average_pairwise_disagreement.py:21-23 | the pairs starting at position `a` are the distances to every later position |
| PairwiseDisagreement.PairsBeforeLength | fairness-group-recommendations/src/app/domain/group_prediction/disagreement/average_pairwise_disagreement.py:21 | the pairs starting before `a` number `a(2n - a - 1)/2` |
| PairwiseDisagreement.PairsBeforeMembers | fairness-group-recommendations/src/app/domain/group_prediction/disagreement/average_pairwise_disagreement.py:21-32 | every listed distance is that of a pair starting before `a`, and every such pair is listed |
| PairwiseDisagreement.RowMember | fairness-group-recommendations/src/app/domain/group_prediction/disagreement/average_pairwise_disagreement.py:21-32 | a distance is in the row of `a` iff it is the distance from `a` to some later position |
| PairwiseDisagreement.PairsFacts | fairness-group-recommendations/src/app/domain/group_prediction/disagreement/average_pairwise_disagreement.py:21 | `combinations(group, 2)` has `n(n-1)/2` pairs, exactly the position pairs `p < q` |
| PairwiseDisagreement.PairsNonNegative | fairness-group-recommendations/src/app/domain/group_prediction/disagreement/average_pairwise_disagreement.py:32 | every pair distance is non-negative |
| PairwiseDisagreement.Disagreement | fairness-group-recommendations/src/app/domain/group_prediction/disagreement/average_pairwise_disagreement.py:33-36 | the disagreement of two or more members is non-negative |
| PairwiseDisagreement.PairMean | fairness-group-recommendations/src/app/domain/group_prediction/disagreement/average_pairwise_disagreement.py:33-36 | the mean of non-negative distances is non-negative, and 0 iff their sum is 0 |
| PairwiseDisagreement.PairCount | fairness-group-recommendations/src/app/domain/group_prediction/disagreement/average_pairwise_disagreement.py:35 | `n(n-1)` is 0 exactly for groups of fewer than two members |
| PairwiseDisagreement.NoDisagreementIffUnanimous | fairness-group-recommendations/src/app/domain/group_prediction/disagreement/average_pairwise_disagreement.py:20-36 | the disagreement is 0 iff all the members' relevances are equal |
| PairwiseDisagreement.TwoMembers | fairness-group-recommendations/src/app/domain/group_prediction/disagreement/average_pairwise_disagreement.py:20-36 | two members disagree by the distance of their relevances |
| PairwiseDisagreement.IndividualRelevance | fairness-group-recommendations/src/app/domain/group_prediction/disagreement/average_pairwise_disagreement.py:14-18 | for a known user it is the same relevance the average aggregation uses |
| PairwiseDisagreement.RelevancesOfMembers | fairness-group-recommendations/src/app/domain/group_prediction/disagreement/average_pairwise_disagreement.py:30-31 | the relevances used for the pairs are those of the members |
| PairwiseDisagreement.GetDisagreement | fairness-group-recommendations/src/app/domain/group_prediction/disagreement/average_pairwise_disagreement.py:20-36 | a group of fewer than two members divides by zero; otherwise the result is the pairwise disagreement of the relevances |
| PairwiseDisagreement.PairDistances | fairness-group-recommendations/src/app/domain/group_prediction/disagreement/average_pairwise_disagreement.py:21-32 | the loop over `combinations` lists all pair distances in lexicographic order |
| PairwiseDisagreement.AppendPairRow | fairness-group-recommendations/src/app/domain/group_prediction/disagreement/average_pairwise_disagreement.py:23-32 | the pairs starting at one position are appended in order |
| PairwiseDisagreement.UnanimousGroup | fairness-group-recommendations/src/app/domain/group_prediction/disagreement/average_pairwise_disagreement.py:20-36 | a unanimous group's average is the common relevance and its disagreement is 0 |
| Consensus.GetPrediction | fairness-group-recommendations/src/app/domain/consensus.py:13-16 | disagreement 0 adds the full disagreement weight, disagreement 1 adds nothing, and in between the bonus lies in [0, weight] |
| Consensus.MoreDisagreementLowersConsensus | fairness-group-recommendations/src/app/domain/consensus.py:16 | more disagreement never raises the score, and lowers it by the weight times the difference |
| Consensus.HigherPredictionRaisesConsensus | fairness-group-recommendations/src/app/domain/consensus.py:16 | a higher group prediction never lowers the score under a non-negative weight |
| Consensus.UnanimousConsensus | fairness-group-recommendations/src/app/domain/consensus.py:13-16 | average + pairwise disagreement: a unanimous group scores the weighted relevance plus the full disagreement weight |
| Consensus.AgreedConsensus | fairness-group-recommendations/src/app/domain/consensus.py:13-16 | with no disagreement the score is the weighted prediction plus the disagreement weight |
| GroupRecommendation.ItemsIn | fairness-group-recommendations/src/app/domain/group_recommender.py:46-49 | the items of a recommendation list |
| GroupRecommendation.GroupRecommender.constructor | fairness-group-recommendations/src/app/domain/group_recommender.py:6-19 | a new recommender remembers no previous recommendations |
| GroupRecommendation.GroupRecommender.Previous | fairness-group-recommendations/src/app/domain/group_recommender.py:38-39 | definition of the items recorded under the group's key, none for a new key |
| GroupRecommendation.GroupRecommender.Candidates | fairness-group-recommendations/src/app/domain/group_recommender.py:35-41 | all known items, minus the previously recommended ones when exclusion is on |
| GroupRecommendation.GroupRecommender.GetRecommendations | fairness-group-recommendations/src/app/domain/group_recommender.py:21-33 | a top-`limit` selection of the candidates by group prediction, never repeating an item when exclusion is on; the returned items are recorded only when exclusion is on |
| GroupRecommendation.GroupRecommender.UpdatePreviousRecommendations | fairness-group-recommendations/src/app/domain/group_recommender.py:43-49 | with exclusion on the group's record gains the recommended items; with it off nothing changes |
| GroupRecommendation.ExampleGroupRecommendations | fairness-group-recommendations/src/test/domain/TestGroupRecommender.py:10-29 | three items predicted 4, 5 and 1 come back as items 2, 1, 3 |
| RecommendationLog.GroupKey | fairness-group-recommendations/src/app/domain/recommendations_log.py:19 | definition of the model's group key: the set of members (the source's string key is narrower, see "## Left out") |
| RecommendationLog.SameMembersSameKey | fairness-group-recommendations/src/app/domain/recommendations_log.py:19 | a property of the model's key: any listing of the same members, in any order and with any repeats, finds the same entry |
| RecommendationLog.UnionMembers | fairness-group-recommendations/src/app/domain/recommendations_log.py:27-31 | an item is previously recommended iff some round contains it |
| RecommendationLog.UnionAppend | fairness-group-recommendations/src/app/domain/recommendations_log.py:27-31 | one round more adds its items to the previously recommended ones |
| RecommendationLog.Unrecommended | fairness-group-recommendations/src/app/domain/recommendations_log.py:25-33 | the items in no round |
| RecommendationLog.UnrecommendedShrinks | fairness-group-recommendations/src/app/domain/recommendations_log.py:18-33 | logging a round takes exactly its items out of what is left, so what is left only shrinks |
| RecommendationLog.RoundsStayDisjoint | fairness-group-recommendations/src/app/domain/recommendations_log.py:18-33 | a round drawn from what is left keeps the rounds pairwise disjoint |
| RecommendationLog.RecommendationsLog.constructor | fairness-group-recommendations/src/app/domain/recommendations_log.py:14-16 | the log starts empty |
| RecommendationLog.RecommendationsLog.GetPreviousRecommendations | fairness-group-recommendations/src/app/domain/recommendations_log.py:35-39 | the rounds of the group's member set, none for a new group |
| RecommendationLog.RecommendationsLog.GetUnrecommendedItems | fairness-group-recommendations/src/app/domain/recommendations_log.py:25-33 | the known items in none of the group's rounds |
| RecommendationLog.RecommendationsLog.AddRecommendation | fairness-group-recommendations/src/app/domain/recommendations_log.py:18-23 | appends one round to the group's list, leaves other member sets alone, and removes the round's items from what is left |
| RecommendationLog.ExampleLog | fairness-group-recommendations/src/test/domain/TestSequentialGroupRecommenderImpl.py:63-101 | three logged rounds are found again under a reordered group |
| Satisfaction.Scores | fairness-group-recommendations/src/app/domain/user_satisfaction.py:35 | definition of the scores of a recommendation list, in order |
| Satisfaction.ItemRelevances | fairness-group-recommendations/src/app/domain/user_satisfaction.py:26-30 | definition of the item relevances of the group list: the rating, or the prediction if it is 0 |
| Satisfaction.CacheAfter | fairness-group-recommendations/src/app/domain/user_satisfaction.py:15-20 | the cache gains the user's list and keeps everyone else's |
| Satisfaction.KeptListIsReused | fairness-group-recommendations/src/app/domain/user_satisfaction.py:16-20 | a stored non-empty list is reused whatever limit is asked later; an empty one is recomputed |
| Satisfaction.Ratio | fairness-group-recommendations/src/app/domain/user_satisfaction.py:37 | a zero personal total divides by zero; otherwise the ratio times the personal total is the group total |
| Satisfaction.OwnListSatisfiesFully | fairness-group-recommendations/src/app/domain/user_satisfaction.py:22-37 | a group list equal to the user's own list, valued alike, gives satisfaction 1 |
| Satisfaction.ExampleSatisfaction | fairness-group-recommendations/src/test/domain/TestUserSatisfaction.py:34-54 | four items of relevance 1 against a personal list scored 5 each give 4/20 |
| Satisfaction.UserSatisfaction.constructor | fairness-group-recommendations/src/app/domain/user_satisfaction.py:8-13 | the cache of personal lists starts empty |
| Satisfaction.UserSatisfaction.GetUserRecommendations | fairness-group-recommendations/src/app/domain/user_satisfaction.py:15-20 | returns the kept list when it is non-empty, otherwise asks the recommender and stores the answer |
| Satisfaction.UserSatisfaction.GetSatisfaction | fairness-group-recommendations/src/app/domain/user_satisfaction.py:22-37 | the group list's total relevance over the personal list's total score, with the personal list fetched through the cache at the group list's length |
| HybridAggregation.Blend | fairness-group-recommendations/src/app/domain/sequential_group/prediction/multi_iter_sequential_hybrid_aggregation.py:46 | disagreement 0 gives the average, 1 the least-misery value, and in between a value between the two |
| HybridAggregation.BlendBetween | fairness-group-recommendations/src/app/domain/sequential_group/prediction/multi_iter_sequential_hybrid_aggregation.py:46 | a convex combination lies between its two ends |
| HybridAggregation.RoundSatisfactions | fairness-group-recommendations/src/app/domain/sequential_group/prediction/multi_iter_sequential_hybrid_aggregation.py:33-36 | a round yields one satisfaction per member, or the first error |
| HybridAggregation.AllSatisfactions | fairness-group-recommendations/src/app/domain/sequential_group/prediction/multi_iter_sequential_hybrid_aggregation.py:31-37 | one row of member satisfactions per considered round |
| HybridAggregation.Spread | fairness-group-recommendations/src/app/domain/sequential_group/prediction/multi_iter_sequential_hybrid_aggregation.py:41 | `max - min` is non-negative and bounds every difference of two satisfactions |
| HybridAggregation.Spreads | fairness-group-recommendations/src/app/domain/sequential_group/prediction/multi_iter_sequential_hybrid_aggregation.py:40-43 | one spread per round; a round with no satisfactions raises `ValueError` |
| HybridAggregation.MaxSpread | fairness-group-recommendations/src/app/domain/sequential_group/prediction/multi_iter_sequential_hybrid_aggregation.py:40-44 | defined iff there are rounds and none is empty; otherwise `ValueError` |
| HybridAggregation.MaxSpreadFacts | fairness-group-recommendations/src/app/domain/sequential_group/prediction/multi_iter_sequential_hybrid_aggregation.py:44 | the disagreement is non-negative, bounds every round's spread, and is one of them |
| HybridAggregation.SpreadOfUnitSatisfactions | fairness-group-recommendations/src/app/domain/sequential_group/prediction/multi_iter_sequential_hybrid_aggregation.py:40-44 | satisfactions in [0, 1] give a disagreement in [0, 1] |
| HybridAggregation.InitialRoundsGiveAverage | fairness-group-recommendations/src/app/domain/sequential_group/prediction/multi_iter_sequential_hybrid_aggregation.py:28-29 | before `iterations_to_consider` rounds the prediction is the average, and no satisfaction is computed |
| HybridAggregation.LaterRoundsBlend | fairness-group-recommendations/src/app/domain/sequential_group/prediction/multi_iter_sequential_hybrid_aggregation.py:30-46 | later, with satisfactions in [0, 1], the prediction lies between the average and least misery, and is least misery when some round has a fully and a not at all satisfied member |
| HybridAggregation.NoDisagreementGivesAverage | fairness-group-recommendations/src/app/domain/sequential_group/prediction/multi_iter_sequential_hybrid_aggregation.py:30-46 | once enough rounds are logged, rounds in which every member was equally satisfied give exactly the average prediction |
| HybridAggregation.ZeroIterationsMeansAllRounds | fairness-group-recommendations/src/app/domain/sequential_group/prediction/multi_iter_sequential_hybrid_aggregation.py:32 | `iterations_to_consider = 0` slices `[-0:]`, which is every round |
| HybridAggregation.ExampleSpreadOfThreeRounds | fairness-group-recommendations/src/test/domain/TestMultiIterSequentialHybridAggregation.py:197-210 | three rounds with spreads 0.5, 0.8 and 0.1 give disagreement 0.8 |
| HybridAggregation.ExampleSpreadOfFourRounds | fairness-group-recommendations/src/test/domain/TestMultiIterSequentialHybridAggregation.py:211-226 | the four-round example gives disagreement 0.74 |
| HybridAggregation.MaxSpreadIs | fairness-group-recommendations/src/app/domain/sequential_group/prediction/multi_iter_sequential_hybrid_aggregation.py:44 | the disagreement is the largest round spread |
| HybridAggregation.SpreadOfPair | fairness-group-recommendations/src/app/domain/sequential_group/prediction/multi_iter_sequential_hybrid_aggregation.py:41 | two satisfactions spread by their distance |
| HybridAggregation.GetPrediction | fairness-group-recommendations/src/app/domain/sequential_group/prediction/multi_iter_sequential_hybrid_aggregation.py:22-48 | the loop computes the reference hybrid prediction and leaves the satisfaction cache as the reference says |
| HybridAggregation.SatisfactionsOfRounds | fairness-group-recommendations/src/app/domain/sequential_group/prediction/multi_iter_sequential_hybrid_aggregation.py:31-37 | the outer loop computes the rows of satisfactions and the cache after them |
| HybridAggregation.SatisfactionsOfRound | fairness-group-recommendations/src/app/domain/sequential_group/prediction/multi_iter_sequential_hybrid_aggregation.py:33-36 | the comprehension computes one round's satisfactions member by member, threading the cache |
| HybridAggregation.RoundStep | fairness-group-recommendations/src/app/domain/sequential_group/prediction/multi_iter_sequential_hybrid_aggregation.py:33-36 | a round's satisfactions are the first member's followed by the rest's, the first error stopping everything |
| HybridAggregation.AllStep | fairness-group-recommendations/src/app/domain/sequential_group/prediction/multi_iter_sequential_hybrid_aggregation.py:31-37 | the rows are the first round's followed by the rest's, the first error stopping everything |
| SequentialGroup.SequentialGroupRecommender.constructor | fairness-group-recommendations/src/app/domain/sequential_group/implementation.py:10-13 | a new recommender has a fresh, empty log |
| SequentialGroup.SequentialGroupRecommender.GetRecommendations | fairness-group-recommendations/src/app/domain/sequential_group/implementation.py:15-26 | a top-`limit` selection of the not yet recommended items by group prediction, logged as one more round (even when empty); what is left shrinks by exactly those items and the rounds stay disjoint |
| SequentialGroup.SequentialGroupRecommender.GetPreviousRecommendations | fairness-group-recommendations/src/app/domain/sequential_group/implementation.py:28-32 | lists every logged round of the group, each as an enumeration of its set |
| SequentialGroup.ExampleFirstRound | fairness-group-recommendations/src/test/domain/TestSequentialGroupRecommenderImpl.py:29-61 | items predicted 5, 4.5, 1, 4.8, 4.9, two at a time, give items 1 and 5 first |
| SequentialGroup.ExampleSecondRound | fairness-group-recommendations/src/test/domain/TestSequentialGroupRecommenderImpl.py:29-61 | the items left, 2, 3 and 4, give 4 and 2 |
| SequentialGroup.ExampleThirdRound | fairness-group-recommendations/src/test/domain/TestSequentialGroupRecommenderImpl.py:29-61 | only item 3 is left, and it is returned alone |
| SequentialGroup.NothingLeftNothingReturned | fairness-group-recommendations/src/test/domain/TestSequentialGroupRecommenderImpl.py:63-101 | once every item has been recommended, a round returns nothing |
| CsvResultSaving.Split | fairness-group-recommendations/assignment-01/src/app/result_saver/csv_result_saver.py:11-12 | `str.split` always yields at least one piece, one more than there are separators |
| CsvResultSaving.Content | fairness-group-recommendations/assignment-01/src/app/result_saver/csv_result_saver.py:11-12 | the content always ends with a newline |
| CsvResultSaving.SplitJoin | fairness-group-recommendations/assignment-01/src/app/result_saver/csv_result_saver.py:11-12 | joining pieces free of the separator and splitting gives the pieces back |
| CsvResultSaving.SplitPrefix | fairness-group-recommendations/assignment-01/src/app/result_saver/csv_result_saver.py:11 | a piece then a separator splits off as the first piece |
| CsvResultSaving.SplitTerminated | fairness-group-recommendations/assignment-01/src/app/result_saver/csv_result_saver.py:12 | the final newline leaves one empty piece at the end |
| CsvResultSaving.ContentLines | fairness-group-recommendations/assignment-01/src/app/result_saver/csv_result_saver.py:11-12 | the lines are the header line, the row lines and one empty piece; no rows leave an empty line after the header |
| CsvResultSaving.ParseContent | fairness-group-recommendations/assignment-01/src/app/result_saver/csv_result_saver.py:10-13 | the written content parses back to the headers and rows when no cell holds a comma or newline |
| CsvResultSaving.NoNewlineInLine | fairness-group-recommendations/assignment-01/src/app/result_saver/csv_result_saver.py:12 | cells without newlines give a single-line row |
| CsvResultSaving.CsvResultSaver.constructor | fairness-group-recommendations/assignment-01/src/app/result_saver/csv_result_saver.py:7-8 | nothing has been written yet |
| CsvResultSaving.CsvResultSaver.Save | fairness-group-recommendations/assignment-01/src/app/result_saver/csv_result_saver.py:10-13 | hands the writer the path and the CSV content exactly once |
| CsvResultSaving.ExampleContent | fairness-group-recommendations/assignment-01/src/test/result_saver/TestCsvResultSaver.py:9-15 | the example table is written as four comma-separated lines, each ending in a newline |

## Left out

- ITR similarity, in both versions: it is not part of this model.
- The command-line menus, the file data loader and the entry points: these are console and file I/O.
- The wiring of the entry points: it builds closures that connect a sequential recommender to its own log.
- The sequential recommender takes any group predictor as a function. The hybrid aggregation takes the previous rounds as a list instead of the callback that reads them.
- The least-misery group predictor is not among the core files. The hybrid takes its value as a parameter.
- Abstract base classes (`Prediction`, `Similarity`, `GroupPrediction`, `Disagreement`, `ResultSaver`, `DataLoader`): they hold no behaviour, and function types replace them.
- Floating-point effects: ratings and predictions are exact reals, so rounding, NaN and infinity are not modelled. The numeric correlations of the Pearson tests are not modelled either, since they need `sqrt` of particular reals.
- Pearson.GetSimilarity: `math.sqrt` is a parameter. The only thing known about it is that it is positive on positive arguments, so the contract states no value beyond self-similarity 1. Formula states the rest.
- Recommender.MeanAbsoluteError: requires a non-empty evaluation. For an empty one the source raises `ZeroDivisionError` (recommender.py:48), which the model does not return. No caller reaches that case: the evaluations come from `get_comparison_by_user` of a known user, who has at least one rating.
- A `KeyError`, raised by looking up a user the dataset does not know, is a precondition (`u in UsersOf(ds.data)`), not an error result.
- Python's set iteration order is not modelled. Every contract over a `list(set)` holds for every enumeration, and the examples fix one enumeration.
- GroupKey: the model identifies a group by its member set. The source keys on the string `str(set(group))` (group_recommender.py:38,45 and recommendations_log.py:19,26,37). That string depends on insertion order when two ids collide in the set's hash table: `[1, 9]` prints `{1, 9}` and `[9, 1]` prints `{9, 1}`. So the source can keep separate histories for reorderings of one group, where the model shares one. `RecommendationLog.GroupKey` and `GroupRecommendation.GroupRecommender.Previous` use the set key. CPython's hash-table layout is not modelled.
- SameMembersSameKey: holds of the model's set key. It holds of the source's string key only when the members' ids do not collide in the set's hash table, as in the groups of the tests.
- Collaborators with state of their own are modelled as pure functions:
  - the memoising similarity behind a predictor;
  - the personal recommender behind user satisfaction;
  - the predictor behind the consensus.

  So the model does not capture that each is evaluated once per call (consensus.py:14-15). The memo classes are modelled on their own.
- The group-prediction call inside the sequential and group recommenders is a pure function of the group and the item. Its caching and side effects are not modelled.
- The writer callback of `CsvResultSaver` is a recorded `(path, content)` pair. A `Path` is a string.
- The tests of the final version check some behaviour through mocks and call counts. Only their observable values are modelled.
- MeanCentered.Candidates: reads each neighbour's rating through the reference rating, which is the value `get_rating` returns. It does not go through the dictionary lookup.
- MeanCentered.MeanCenteredPrediction.GetPrediction: a stored prediction of exactly 0 is recomputed, as the source's truthiness test does, and then stored again.
