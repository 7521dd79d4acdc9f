/** `MeanCenteredPrediction` of the final version: neighbour selection (every rater of
    the item, or the `num_neighbors` users most similar to the user among those who rated
    it after ranking), the neighbourhood formula with an absolute or raw denominator, and
    a memo of the predictions already computed. */
module MeanCentered {
  import opened Common
  import opened PyDict
  import opened Ratings
  import opened RatingIndex
  import opened Ranking
  import opened Neighborhood
  import SimilarityStats

  /** `num_neighbors == ALL_NEIGHBORS` selects every rater of the item. */
  const AllNeighbors: int := -1

  /** `(neighbor, rating, similarity)`. */
  datatype Neighbor = Neighbor(user: UserId, rating: real, similarity: real)

  function SimilarityOf(n: Neighbor): real
  {
    n.similarity
  }

  /** Every row for the item, in row order, with the rater's similarity to `u`. */
  function RatersOf(ds: Dataset, similarity: (UserId, UserId) -> real, u: UserId, i: ItemId)
    : (r: seq<Neighbor>)
    ensures |r| == |GetUsersWhoRated(ds, i)|
    ensures forall n :: n in r ==> Row(n.user, i, n.rating) in ds.data && n.similarity == similarity(u, n.user)
    ensures forall v, x :: Row(v, i, x) in ds.data ==> Neighbor(v, x, similarity(u, v)) in r
  {
    var raters := GetUsersWhoRated(ds, i);
    var r := seq(|raters|, k requires 0 <= k < |raters| => Neighbor(raters[k].0, raters[k].1, similarity(u, raters[k].0)));
    assert forall n :: n in r ==> Row(n.user, i, n.rating) in ds.data by {
      forall n | n in r ensures Row(n.user, i, n.rating) in ds.data {
        var k :| 0 <= k < |r| && r[k] == n;
        assert raters[k] in raters && raters[k] == (n.user, n.rating);
      }
    }
    assert forall v, x :: Row(v, i, x) in ds.data ==> Neighbor(v, x, similarity(u, v)) in r by {
      forall v, x | Row(v, i, x) in ds.data ensures Neighbor(v, x, similarity(u, v)) in r {
        assert (v, x) in raters;
        var k :| 0 <= k < |raters| && raters[k] == (v, x);
        assert r[k] == Neighbor(v, x, similarity(u, v));
      }
    }
    r
  }

  /** Every other user, in user-list order, with its rating of the item (0 when it has
      none) and its similarity to `u`. */
  function Candidates(ds: Dataset, similarity: (UserId, UserId) -> real, u: UserId, i: ItemId)
    : (r: seq<Neighbor>)
    requires Valid(ds)
    ensures forall n :: n in r ==>
      && n.user != u && n.user in UsersOf(ds.data)
      && n.rating == GetRating(ds, n.user, i) && n.similarity == similarity(u, n.user)
    ensures forall v :: v in UsersOf(ds.data) && v != u ==> exists n :: n in r && n.user == v
  {
    var others := SimilarityStats.Others(GetAllUsers(ds), u);
    var r := seq(|others|, k requires 0 <= k < |others| =>
      Neighbor(others[k], RatingOrZero(ds.data, others[k], i), similarity(u, others[k])));
    assert forall n :: n in r ==>
      && n.user != u && n.user in UsersOf(ds.data)
      && n.rating == GetRating(ds, n.user, i) && n.similarity == similarity(u, n.user) by {
      forall n | n in r ensures n.user != u && n.user in UsersOf(ds.data) &&
        n.rating == GetRating(ds, n.user, i) && n.similarity == similarity(u, n.user) {
        var k :| 0 <= k < |r| && r[k] == n;
        assert others[k] in others;
      }
    }
    assert forall v :: v in UsersOf(ds.data) && v != u ==> exists n :: n in r && n.user == v by {
      forall v | v in UsersOf(ds.data) && v != u ensures exists n :: n in r && n.user == v {
        assert v in others;
        var k :| 0 <= k < |others| && others[k] == v;
        assert r[k] in r;
      }
    }
    r
  }

  /** `[(n, rating, s) for (n, rating, s) in ns if rating != 0]`. */
  function Rated(ns: seq<Neighbor>): (r: seq<Neighbor>)
    ensures forall n :: n in r <==> n in ns && n.rating != 0.0
    ensures |r| <= |ns|
  {
    if ns == [] then []
    else
      var last := ns[|ns| - 1];
      assert ns == ns[..|ns| - 1] + [last];
      Rated(ns[..|ns| - 1]) + (if last.rating != 0.0 then [last] else [])
  }

  /** `__get_neighbors_similarities(u, i)`. With every neighbour it is the raters of the
      item. Otherwise the other users are ranked by similarity (a stable sort), the first
      `num_neighbors` are kept and then those who did not rate the item are dropped, so
      fewer than `num_neighbors` raters may remain even when more users rated the item. */
  function GetNeighborsSimilarities(ds: Dataset, similarity: (UserId, UserId) -> real,
                                    numNeighbors: int, u: UserId, i: ItemId): (r: seq<Neighbor>)
    requires Valid(ds)
    ensures numNeighbors == AllNeighbors ==> r == RatersOf(ds, similarity, u, i)
    ensures numNeighbors != AllNeighbors ==> r == ClosestRaters(ds, similarity, numNeighbors, u, i)
    ensures forall n :: n in r ==> n.user in UsersOf(ds.data)
  {
    if numNeighbors == AllNeighbors then
      var r := RatersOf(ds, similarity, u, i);
      assert forall n :: n in r ==> n.user in UsersOf(ds.data) by {
        forall n | n in r ensures n.user in UsersOf(ds.data) {
          assert Row(n.user, i, n.rating) in ds.data;
        }
      }
      r
    else
      ClosestRaters(ds, similarity, numNeighbors, u, i)
  }

  /** The bounded branch: the raters among the first `numNeighbors` of the ranking. */
  function ClosestRaters(ds: Dataset, similarity: (UserId, UserId) -> real,
                         numNeighbors: int, u: UserId, i: ItemId): (r: seq<Neighbor>)
    requires Valid(ds)
    ensures exists top ::
              IsTopSelection(top, Candidates(ds, similarity, u, i), SimilarityOf, numNeighbors) && r == Rated(top)
    ensures forall n :: n in r ==>
      && n.user != u && n.user in UsersOf(ds.data) && n.rating != 0.0
      && n.rating == GetRating(ds, n.user, i) && n.similarity == similarity(u, n.user)
    ensures numNeighbors >= 0 ==> |r| <= numNeighbors
  {
    var candidates := Candidates(ds, similarity, u, i);
    var top := PySlice(SortDesc(candidates, SimilarityOf), numNeighbors);
    TopOfSorted(candidates, SimilarityOf, numNeighbors);
    assert forall n :: n in top ==> n in candidates by {
      forall n | n in top ensures n in candidates {
        assert n in multiset(top);
      }
    }
    var r := Rated(top);
    assert IsTopSelection(top, Candidates(ds, similarity, u, i), SimilarityOf, numNeighbors) && r == Rated(top);
    r
  }

  /** `rating - avg_rating` and the similarity of every selected neighbour. */
  function Terms(ds: Dataset, ns: seq<Neighbor>): (ts: seq<Term>)
    requires Valid(ds) && forall n :: n in ns ==> n.user in UsersOf(ds.data)
    ensures |ts| == |ns|
    ensures forall k :: 0 <= k < |ns| ==>
      ts[k] == Term(ns[k].similarity, ns[k].rating - GetAverageRatingByUser(ds, ns[k].user))
  {
    seq(|ns|, k requires 0 <= k < |ns| =>
      assert ns[k] in ns;
      Term(ns[k].similarity, ns[k].rating - GetAverageRatingByUser(ds, ns[k].user)))
  }

  /** The term of a neighbour read straight from the memo of means. */
  function MemoTerm(ds: Dataset, n: Neighbor): Term
  {
    Term(n.similarity, n.rating - (if n.user in ds.averageUserRatings then ds.averageUserRatings[n.user] else 0.0))
  }

  lemma TermsFromMemo(ds: Dataset, ns: seq<Neighbor>)
    requires Valid(ds) && forall n :: n in ns ==> n.user in UsersOf(ds.data)
    ensures Terms(ds, ns) == MapSeq(n => MemoTerm(ds, n), ns)
  {
    forall k | 0 <= k < |ns| ensures Terms(ds, ns)[k] == MemoTerm(ds, ns[k]) {
      assert ns[k] in ns;
    }
  }

  /** Reordering the neighbours reorders their terms in the same way. */
  lemma TermsPermutation(ds: Dataset, ns: seq<Neighbor>, ms: seq<Neighbor>)
    requires Valid(ds) && multiset(ns) == multiset(ms)
    requires forall n :: n in ns ==> n.user in UsersOf(ds.data)
    ensures forall n :: n in ms ==> n.user in UsersOf(ds.data)
    ensures multiset(Terms(ds, ns)) == multiset(Terms(ds, ms))
  {
    assert forall n :: n in ms ==> n in multiset(ns);
    TermsFromMemo(ds, ns);
    TermsFromMemo(ds, ms);
    MapPermutation(n => MemoTerm(ds, n), ns, ms);
  }

  /** The value `get_prediction(u, i)` computes: the user's mean moved by the weighted
      deviations of the selected neighbours. */
  function Prediction(ds: Dataset, similarity: (UserId, UserId) -> real, numNeighbors: int,
                      useAbs: bool, u: UserId, i: ItemId): (r: real)
    requires Valid(ds) && u in UsersOf(ds.data)
    ensures GetNeighborsSimilarities(ds, similarity, numNeighbors, u, i) == [] ==>
      r == GetAverageRatingByUser(ds, u)
  {
    var closest := GetNeighborsSimilarities(ds, similarity, numNeighbors, u, i);
    Predict(GetAverageRatingByUser(ds, u), Terms(ds, closest), useAbs)
  }

  /** Nobody rated the item: the prediction is the user's mean, whatever the mode. */
  lemma UnratedItemGivesMean(ds: Dataset, similarity: (UserId, UserId) -> real, numNeighbors: int,
                             useAbs: bool, u: UserId, i: ItemId)
    requires Valid(ds) && u in UsersOf(ds.data)
    requires i !in ItemsOf(ds.data)
    ensures Prediction(ds, similarity, numNeighbors, useAbs, u, i) == GetAverageRatingByUser(ds, u)
  {
  }

  /** With a bounded neighbourhood, when none of the other users rated the item the
      prediction is the user's mean. */
  lemma NoOtherRaterGivesMean(ds: Dataset, similarity: (UserId, UserId) -> real, numNeighbors: int,
                              useAbs: bool, u: UserId, i: ItemId)
    requires Valid(ds) && u in UsersOf(ds.data) && numNeighbors != AllNeighbors
    requires forall v :: v in UsersOf(ds.data) && v != u ==> i !in RatedItems(ds.data, v)
    ensures Prediction(ds, similarity, numNeighbors, useAbs, u, i) == GetAverageRatingByUser(ds, u)
  {
  }

  /** The absolute value in the denominator only matters when some neighbour has a
      negative similarity with the user. */
  lemma AbsOnlyMattersForNegativeSimilarities(ds: Dataset, similarity: (UserId, UserId) -> real,
                                              numNeighbors: int, u: UserId, i: ItemId)
    requires Valid(ds) && u in UsersOf(ds.data)
    requires forall v :: v in UsersOf(ds.data) ==> similarity(u, v) >= 0.0
    ensures Prediction(ds, similarity, numNeighbors, true, u, i) ==
      Prediction(ds, similarity, numNeighbors, false, u, i)
  {
    var closest := GetNeighborsSimilarities(ds, similarity, numNeighbors, u, i);
    var ts := Terms(ds, closest);
    assert forall k :: 0 <= k < |ts| ==> ts[k].similarity >= 0.0 by {
      forall k | 0 <= k < |ts| ensures ts[k].similarity >= 0.0 {
        assert closest[k] in closest;
        if numNeighbors == AllNeighbors {
          assert Row(closest[k].user, i, closest[k].rating) in ds.data;
        }
      }
    }
    AbsAndRawAgree(GetAverageRatingByUser(ds, u), ts);
  }

  /** The rows of the bounded-neighbourhood example: user 1 rated item 1 with 5, user 2
      rated items 1, 2, 3 with 5, 3, 4 and user 3 rated item 2 with 5. */
  const ExampleRows: seq<Row> := [Row(1, 1, 5.0), Row(2, 1, 5.0), Row(2, 2, 3.0), Row(2, 3, 4.0), Row(3, 2, 5.0)]

  lemma ExampleDictionaries()
    ensures UserRatingsOf(ExampleRows, 1) == [(1, 5.0)]
    ensures UserRatingsOf(ExampleRows, 2) == [(1, 5.0), (2, 3.0), (3, 4.0)]
  {
    var d4 := [Row(1, 1, 5.0), Row(2, 1, 5.0), Row(2, 2, 3.0), Row(2, 3, 4.0)];
    var d3 := [Row(1, 1, 5.0), Row(2, 1, 5.0), Row(2, 2, 3.0)];
    var d2 := [Row(1, 1, 5.0), Row(2, 1, 5.0)];
    var d1 := [Row(1, 1, 5.0)];
    assert ExampleRows[..4] == d4 && d4[..3] == d3 && d3[..2] == d2 && d2[..1] == d1 && d1[..0] == [];
    assert UserRatingsOf(d1, 1) == [(1, 5.0)];
    assert UserRatingsOf(d1, 2) == [];
    assert UserRatingsOf(d2, 1) == [(1, 5.0)];
    assert UserRatingsOf(d2, 2) == [(1, 5.0)];
    assert Keys([(1, 5.0)]) == {1};
    assert UserRatingsOf(d3, 2) == [(1, 5.0), (2, 3.0)];
    assert Keys([(1, 5.0), (2, 3.0)]) == {1, 2};
    assert UserRatingsOf(d4, 2) == [(1, 5.0), (2, 3.0), (3, 4.0)];
  }

  lemma ExampleSums()
    ensures Sum(Values(UserRatingsOf(ExampleRows, 1))) == 5.0
    ensures Sum(Values(UserRatingsOf(ExampleRows, 2))) == 12.0
  {
    ExampleDictionaries();
    assert Values([(1, 5.0)]) == [5.0];
    assert Values([(1, 5.0), (2, 3.0), (3, 4.0)]) == [5.0, 3.0, 4.0];
    assert [5.0, 3.0, 4.0][..2] == [5.0, 3.0];
    assert [5.0, 3.0][..1] == [5.0];
    assert [5.0][..0] == [];
  }

  lemma ExampleItems()
    ensures |RatedItems(ExampleRows, 1)| == 1 && |RatedItems(ExampleRows, 2)| == 3
    ensures 1 in UsersOf(ExampleRows) && 2 in UsersOf(ExampleRows) && 3 in UsersOf(ExampleRows)
  {
    var d := ExampleRows;
    assert d[0] in d && d[1] in d && d[2] in d && d[3] in d && d[4] in d;
    assert RatedItems(d, 1) == {1};
    assert RatedItems(d, 2) == {1, 2, 3};
  }

  lemma ExampleMean(ds: Dataset, u: UserId, total: real, n: nat)
    requires Valid(ds) && u in UsersOf(ds.data)
    requires Sum(Values(UserRatingsOf(ds.data, u))) == total && |RatedItems(ds.data, u)| == n > 0
    ensures GetAverageRatingByUser(ds, u) == total / (n as real)
  {
  }

  lemma ExampleRatings(ds: Dataset)
    requires Valid(ds) && ds.data == ExampleRows
    ensures 2 in UsersOf(ds.data) && 3 in UsersOf(ds.data)
    ensures GetRating(ds, 2, 2) == 3.0 && GetRating(ds, 3, 2) == 5.0
  {
    var d := ds.data;
    assert d[1] in d && d[4] in d;
    assert d[..4] == [Row(1, 1, 5.0), Row(2, 1, 5.0), Row(2, 2, 3.0), Row(2, 3, 4.0)];
    assert d[..4][..3] == [Row(1, 1, 5.0), Row(2, 1, 5.0), Row(2, 2, 3.0)];
    assert LastRating(d, 2, 2) == Some(3.0);
    assert LastRating(d, 3, 2) == Some(5.0);
  }

  /** The prediction of the bounded example from the facts of its dataset: with one
      neighbour, user 2 (similarity 1) outranks user 3 (similarity 0.5), so the prediction
      for user 1 and item 2 is user 1's mean 5 plus user 2's deviation 3 - 4. */
  lemma BoundedExampleFromFacts(ds: Dataset, similarity: (UserId, UserId) -> real)
    requires Valid(ds) && ds.users == [1, 2, 3]
    requires 1 in UsersOf(ds.data) && GetAverageRatingByUser(ds, 1) == 5.0
    requires 2 in UsersOf(ds.data) && GetAverageRatingByUser(ds, 2) == 4.0
    requires 3 in UsersOf(ds.data)
    requires GetRating(ds, 2, 2) == 3.0 && GetRating(ds, 3, 2) == 5.0
    requires similarity(1, 2) == 1.0 && similarity(1, 3) == 0.5
    ensures Prediction(ds, similarity, 1, true, 1, 2) == 5.0 + (3.0 - 4.0)
  {
    ExampleClosest(ds, similarity);
    ExampleTerms(ds);
    SingleNeighbor(5.0, Term(1.0, -1.0), true);
  }

  lemma ExampleTerms(ds: Dataset)
    requires Valid(ds) && 2 in UsersOf(ds.data) && GetAverageRatingByUser(ds, 2) == 4.0
    ensures Terms(ds, [Neighbor(2, 3.0, 1.0)]) == [Term(1.0, -1.0)]
  {
  }

  lemma ExampleOthers()
    ensures SimilarityStats.Others([1, 2, 3], 1) == [2, 3]
  {
    assert [1, 2, 3][..2] == [1, 2] && [1, 2][..1] == [1] && [1][..0] == [];
  }

  lemma ExampleCandidates(ds: Dataset, similarity: (UserId, UserId) -> real)
    requires Valid(ds) && ds.users == [1, 2, 3]
    requires 2 in UsersOf(ds.data) && 3 in UsersOf(ds.data)
    requires GetRating(ds, 2, 2) == 3.0 && GetRating(ds, 3, 2) == 5.0
    requires similarity(1, 2) == 1.0 && similarity(1, 3) == 0.5
    ensures Candidates(ds, similarity, 1, 2) == [Neighbor(2, 3.0, 1.0), Neighbor(3, 5.0, 0.5)]
  {
    var c := Candidates(ds, similarity, 1, 2);
    assert |c| == 2 && c[0] == Neighbor(2, 3.0, 1.0) && c[1] == Neighbor(3, 5.0, 0.5) by {
      ExampleOthers();
      assert GetAllUsers(ds) == [1, 2, 3];
      assert RatingOrZero(ds.data, 2, 2) == 3.0 && RatingOrZero(ds.data, 3, 2) == 5.0;
    }
  }

  lemma ExampleRanking()
    ensures SortDesc([Neighbor(2, 3.0, 1.0), Neighbor(3, 5.0, 0.5)], SimilarityOf) ==
      [Neighbor(2, 3.0, 1.0), Neighbor(3, 5.0, 0.5)]
  {
    var c0, c1 := Neighbor(2, 3.0, 1.0), Neighbor(3, 5.0, 0.5);
    assert [c0, c1][..1] == [c0] && [c0][..0] == [] && [c0][1..] == [];
    assert SortDesc([c0], SimilarityOf) == [c0];
    assert Insert([c0], c1, SimilarityOf) == [c0, c1];
  }

  lemma ExampleClosest(ds: Dataset, similarity: (UserId, UserId) -> real)
    requires Valid(ds) && ds.users == [1, 2, 3]
    requires 2 in UsersOf(ds.data) && 3 in UsersOf(ds.data)
    requires GetRating(ds, 2, 2) == 3.0 && GetRating(ds, 3, 2) == 5.0
    requires similarity(1, 2) == 1.0 && similarity(1, 3) == 0.5
    ensures GetNeighborsSimilarities(ds, similarity, 1, 1, 2) == [Neighbor(2, 3.0, 1.0)]
  {
    var c0, c1 := Neighbor(2, 3.0, 1.0), Neighbor(3, 5.0, 0.5);
    ExampleCandidates(ds, similarity);
    ExampleRanking();
    assert PySlice([c0, c1], 1) == [c0];
    assert [c0][..0] == [];
    assert Rated([c0]) == [c0];
  }

  /** `MeanCenteredPrediction`: the predictor with its memo of `(user, item)` results. */
  class MeanCenteredPrediction {
    const dataset: Dataset
    const similarity: (UserId, UserId) -> real
    const numNeighbors: int
    const useAbsoluteValue: bool
    var predictions: map<(UserId, ItemId), real>

    /** Every memoised value is the prediction for its key. */
    ghost predicate Valid()
      reads this
    {
      RatingIndex.Valid(dataset) && Memoises(dataset, similarity, numNeighbors, useAbsoluteValue, predictions)
    }

    constructor(dataset: Dataset, similarity: (UserId, UserId) -> real, numNeighbors: int, useAbsoluteValue: bool)
      requires RatingIndex.Valid(dataset)
      ensures Valid()
      ensures this.dataset == dataset && this.similarity == similarity
      ensures this.numNeighbors == numNeighbors && this.useAbsoluteValue == useAbsoluteValue
      ensures predictions == map[]
    {
      this.dataset := dataset;
      this.similarity := similarity;
      this.numNeighbors := numNeighbors;
      this.useAbsoluteValue := useAbsoluteValue;
      predictions := map[];
    }

    /** `get_prediction(u, i)`: a memoised non-zero value is returned as it is; a missing
        or zero one (the memo lookup is a truthiness check) is computed and stored. */
    method GetPrediction(u: UserId, i: ItemId) returns (p: real)
      requires Valid() && u in UsersOf(dataset.data)
      modifies this
      ensures Valid()
      ensures p == Prediction(dataset, similarity, numNeighbors, useAbsoluteValue, u, i)
      ensures old((u, i) in predictions && predictions[(u, i)] != 0.0) ==> predictions == old(predictions)
      ensures old((u, i) !in predictions || predictions[(u, i)] == 0.0) ==>
        predictions == old(predictions)[(u, i) := p]
    {
      if (u, i) in predictions && predictions[(u, i)] != 0.0 {
        return predictions[(u, i)];
      }
      p := ComputePrediction(dataset, similarity, numNeighbors, useAbsoluteValue, u, i);
      StoreKeepsMemo(dataset, similarity, numNeighbors, useAbsoluteValue, predictions, u, i);
      predictions := predictions[(u, i) := p];
    }
  }

  /** Every entry of `memo` is the prediction for its key. */
  ghost predicate Memoises(ds: Dataset, similarity: (UserId, UserId) -> real, numNeighbors: int,
                           useAbs: bool, memo: map<(UserId, ItemId), real>)
    requires Valid(ds)
  {
    forall p :: p in memo ==>
      p.0 in UsersOf(ds.data) && memo[p] == Prediction(ds, similarity, numNeighbors, useAbs, p.0, p.1)
  }

  /** Storing the prediction of a known user keeps the memo correct. */
  lemma StoreKeepsMemo(ds: Dataset, similarity: (UserId, UserId) -> real, numNeighbors: int,
                       useAbs: bool, memo: map<(UserId, ItemId), real>, u: UserId, i: ItemId)
    requires Valid(ds) && Memoises(ds, similarity, numNeighbors, useAbs, memo) && u in UsersOf(ds.data)
    ensures Memoises(ds, similarity, numNeighbors, useAbs,
      memo[(u, i) := Prediction(ds, similarity, numNeighbors, useAbs, u, i)])
  {
  }

  /** The computation behind a memo miss: the neighbours, the user's mean and the
      weighted deviations. */
  method ComputePrediction(ds: Dataset, similarity: (UserId, UserId) -> real, numNeighbors: int,
                           useAbs: bool, u: UserId, i: ItemId) returns (p: real)
    requires Valid(ds) && u in UsersOf(ds.data)
    ensures p == Prediction(ds, similarity, numNeighbors, useAbs, u, i)
  {
    var closest := GetNeighborsSimilarities(ds, similarity, numNeighbors, u, i);
    var avgUserRating := GetAverageRatingByUser(ds, u);
    p := Predict(avgUserRating, Terms(ds, closest), useAbs);
  }
}
