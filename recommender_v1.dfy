/** The first version's `PredictionImpl`, `Stats`, `Recommender` and `PerformanceEvaluator`,
    over the first version's dataset. The similarity and the predictors are parameters. */
module RecommenderV1 {
  import opened Common
  import opened PyDict
  import opened Ratings
  import opened RatingIndexV1
  import opened Ranking
  import opened Neighborhood
  import Recommender

  /** One term per rater `(v, rating)`: the similarity of `u` with `v` and the deviation
      of the rating from `v`'s mean. */
  function Terms(ds: Dataset, similarity: (UserId, UserId) -> real, u: UserId,
                 raters: seq<(UserId, real)>): (r: seq<Term>)
    requires Valid(ds) && forall p :: p in raters ==> p.0 in UsersOf(ds.data)
    ensures |r| == |raters|
    ensures forall k :: 0 <= k < |r| ==>
      r[k] == Term(similarity(u, raters[k].0), raters[k].1 - GetAverageRatingByUser(ds, raters[k].0))
  {
    seq(|raters|, k requires 0 <= k < |raters| =>
      Term(similarity(u, raters[k].0), raters[k].1 - GetAverageRatingByUser(ds, raters[k].0)))
  }

  /** `PredictionImpl.get_prediction(u, i)`: every rater of the item is a neighbour, `u`
      itself included when it rated the item, with an absolute denominator. */
  function GetPrediction(ds: Dataset, similarity: (UserId, UserId) -> real, u: UserId, i: ItemId): (r: real)
    requires Valid(ds) && u in UsersOf(ds.data)
    ensures i !in ItemsOf(ds.data) ==> r == GetAverageRatingByUser(ds, u)
  {
    Predict(GetAverageRatingByUser(ds, u), Terms(ds, similarity, u, GetUsersWhoRated(ds, i)), true)
  }

  /** A user's own rating of the item takes part in its prediction, weighted by the
      similarity of the user with itself. */
  lemma OwnRatingTakesPart(ds: Dataset, similarity: (UserId, UserId) -> real, u: UserId, i: ItemId, x: real)
    requires Valid(ds) && Row(u, i, x) in ds.data
    ensures Term(similarity(u, u), x - GetAverageRatingByUser(ds, u)) in Terms(ds, similarity, u, GetUsersWhoRated(ds, i))
  {
    var raters := GetUsersWhoRated(ds, i);
    var k :| 0 <= k < |raters| && raters[k] == (u, x);
    assert Terms(ds, similarity, u, raters)[k] == Term(similarity(u, u), x - GetAverageRatingByUser(ds, u));
  }

  /** Raters all unrelated to the user leave the user's mean. */
  lemma UnrelatedRatersGiveMean(ds: Dataset, similarity: (UserId, UserId) -> real, u: UserId, i: ItemId)
    requires Valid(ds) && u in UsersOf(ds.data)
    requires forall v, x :: Row(v, i, x) in ds.data ==> similarity(u, v) == 0.0
    ensures GetPrediction(ds, similarity, u, i) == GetAverageRatingByUser(ds, u)
  {
    var raters := GetUsersWhoRated(ds, i);
    var ts := Terms(ds, similarity, u, raters);
    forall k | 0 <= k < |ts| ensures ts[k].similarity == 0.0 {
      assert raters[k] in raters;
    }
    UnrelatedNeighborsGiveMean(GetAverageRatingByUser(ds, u), ts, true);
  }

  /** Raters who all rated the item at their own mean leave the user's mean. */
  lemma RatersAtTheirMeanGiveMean(ds: Dataset, similarity: (UserId, UserId) -> real, u: UserId, i: ItemId)
    requires Valid(ds) && u in UsersOf(ds.data)
    requires forall v, x :: Row(v, i, x) in ds.data ==> v in UsersOf(ds.data) && x == GetAverageRatingByUser(ds, v)
    ensures GetPrediction(ds, similarity, u, i) == GetAverageRatingByUser(ds, u)
  {
    var raters := GetUsersWhoRated(ds, i);
    var ts := Terms(ds, similarity, u, raters);
    forall k | 0 <= k < |ts| ensures ts[k].deviation == 0.0 {
      assert raters[k] in raters;
      assert Row(raters[k].0, i, raters[k].1) in ds.data;
    }
    ZeroDeviationsGiveMean(GetAverageRatingByUser(ds, u), ts, true);
  }

  /** The prediction example: the only rater of item 2 rated it at its own mean 5, so
      user 1 gets its own mean 5 whatever the similarity. */
  lemma ExamplePrediction(ds: Dataset, similarity: (UserId, UserId) -> real)
    requires Valid(ds)
    requires ds.data == [Row(1, 1, 5.0), Row(2, 1, 5.0), Row(2, 2, 5.0), Row(2, 3, 5.0)]
    ensures GetPrediction(ds, similarity, 1, 2) == 5.0
  {
    ExampleMeans(ds);
    forall v, x | Row(v, 2, x) in ds.data
      ensures v in UsersOf(ds.data) && x == GetAverageRatingByUser(ds, v)
    {
      assert v == 2 && x == 5.0;
    }
    RatersAtTheirMeanGiveMean(ds, similarity, 1, 2);
  }

  lemma ExampleMeans(ds: Dataset)
    requires Valid(ds)
    requires ds.data == [Row(1, 1, 5.0), Row(2, 1, 5.0), Row(2, 2, 5.0), Row(2, 3, 5.0)]
    ensures 1 in UsersOf(ds.data) && 2 in UsersOf(ds.data)
    ensures GetAverageRatingByUser(ds, 1) == 5.0 && GetAverageRatingByUser(ds, 2) == 5.0
  {
    assert Row(1, 1, 5.0) in ds.data && Row(2, 2, 5.0) in ds.data;
    ExampleRowRatings(ds.data);
    assert Sum([5.0, 5.0, 5.0]) == 15.0 by {
      assert [5.0, 5.0, 5.0][..2] == [5.0, 5.0] && [5.0, 5.0][..1] == [5.0] && [5.0][..0] == [];
    }
    assert Sum([5.0]) == 5.0 by {
      assert [5.0][..0] == [];
    }
  }

  lemma ExampleRowRatings(d: seq<Row>)
    requires d == [Row(1, 1, 5.0), Row(2, 1, 5.0), Row(2, 2, 5.0), Row(2, 3, 5.0)]
    ensures RowRatings(d, 1) == [5.0] && RowRatings(d, 2) == [5.0, 5.0, 5.0]
  {
    assert d[..3][..2][..1][..0] == [];
    assert d[..3][..2][..1] == [Row(1, 1, 5.0)];
    assert d[..3][..2] == [Row(1, 1, 5.0), Row(2, 1, 5.0)];
    assert d[..3] == [Row(1, 1, 5.0), Row(2, 1, 5.0), Row(2, 2, 5.0)];
    assert RowRatings(d[..3][..2][..1], 1) == [5.0] && RowRatings(d[..3][..2][..1], 2) == [];
    assert RowRatings(d[..3][..2], 1) == [5.0] && RowRatings(d[..3][..2], 2) == [5.0];
    assert RowRatings(d[..3], 1) == [5.0] && RowRatings(d[..3], 2) == [5.0, 5.0];
  }

  /** `Stats.get_most_similar_users(u, limit)`: the other users, in the iteration order
      `others` of the set they are collected into, ranked by similarity with `u` and cut
      to `limit`. */
  method GetMostSimilarUsers(ds: Dataset, similarity: (UserId, UserId) -> real, u: UserId, limit: int)
    returns (r: seq<(UserId, real)>, ghost others: seq<UserId>)
    ensures Enumerates(others, UsersOf(ds.data) - {u})
    ensures r == TopScored(others, u, similarity, limit)
    ensures forall p :: p in r ==> p.0 != u && p.0 in UsersOf(ds.data) && p.1 == similarity(u, p.0)
    ensures limit >= 0 ==> |r| == Min(limit, |UsersOf(ds.data) - {u}|)
  {
    var allOtherUsers := Enumerate(set row | row in ds.data && row.user != u :: row.user);
    assert (set row | row in ds.data && row.user != u :: row.user) == UsersOf(ds.data) - {u};
    others := allOtherUsers;
    EnumerationSize(allOtherUsers, UsersOf(ds.data) - {u});
    r := TopScored(allOtherUsers, u, similarity, limit);
  }

  /** `Recommender.get_recommendations(u, limit)`: the items `u` has no row for, in the
      set order `unrated`, scored by the predictor and ranked. An unknown user gets every
      item ranked. */
  method GetRecommendations(ds: Dataset, predictor: Recommender.Predictor, u: UserId, limit: int)
    returns (r: seq<(ItemId, real)>, ghost unrated: seq<ItemId>)
    ensures Enumerates(unrated, ItemsOf(ds.data) - RatedItems(ds.data, u))
    ensures r == TopScored(unrated, u, predictor, limit)
    ensures forall p :: p in r ==>
      p.0 in ItemsOf(ds.data) && p.0 !in RatedItems(ds.data, u) && p.1 == predictor(u, p.0)
    ensures limit >= 0 ==> |r| == Min(limit, |ItemsOf(ds.data) - RatedItems(ds.data, u)|)
  {
    var unratedItems := GetItemsNotRatedByUser(ds, u);
    unrated := unratedItems;
    EnumerationSize(unratedItems, ItemsOf(ds.data) - RatedItems(ds.data, u));
    r := TopScored(unratedItems, u, predictor, limit);
  }

  datatype PredictionComparison =
    PredictionComparison(item: ItemId, actualRating: real, predictedRatings: seq<real>, errors: seq<real>)

  /** The comparison of one rating with the prediction of every predictor, in predictor
      order: each error is the distance of the prediction from the rating. */
  function ComparisonOf(predictors: Recommender.NamedPredictors, u: UserId, item: ItemId, actualRating: real)
    : (c: PredictionComparison)
    ensures c.item == item && c.actualRating == actualRating
    ensures |c.predictedRatings| == |predictors| && |c.errors| == |predictors|
    ensures forall j :: 0 <= j < |predictors| ==>
      && c.predictedRatings[j] == predictors[j].1(u, item)
      && c.errors[j] >= 0.0
      && c.errors[j] == Abs(actualRating - c.predictedRatings[j])
      && (c.errors[j] == 0.0 <==> c.predictedRatings[j] == actualRating)
  {
    var predicted := seq(|predictors|, j requires 0 <= j < |predictors| => predictors[j].1(u, item));
    var errors := seq(|predicted|, j requires 0 <= j < |predicted| => Abs(actualRating - predicted[j]));
    PredictionComparison(item, actualRating, predicted, errors)
  }

  /** One `(item, comparison)` per rating of `u`, in row order. */
  function Comparisons(ds: Dataset, predictors: Recommender.NamedPredictors, u: UserId)
    : (r: seq<(ItemId, PredictionComparison)>)
    ensures var ratings := GetRatingsByUser(ds, u);
      |r| == |ratings| && forall k :: 0 <= k < |r| ==>
        r[k] == (ratings[k].0, ComparisonOf(predictors, u, ratings[k].0, ratings[k].1))
  {
    var ratings := GetRatingsByUser(ds, u);
    seq(|ratings|, k requires 0 <= k < |ratings| =>
      (ratings[k].0, ComparisonOf(predictors, u, ratings[k].0, ratings[k].1)))
  }

  /** `get_comparison_by_user(u)`: `comparison[item] = ...` for each rating in turn. */
  method GetComparisonByUser(ds: Dataset, predictors: Recommender.NamedPredictors, u: UserId)
    returns (comparison: map<ItemId, PredictionComparison>)
    ensures comparison == Updates(Comparisons(ds, predictors, u))
  {
    var userRatings := GetRatingsByUser(ds, u);
    ghost var comparisons := Comparisons(ds, predictors, u);
    comparison := map[];
    for j := 0 to |userRatings|
      invariant comparison == Updates(comparisons[..j])
    {
      var (item, actualRating) := userRatings[j];
      assert comparisons[..j + 1][..j] == comparisons[..j];
      comparison := comparison[item := ComparisonOf(predictors, u, item, actualRating)];
    }
    assert comparisons[..|userRatings|] == comparisons;
  }

  /** Updating with the rows of `u` in row order is scanning them into a dictionary. */
  lemma {:induction false} UserRowsUpdates(rows: seq<Row>, u: UserId)
    ensures Updates(UserRows(rows, u)) == RatingsMap(rows, u)
  {
    if rows != [] {
      var init := rows[..|rows| - 1];
      var r := rows[|rows| - 1];
      UserRowsUpdates(init, u);
      var ps := UserRows(rows, u);
      if r.user == u {
        assert ps == UserRows(init, u) + [(r.item, r.rating)];
        assert ps[..|ps| - 1] == UserRows(init, u);
        assert Updates(ps) == Updates(UserRows(init, u))[r.item := r.rating];
      } else {
        assert ps == UserRows(init, u) + [];
        assert ps == UserRows(init, u);
      }
    }
  }

  /** The comparison has one entry per item `u` rated, holding the last rating of that item
      and an error per predictor. */
  lemma ComparisonCoversRatedItems(ds: Dataset, predictors: Recommender.NamedPredictors, u: UserId)
    ensures var m := Updates(Comparisons(ds, predictors, u));
      && m.Keys == RatedItems(ds.data, u)
      && forall i :: i in m ==>
        exists x :: LastRating(ds.data, u, i) == Some(x) && m[i] == ComparisonOf(predictors, u, i, x)
  {
    ScannedComparison(ds, predictors, u);
    RatingsMapIsLastRating(ds.data, u);
  }

  /** `predictor_names`: the names, in predictor order, as in the final version. */
  lemma PredictorNamesInOrder(predictors: Recommender.NamedPredictors)
    ensures var r := Recommender.PredictorNames(predictors);
      |r| == |predictors| && forall k :: 0 <= k < |r| ==> r[k] == predictors[k].0
  {
  }

  /** The evaluator example: one user's four ratings against two mocked predictors, whose
      answers in call order are 4, 3, 2, 5 and 1, 1, 4, 1. */
  lemma ExampleComparison(ds: Dataset, a: Recommender.Predictor, b: Recommender.Predictor)
    requires ds.data == [Row(1, 1, 5.0), Row(1, 2, 4.0), Row(1, 3, 3.0), Row(1, 4, 5.0)]
    requires a(1, 1) == 4.0 && a(1, 2) == 3.0 && a(1, 3) == 2.0 && a(1, 4) == 5.0
    requires b(1, 1) == 1.0 && b(1, 2) == 1.0 && b(1, 3) == 4.0 && b(1, 4) == 1.0
    ensures var m := Updates(Comparisons(ds, [("A", a), ("B", b)], 1));
      && |m| == 4 && m.Keys == {1, 2, 3, 4}
      && m[1].errors == [1.0, 4.0] && m[2].errors == [1.0, 3.0]
      && m[3].errors == [1.0, 1.0] && m[4].errors == [0.0, 4.0]
  {
    var predictors: Recommender.NamedPredictors := [("A", a), ("B", b)];
    var m := Updates(Comparisons(ds, predictors, 1));
    var scanned := RatingsMap(ds.data, 1);
    ScannedComparison(ds, predictors, 1);
    ExampleScan(ds.data);
    assert m.Keys == {1, 2, 3, 4};
    assert |m| == |m.Keys|;
    assert m[1] == ComparisonOf(predictors, 1, 1, 5.0);
    assert m[2] == ComparisonOf(predictors, 1, 2, 4.0);
    assert m[3] == ComparisonOf(predictors, 1, 3, 3.0);
    assert m[4] == ComparisonOf(predictors, 1, 4, 5.0);
    ExampleErrors(predictors, a, b, 1, 5.0);
    ExampleErrors(predictors, a, b, 2, 4.0);
    ExampleErrors(predictors, a, b, 3, 3.0);
    ExampleErrors(predictors, a, b, 4, 5.0);
  }

  /** The comparison holds, for every item in the scanned dictionary of `u`, the comparison
      against the scanned rating. */
  lemma ScannedComparison(ds: Dataset, predictors: Recommender.NamedPredictors, u: UserId)
    ensures var m := Updates(Comparisons(ds, predictors, u));
      && m.Keys == RatingsMap(ds.data, u).Keys
      && forall i :: i in m ==> m[i] == ComparisonOf(predictors, u, i, RatingsMap(ds.data, u)[i])
  {
    UpdatesMapped(UserRows(ds.data, u), (i: ItemId, x: real) => ComparisonOf(predictors, u, i, x),
                  Comparisons(ds, predictors, u));
    UserRowsUpdates(ds.data, u);
  }

  lemma ExampleScan(rows: seq<Row>)
    requires rows == [Row(1, 1, 5.0), Row(1, 2, 4.0), Row(1, 3, 3.0), Row(1, 4, 5.0)]
    ensures RatingsMap(rows, 1) == map[1 := 5.0, 2 := 4.0, 3 := 3.0, 4 := 5.0]
  {
    assert rows[..3][..2][..1][..0] == [];
    assert rows[..3][..2][..1] == [Row(1, 1, 5.0)];
    assert rows[..3][..2] == [Row(1, 1, 5.0), Row(1, 2, 4.0)];
    assert rows[..3] == [Row(1, 1, 5.0), Row(1, 2, 4.0), Row(1, 3, 3.0)];
    assert RatingsMap(rows[..3][..2][..1], 1) == map[1 := 5.0];
    assert RatingsMap(rows[..3][..2], 1) == map[1 := 5.0, 2 := 4.0];
    assert RatingsMap(rows[..3], 1) == map[1 := 5.0, 2 := 4.0, 3 := 3.0];
  }

  lemma ExampleErrors(predictors: Recommender.NamedPredictors, a: Recommender.Predictor, b: Recommender.Predictor,
                      i: ItemId, x: real)
    requires predictors == [("A", a), ("B", b)]
    ensures ComparisonOf(predictors, 1, i, x).errors == [Abs(x - a(1, i)), Abs(x - b(1, i))]
  {
    var c := ComparisonOf(predictors, 1, i, x);
    assert c.predictedRatings[0] == a(1, i) && c.predictedRatings[1] == b(1, i);
    assert |c.errors| == 2;
  }
}
