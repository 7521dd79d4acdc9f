/** `Recommender` and `PerformanceEvaluator` of the final version. The predictor is a
    parameter: a function from a user and an item to the predicted rating. */
module Recommender {
  import opened Common
  import opened PyDict
  import opened Ratings
  import opened RatingIndex
  import opened Ranking

  type Predictor = (UserId, ItemId) -> real

  /** `get_recommendations(u, limit)`: the items `u` did not rate, in the set order
      `unrated`, scored by the predictor and ranked. */
  method GetRecommendations(ds: Dataset, predictor: Predictor, u: UserId, limit: int)
    returns (r: seq<(ItemId, real)>, ghost unrated: seq<ItemId>)
    requires Valid(ds) && u in UsersOf(ds.data)
    ensures Enumerates(unrated, ItemsOf(ds.data) - RatedItems(ds.data, u))
    ensures r == TopScored(unrated, u, predictor, limit)
    ensures forall p :: p in r ==>
      p.0 in ItemsOf(ds.data) && p.0 !in RatedItems(ds.data, u) && p.1 == predictor(u, p.0)
    ensures limit >= 0 ==> |r| == Min(limit, |ItemsOf(ds.data) - RatedItems(ds.data, u)|)
  {
    var unratedItems := GetItemsNotRatedByUser(ds, u);
    unrated := unratedItems;
    EnumerationSize(unratedItems, ItemsOf(ds.data) - RatedItems(ds.data, u));
    r := TopScored(unratedItems, u, predictor, limit);
  }

  /** The recommender example: of two unrated items scored 1 and 5, the second comes first. */
  lemma ExampleRecommendations(predictor: Predictor)
    requires predictor(0, 1) == 1.0 && predictor(0, 2) == 5.0
    ensures TopScored([1, 2], 0, predictor, 2) == [(2, 5.0), (1, 1.0)]
  {
    var p1: (ItemId, real), p2: (ItemId, real) := (1, 1.0), (2, 5.0);
    assert Scored([1, 2], 0, predictor) == [p1, p2];
    assert [p1, p2][..1] == [p1] && [p1][..0] == [] && [p1][1..] == [];
    assert SortDesc([p1], Score) == [p1];
    assert Insert([p1], p2, Score) == [p2, p1];
  }

  datatype ItemPrediction = ItemPrediction(item: ItemId, prediction: real, actualRating: real)

  /** `absolute_error`: never negative, and 0 exactly for an exact prediction. */
  function AbsoluteError(p: ItemPrediction): (r: real)
    ensures r >= 0.0
    ensures r == 0.0 <==> p.prediction == p.actualRating
    ensures r == p.actualRating - p.prediction || r == p.prediction - p.actualRating
  {
    Abs(p.actualRating - p.prediction)
  }

  /** An `Evaluation`: one prediction per rated item, in the order of the user's ratings. */
  datatype Evaluation = Evaluation(predictions: seq<ItemPrediction>)

  function Errors(e: Evaluation): (r: seq<real>)
    ensures |r| == |e.predictions|
    ensures forall k :: 0 <= k < |r| ==> r[k] == AbsoluteError(e.predictions[k])
  {
    MapSeq(AbsoluteError, e.predictions)
  }

  /** `mean_absolute_error`: the mean of the absolute errors, between the smallest and the
      largest of them; an empty evaluation divides by zero. */
  function MeanAbsoluteError(e: Evaluation): (r: real)
    requires |e.predictions| > 0
    ensures r >= 0.0
    ensures MinOf(Errors(e)) <= r <= MaxOf(Errors(e))
  {
    var errors := Errors(e);
    MeanBounds(errors);
    Sum(errors) / (|errors| as real)
  }

  /** A predictor with no error on any item has mean absolute error 0. */
  lemma ExactPredictionsHaveNoError(e: Evaluation)
    requires |e.predictions| > 0
    requires forall k :: 0 <= k < |e.predictions| ==> e.predictions[k].prediction == e.predictions[k].actualRating
    ensures MeanAbsoluteError(e) == 0.0
  {
    var errors := Errors(e);
    var k :| 0 <= k < |errors| && errors[k] == MaxOf(errors);
  }

  /** The evaluator example: errors 1, 1, 1 and 0 average to 0.75. */
  lemma ExampleMeanAbsoluteError()
    ensures MeanAbsoluteError(Evaluation([
      ItemPrediction(1, 4.0, 5.0), ItemPrediction(2, 3.0, 4.0),
      ItemPrediction(3, 2.0, 3.0), ItemPrediction(4, 5.0, 5.0)])) == 0.75
  {
    var e := Evaluation([
      ItemPrediction(1, 4.0, 5.0), ItemPrediction(2, 3.0, 4.0),
      ItemPrediction(3, 2.0, 3.0), ItemPrediction(4, 5.0, 5.0)]);
    var errors := Errors(e);
    assert errors == [1.0, 1.0, 1.0, 0.0];
    assert errors[..3] == [1.0, 1.0, 1.0] && errors[..3][..2] == [1.0, 1.0];
    assert [1.0, 1.0][..1] == [1.0] && [1.0][..0] == [];
    assert Sum([1.0]) == 1.0;
    assert Sum([1.0, 1.0]) == 2.0;
    assert Sum([1.0, 1.0, 1.0]) == 3.0;
    assert Sum(errors) == 3.0;
  }

  /** The `Evaluation` of one predictor: an `ItemPrediction` for every rating of `u`. */
  function EvaluationOf(ds: Dataset, predictor: Predictor, u: UserId): (e: Evaluation)
    requires Valid(ds) && u in UsersOf(ds.data)
    ensures forall i :: i in RatedItems(ds.data, u) <==> exists p :: p in e.predictions && p.item == i
    ensures forall p :: p in e.predictions ==>
      LastRating(ds.data, u, p.item) == Some(p.actualRating) && p.prediction == predictor(u, p.item)
    ensures |e.predictions| == |RatedItems(ds.data, u)|
  {
    var ratings := GetRatingsByUser(ds, u);
    var e := Evaluation(seq(|ratings|, k requires 0 <= k < |ratings| =>
      ItemPrediction(ratings[k].0, predictor(u, ratings[k].0), ratings[k].1)));
    assert forall p :: p in e.predictions ==> (p.item, p.actualRating) in ratings by {
      forall p | p in e.predictions ensures (p.item, p.actualRating) in ratings {
        var k :| 0 <= k < |e.predictions| && e.predictions[k] == p;
        assert ratings[k] == (p.item, p.actualRating);
      }
    }
    assert forall i :: i in RatedItems(ds.data, u) ==> exists p :: p in e.predictions && p.item == i by {
      forall i | i in RatedItems(ds.data, u) ensures exists p :: p in e.predictions && p.item == i {
        assert i in Keys(ratings);
        var k :| 0 <= k < |ratings| && ratings[k].0 == i;
        assert e.predictions[k] in e.predictions;
      }
    }
    DictSize(ratings);
    e
  }

  /** `(name, predictor)` pairs, in the order given. */
  type NamedPredictors = seq<(string, Predictor)>

  /** `(name, Evaluation)` for every predictor, in predictor order. */
  function Evaluations(ds: Dataset, predictors: NamedPredictors, u: UserId): (r: seq<(string, Evaluation)>)
    requires Valid(ds) && u in UsersOf(ds.data)
    ensures |r| == |predictors|
    ensures forall k :: 0 <= k < |r| ==> r[k] == (predictors[k].0, EvaluationOf(ds, predictors[k].1, u))
  {
    seq(|predictors|, k requires 0 <= k < |predictors| => (predictors[k].0, EvaluationOf(ds, predictors[k].1, u)))
  }

  /** `get_comparison_by_user(u)`: the evaluations of the predictors, each `update`
      replacing the entry of its name, so that by `UpdatesEntries` every name has the
      evaluation of the last predictor with that name. */
  method GetComparisonByUser(ds: Dataset, predictors: NamedPredictors, u: UserId)
    returns (comparisons: map<string, Evaluation>)
    requires Valid(ds) && u in UsersOf(ds.data)
    ensures comparisons == Updates(Evaluations(ds, predictors, u))
  {
    ghost var evaluations := Evaluations(ds, predictors, u);
    comparisons := map[];
    for j := 0 to |predictors|
      invariant comparisons == Updates(evaluations[..j])
    {
      var (name, predictor) := predictors[j];
      var evaluation := EvaluationOf(ds, predictor, u);
      assert evaluations[..j + 1][..j] == evaluations[..j];
      comparisons := comparisons[name := evaluation];
    }
    assert evaluations[..|predictors|] == evaluations;
  }

  /** `predictor_names`: the names, in predictor order. */
  function PredictorNames(predictors: NamedPredictors): (r: seq<string>)
    ensures |r| == |predictors| && forall k :: 0 <= k < |r| ==> r[k] == predictors[k].0
  {
    seq(|predictors|, k requires 0 <= k < |predictors| => predictors[k].0)
  }

  /** `get_all_predictions(predictor)`: every user mapped to the predictions for every item,
      in item-list order. */
  method GetAllPredictions(ds: Dataset, predictor: Predictor) returns (result: map<UserId, seq<(ItemId, real)>>)
    requires Valid(ds)
    ensures result.Keys == UsersOf(ds.data)
    ensures forall u :: u in result ==> result[u] == Scored(GetAllItems(ds), u, predictor)
  {
    var allUsers := GetAllUsers(ds);
    result := map[];
    for j := 0 to |allUsers|
      invariant forall u :: u in result <==> u in allUsers[..j]
      invariant forall u :: u in result ==> result[u] == Scored(GetAllItems(ds), u, predictor)
    {
      var u := allUsers[j];
      assert allUsers[..j + 1] == allUsers[..j] + [u];
      result := result[u := Scored(GetAllItems(ds), u, predictor)];
    }
    assert allUsers[..|allUsers|] == allUsers;
    assert forall u :: u in result.Keys <==> u in UsersOf(ds.data);
  }

  /** Every predicted list has one entry per item, each item once. */
  lemma AllPredictionsCoverItems(ds: Dataset, predictor: Predictor, u: UserId)
    requires Valid(ds)
    ensures var r := Scored(GetAllItems(ds), u, predictor);
      |r| == |ItemsOf(ds.data)| && forall i :: i in ItemsOf(ds.data) <==> (i, predictor(u, i)) in r
  {
    var items := GetAllItems(ds);
    var r := Scored(items, u, predictor);
    EnumerationSize(items, ItemsOf(ds.data));
    forall i | i in ItemsOf(ds.data) ensures (i, predictor(u, i)) in r {
      var k :| 0 <= k < |items| && items[k] == i;
      assert r[k] == (i, predictor(u, i));
    }
  }
}
