/** `AverageAggregation`: the group prediction for an item is the mean of the members'
    individual relevances, a member's relevance being its stored rating or, when that
    rating is 0, the individual prediction. A group is a list of user ids, so a member
    listed twice counts twice. */
module GroupAggregation {
  import opened Common
  import opened Ratings
  import opened RatingIndex
  import Recommender

  type Group = seq<UserId>

  /** A group predictor: `GroupPrediction.get_prediction(group, item)`. */
  type GroupPredictor = (Group, ItemId) -> real

  ghost predicate Members(ds: Dataset, group: Group)
  {
    forall k :: 0 <= k < |group| ==> group[k] in UsersOf(ds.data)
  }

  /** A member's relevance for an item: the rating `u` gave it, or the prediction when `u`
      did not rate it or rated it 0. */
  function Relevance(ds: Dataset, predictor: Recommender.Predictor, u: UserId, i: ItemId): (r: real)
    requires Valid(ds) && u in UsersOf(ds.data)
    ensures i in RatedItems(ds.data, u) && RatingOrZero(ds.data, u, i) != 0.0 ==> r == RatingOrZero(ds.data, u, i)
    ensures i !in RatedItems(ds.data, u) || RatingOrZero(ds.data, u, i) == 0.0 ==> r == predictor(u, i)
  {
    var rating := GetRating(ds, u, i);
    if rating == 0.0 then predictor(u, i) else rating
  }

  /** The predictor is consulted only for a 0 rating: with a non-zero rating any two
      predictors give the same relevance. */
  lemma PredictorOnlyForZeroRatings(ds: Dataset, p: Recommender.Predictor, q: Recommender.Predictor,
                                    u: UserId, i: ItemId)
    requires Valid(ds) && u in UsersOf(ds.data) && GetRating(ds, u, i) != 0.0
    ensures Relevance(ds, p, u, i) == Relevance(ds, q, u, i) == GetRating(ds, u, i)
  {
  }

  /** The relevances of the members, in group order. */
  function Relevances(ds: Dataset, predictor: Recommender.Predictor, group: Group, i: ItemId): (r: seq<real>)
    requires Valid(ds) && Members(ds, group)
    ensures |r| == |group|
    ensures forall k :: 0 <= k < |r| ==> r[k] == Relevance(ds, predictor, group[k], i)
  {
    seq(|group|, k requires 0 <= k < |group| => Relevance(ds, predictor, group[k], i))
  }

  /** The mean relevance, which lies between the smallest and the largest relevance. */
  function AveragePrediction(ds: Dataset, predictor: Recommender.Predictor, group: Group, i: ItemId): (r: real)
    requires Valid(ds) && Members(ds, group) && |group| > 0
    ensures MinOf(Relevances(ds, predictor, group, i)) <= r <= MaxOf(Relevances(ds, predictor, group, i))
  {
    var relevances := Relevances(ds, predictor, group, i);
    MeanBounds(relevances);
    Sum(relevances) / (|group| as real)
  }

  /** `AverageAggregation.get_prediction(group, item)`: the loop that collects the members'
      relevances, then their sum over the group size; an empty group divides by zero. */
  method GetPrediction(ds: Dataset, predictor: Recommender.Predictor, group: Group, item: ItemId)
    returns (r: Result<real>)
    requires Valid(ds) && Members(ds, group)
    ensures group == [] <==> r == Err(ZeroDivisionError)
    ensures group != [] ==> r == Ok(AveragePrediction(ds, predictor, group, item))
  {
    var userRatings: seq<real> := [];
    for j := 0 to |group|
      invariant userRatings == Relevances(ds, predictor, group[..j], item)
    {
      var user := group[j];
      var userRating := GetRating(ds, user, item);
      if userRating == 0.0 {
        userRating := predictor(user, item);
      }
      userRatings := userRatings + [userRating];
    }
    assert group[..|group|] == group;
    if |group| == 0 {
      r := Err(ZeroDivisionError);
    } else {
      r := Ok(Sum(userRatings) / (|group| as real));
    }
  }

  /** The order of the members does not matter, but how often each is listed does: groups
      with the same members the same number of times get the same prediction. */
  lemma MemberOrderIgnored(ds: Dataset, predictor: Recommender.Predictor, g: Group, h: Group, i: ItemId)
    requires Valid(ds) && Members(ds, g) && |g| > 0 && multiset(g) == multiset(h)
    ensures Members(ds, h) && |h| == |g|
    ensures AveragePrediction(ds, predictor, g, i) == AveragePrediction(ds, predictor, h, i)
  {
    assert |h| == |multiset(h)| == |multiset(g)| == |g|;
    forall k | 0 <= k < |h| ensures h[k] in UsersOf(ds.data) {
      assert h[k] in multiset(g);
    }
    var f := (u: UserId) => if u in UsersOf(ds.data) then Relevance(ds, predictor, u, i) else 0.0;
    assert Relevances(ds, predictor, g, i) == MapSeq(f, g);
    assert Relevances(ds, predictor, h, i) == MapSeq(f, h);
    MapPermutation(f, g, h);
    SumPermutation(Relevances(ds, predictor, g, i), Relevances(ds, predictor, h, i));
  }

  /** A member listed twice weighs double: `[u, u, v]` averages `u` twice and `v` once. */
  lemma RepeatedMemberWeighsDouble(ds: Dataset, predictor: Recommender.Predictor, u: UserId, v: UserId, i: ItemId)
    requires Valid(ds) && u in UsersOf(ds.data) && v in UsersOf(ds.data)
    ensures AveragePrediction(ds, predictor, [u, u, v], i) ==
      (2.0 * Relevance(ds, predictor, u, i) + Relevance(ds, predictor, v, i)) / 3.0
  {
    var a, b := Relevance(ds, predictor, u, i), Relevance(ds, predictor, v, i);
    var s := Relevances(ds, predictor, [u, u, v], i);
    assert s == [a, a, b];
    SumOfThree(a, a, b);
    assert AveragePrediction(ds, predictor, [u, u, v], i) == Sum(s) / 3.0;
  }

  /** The aggregation example: the first member has no rating and is predicted 3, the
      second rated the item 4, so the group gets 3.5. */
  lemma ExampleAverage(ds: Dataset, predictor: Recommender.Predictor)
    requires Valid(ds) && 1 in UsersOf(ds.data) && 2 in UsersOf(ds.data)
    requires GetRating(ds, 1, 1) == 0.0 && GetRating(ds, 2, 1) == 4.0 && predictor(1, 1) == 3.0
    ensures AveragePrediction(ds, predictor, [1, 2], 1) == 3.5
  {
    assert Relevance(ds, predictor, 1, 1) == 3.0;
    assert Relevance(ds, predictor, 2, 1) == 4.0;
    AverageOfTwo(ds, predictor, 1, 2, 1);
  }

  lemma AverageOfTwo(ds: Dataset, predictor: Recommender.Predictor, u: UserId, v: UserId, i: ItemId)
    requires Valid(ds) && u in UsersOf(ds.data) && v in UsersOf(ds.data)
    ensures AveragePrediction(ds, predictor, [u, v], i) ==
      (Relevance(ds, predictor, u, i) + Relevance(ds, predictor, v, i)) / 2.0
  {
    var a, b := Relevance(ds, predictor, u, i), Relevance(ds, predictor, v, i);
    var s := Relevances(ds, predictor, [u, v], i);
    assert s == [a, b];
    SumOfTwo(a, b);
    assert AveragePrediction(ds, predictor, [u, v], i) == Sum(s) / 2.0;
  }
}
