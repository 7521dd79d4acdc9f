/** `UserSatisfaction`: how much a member likes a group's list, as the ratio of what the
    member gets from it to what the member would get from their own list of the same
    length. The member's own list comes from the recommender, a parameter, and is kept
    after the first call that returns a non-empty one. */
module Satisfaction {
  import opened Common
  import opened Ratings
  import opened RatingIndex
  import opened GroupAggregation
  import Recommender

  /** `Recommender.get_recommendations(user, limit)`: the user's own ranked list. */
  type PersonalRecommender = (UserId, int) -> seq<(ItemId, real)>

  /** The lists kept so far, by user. */
  type Cache = map<UserId, seq<(ItemId, real)>>

  /** `[rating for _, rating in user_recommendations]`. */
  function Scores(list: seq<(ItemId, real)>): (r: seq<real>)
    ensures |r| == |list| && forall k :: 0 <= k < |r| ==> r[k] == list[k].1
  {
    seq(|list|, k requires 0 <= k < |list| => list[k].1)
  }

  /** The member's relevance for each item of the group's list: the stored rating, or the
      prediction when that is 0. */
  function ItemRelevances(ds: Dataset, prediction: Recommender.Predictor, user: UserId, items: seq<ItemId>)
    : (r: seq<real>)
    requires Valid(ds) && user in UsersOf(ds.data)
    ensures |r| == |items| && forall k :: 0 <= k < |r| ==> r[k] == Relevance(ds, prediction, user, items[k])
  {
    seq(|items|, k requires 0 <= k < |items| => Relevance(ds, prediction, user, items[k]))
  }

  /** `__get_user_recommendations(user, limit)`: the kept list when there is a non-empty
      one, whatever `limit` is now; otherwise a fresh list of length `limit`. */
  function PersonalList(cache: Cache, recommender: PersonalRecommender, user: UserId, limit: int)
    : seq<(ItemId, real)>
  {
    if user in cache && cache[user] != [] then cache[user] else recommender(user, limit)
  }

  /** The kept lists after such a call: the user's entry is the list returned. */
  function CacheAfter(cache: Cache, recommender: PersonalRecommender, user: UserId, limit: int): (c: Cache)
    ensures c.Keys == cache.Keys + {user}
    ensures c[user] == PersonalList(cache, recommender, user, limit)
    ensures forall v :: v in cache && v != user ==> c[v] == cache[v]
  {
    cache[user := PersonalList(cache, recommender, user, limit)]
  }

  /** A list once kept is what every later call returns, whatever length it asks for; an
      empty list is asked for again. */
  lemma KeptListIsReused(cache: Cache, recommender: PersonalRecommender, user: UserId, first: int, later: int)
    ensures var kept := PersonalList(cache, recommender, user, first);
      PersonalList(CacheAfter(cache, recommender, user, first), recommender, user, later) ==
        if kept != [] then kept else recommender(user, later)
  {
  }

  /** `group_list_satisfaction / user_list_satisfaction`: a zero denominator raises. */
  function Ratio(groupTotal: real, personalTotal: real): (r: Result<real>)
    ensures personalTotal == 0.0 <==> r == Err(ZeroDivisionError)
    ensures r.Ok? ==> r.value * personalTotal == groupTotal
  {
    if personalTotal == 0.0 then Err(ZeroDivisionError) else Ok(groupTotal / personalTotal)
  }

  /** The outcome of `get_satisfaction(user, group_recommendation)` from the kept lists
      `cache`: the member's total relevance over the group's list, over the total score
      of the member's own list of that length. */
  function SatisfactionWith(ds: Dataset, prediction: Recommender.Predictor, recommender: PersonalRecommender,
                            cache: Cache, user: UserId, items: seq<ItemId>): Result<real>
    requires Valid(ds) && user in UsersOf(ds.data)
  {
    Ratio(Sum(ItemRelevances(ds, prediction, user, items)),
          Sum(Scores(PersonalList(cache, recommender, user, |items|))))
  }

  /** A group list that is the member's own list, each item as relevant to the member as
      its score says, satisfies fully. */
  lemma OwnListSatisfiesFully(ds: Dataset, prediction: Recommender.Predictor, recommender: PersonalRecommender,
                              cache: Cache, user: UserId, items: seq<ItemId>)
    requires Valid(ds) && user in UsersOf(ds.data)
    requires var own := PersonalList(cache, recommender, user, |items|);
      |own| == |items| && Sum(Scores(own)) != 0.0 &&
      forall k :: 0 <= k < |items| ==> own[k].0 == items[k] && Relevance(ds, prediction, user, items[k]) == own[k].1
    ensures SatisfactionWith(ds, prediction, recommender, cache, user, items) == Ok(1.0)
  {
    var own := PersonalList(cache, recommender, user, |items|);
    assert ItemRelevances(ds, prediction, user, items) == Scores(own);
    var total := Sum(Scores(own));
    assert SatisfactionWith(ds, prediction, recommender, cache, user, items) == Ratio(total, total);
    assert total / total == 1.0;
  }

  /** Every item of the group's list is worth 1 to the member, every item of the member's
      own list scores 5: four items give 4/20. */
  lemma ExampleSatisfaction(ds: Dataset, prediction: Recommender.Predictor, recommender: PersonalRecommender,
                            cache: Cache, user: UserId, items: seq<ItemId>)
    requires Valid(ds) && user in UsersOf(ds.data) && |items| == 4
    requires forall k :: 0 <= k < 4 ==> Relevance(ds, prediction, user, items[k]) == 1.0
    requires var own := PersonalList(cache, recommender, user, 4);
      |own| == 4 && forall k :: 0 <= k < 4 ==> own[k].1 == 5.0
    ensures SatisfactionWith(ds, prediction, recommender, cache, user, items) == Ok(4.0 / 20.0)
  {
    var relevances := ItemRelevances(ds, prediction, user, items);
    var scores := Scores(PersonalList(cache, recommender, user, 4));
    SumBounds(relevances, 1.0, 1.0);
    SumBounds(scores, 5.0, 5.0);
    assert Sum(relevances) == 4.0 && Sum(scores) == 20.0;
    assert Ratio(4.0, 20.0) == Ok(4.0 / 20.0);
  }

  class UserSatisfaction {
    const recommender: PersonalRecommender
    const prediction: Recommender.Predictor
    const dataset: Dataset
    var userRecommendations: Cache

    constructor(recommender: PersonalRecommender, prediction: Recommender.Predictor, dataset: Dataset)
      ensures this.recommender == recommender && this.prediction == prediction && this.dataset == dataset
      ensures userRecommendations == map[]
    {
      this.recommender := recommender;
      this.prediction := prediction;
      this.dataset := dataset;
      userRecommendations := map[];
    }

    /** `__get_user_recommendations(user, limit)`: asks the recommender only when no
        non-empty list is kept for `user`, and keeps what it returns. */
    method GetUserRecommendations(user: UserId, limit: int) returns (r: seq<(ItemId, real)>)
      modifies this
      ensures r == PersonalList(old(userRecommendations), recommender, user, limit)
      ensures userRecommendations == CacheAfter(old(userRecommendations), recommender, user, limit)
    {
      if !(user in userRecommendations && userRecommendations[user] != []) {
        var fetched := recommender(user, limit);
        userRecommendations := userRecommendations[user := fetched];
      }
      r := userRecommendations[user];
    }

    /** `get_satisfaction(user, group_recommendation)`: the loop over the group's list,
        then the member's own list of the same length. */
    method GetSatisfaction(user: UserId, groupRecommendation: seq<ItemId>) returns (r: Result<real>)
      requires Valid(dataset) && user in UsersOf(dataset.data)
      modifies this
      ensures r == SatisfactionWith(dataset, prediction, recommender, old(userRecommendations), user, groupRecommendation)
      ensures userRecommendations ==
        CacheAfter(old(userRecommendations), recommender, user, |groupRecommendation|)
    {
      var groupListUserRatings: seq<real> := [];
      for j := 0 to |groupRecommendation|
        invariant groupListUserRatings == ItemRelevances(dataset, prediction, user, groupRecommendation[..j])
      {
        var item := groupRecommendation[j];
        var rating := GetRating(dataset, user, item);
        if rating == 0.0 {
          rating := prediction(user, item);
        }
        groupListUserRatings := groupListUserRatings + [rating];
      }
      assert groupRecommendation[..|groupRecommendation|] == groupRecommendation;
      var groupListSatisfaction := Sum(groupListUserRatings);
      var userRecs := GetUserRecommendations(user, |groupRecommendation|);
      var userListSatisfaction := Sum(Scores(userRecs));
      if userListSatisfaction == 0.0 {
        r := Err(ZeroDivisionError);
      } else {
        r := Ok(groupListSatisfaction / userListSatisfaction);
      }
    }
  }
}
