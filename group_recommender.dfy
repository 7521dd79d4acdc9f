/** `GroupRecommender`: ranks the items for a group by a group prediction and, when asked
    to, remembers what it returned to each member set so that later calls leave those
    items out. */
module GroupRecommendation {
  import opened Common
  import opened Ratings
  import opened RatingIndex
  import opened Ranking
  import opened GroupAggregation
  import opened RecommendationLog

  /** `set(item for item, _ in recommendations)`. */
  function ItemsIn(recommendations: seq<(ItemId, real)>): (s: set<ItemId>)
    ensures forall i :: i in s <==> exists k :: 0 <= k < |recommendations| && recommendations[k].0 == i
  {
    set p | p in recommendations :: p.0
  }

  class GroupRecommender {
    const dataset: Dataset
    const groupPredictor: GroupPredictor
    const excludePrevious: bool
    /** The items returned so far to each member set; only kept with `excludePrevious`. */
    var previousRecommendations: map<set<UserId>, set<ItemId>>

    constructor(dataset: Dataset, groupPredictor: GroupPredictor, excludePrevious: bool)
      ensures this.dataset == dataset && this.groupPredictor == groupPredictor
      ensures this.excludePrevious == excludePrevious && previousRecommendations == map[]
    {
      this.dataset := dataset;
      this.groupPredictor := groupPredictor;
      this.excludePrevious := excludePrevious;
      previousRecommendations := map[];
    }

    /** `previous_recommendations.get(group_key, set())`. */
    function Previous(group: Group): (r: set<ItemId>)
      reads this
      ensures GroupKey(group) in previousRecommendations ==> r == previousRecommendations[GroupKey(group)]
      ensures GroupKey(group) !in previousRecommendations ==> r == {}
    {
      var groupKey := GroupKey(group);
      if groupKey in previousRecommendations then previousRecommendations[groupKey] else {}
    }

    /** `__filter_previously_recommended_items(group)`: all the items, less the ones
        already returned to the group's member set when previous recommendations are
        excluded. */
    function Candidates(group: Group): (r: set<ItemId>)
      requires Valid(dataset)
      reads this
      ensures excludePrevious ==> forall i :: i in r <==> i in ItemsOf(dataset.data) && i !in Previous(group)
      ensures !excludePrevious ==> r == ItemsOf(dataset.data)
    {
      var allItems := set i | i in GetAllItems(dataset);
      if excludePrevious then allItems - Previous(group) else allItems
    }

    /** `get_recommendations(group, limit)`: the candidates, in the set order `candidates`,
        scored by the group prediction, sorted by score and cut to `limit`. */
    method GetRecommendations(group: Group, limit: int)
      returns (r: seq<(ItemId, real)>, ghost candidates: seq<ItemId>)
      requires Valid(dataset)
      modifies this
      ensures Enumerates(candidates, old(Candidates(group)))
      ensures r == TopScored(candidates, group, groupPredictor, limit)
      ensures forall p :: p in r ==> p.0 in ItemsOf(dataset.data) && p.1 == groupPredictor(group, p.0)
      ensures excludePrevious ==> forall p :: p in r ==> p.0 !in old(Previous(group))
      ensures limit >= 0 ==> |r| == Min(limit, |old(Candidates(group))|)
      ensures excludePrevious ==>
        previousRecommendations == old(previousRecommendations)[GroupKey(group) := old(Previous(group)) + ItemsIn(r)]
      ensures !excludePrevious ==> previousRecommendations == old(previousRecommendations)
    {
      var allItems := Candidates(group);
      var items := Enumerate(allItems);
      candidates := items;
      EnumerationSize(items, allItems);
      r := TopScored(items, group, groupPredictor, limit);
      UpdatePreviousRecommendations(group, r);
    }

    /** `__update_previous_recommendations(group, recommendations)`: with
        `excludePrevious`, the group's set grows by the returned items and no other entry
        changes; otherwise nothing is recorded. */
    method UpdatePreviousRecommendations(group: Group, recommendations: seq<(ItemId, real)>)
      modifies this
      ensures excludePrevious ==>
        previousRecommendations ==
        old(previousRecommendations)[GroupKey(group) := old(Previous(group)) + ItemsIn(recommendations)]
      ensures !excludePrevious ==> previousRecommendations == old(previousRecommendations)
    {
      if excludePrevious {
        var groupKey := GroupKey(group);
        if groupKey in previousRecommendations && previousRecommendations[groupKey] != {} {
          previousRecommendations := previousRecommendations[groupKey :=
            previousRecommendations[groupKey] + ItemsIn(recommendations)];
        } else {
          assert old(Previous(group)) + ItemsIn(recommendations) == ItemsIn(recommendations);
          previousRecommendations := previousRecommendations[groupKey := ItemsIn(recommendations)];
        }
      }
    }
  }

  /** The recommender example: items 1, 2 and 3 listed in that order and predicted 4, 5
      and 1 come out as item 2, then 1, then 3. */
  lemma ExampleGroupRecommendations(groupPredictor: GroupPredictor, group: Group)
    requires groupPredictor(group, 1) == 4.0 && groupPredictor(group, 2) == 5.0 && groupPredictor(group, 3) == 1.0
    ensures TopScored([1, 2, 3], group, groupPredictor, 3) == [(2, 5.0), (1, 4.0), (3, 1.0)]
  {
    var p1: (ItemId, real), p2: (ItemId, real), p3: (ItemId, real) := (1, 4.0), (2, 5.0), (3, 1.0);
    var s := [p1, p2, p3];
    assert Scored([1, 2, 3], group, groupPredictor) == s;
    assert s[..2] == [p1, p2] && [p1, p2][..1] == [p1] && [p1][..0] == [];
    assert SortDesc([p1], Score) == [p1];
    assert Insert([p1], p2, Score) == [p2, p1];
    assert SortDesc([p1, p2], Score) == [p2, p1];
    assert Insert([p1][1..], p3, Score) == [p3];
    assert Insert([p2, p1][1..], p3, Score) == [p1, p3];
    assert Insert([p2, p1], p3, Score) == [p2, p1, p3];
    assert SortDesc(s, Score) == [p2, p1, p3];
  }
}
