/** `SequentialGroupRecommenderImpl`: recommends to a group, round after round, only items
    it has not recommended to the same member set before, and logs each round. */
module SequentialGroup {
  import opened Common
  import opened Ratings
  import opened RatingIndex
  import opened Ranking
  import opened GroupAggregation
  import opened RecommendationLog
  import GroupRecommendation

  class SequentialGroupRecommender {
    const dataset: Dataset
    const predictor: GroupPredictor
    /** The rounds recommended so far, created empty with the recommender. */
    const log: RecommendationsLog

    constructor(dataset: Dataset, predictor: GroupPredictor)
      ensures this.dataset == dataset && this.predictor == predictor
      ensures fresh(log) && log.dataset == dataset && log.recommendations == map[]
    {
      this.dataset := dataset;
      this.predictor := predictor;
      log := new RecommendationsLog(dataset);
    }

    /** `get_recommendations(group, limit)`: the items left to recommend to the group, in
        the set order `candidates`, scored by the prediction, sorted by score and cut to
        `limit`; the items returned are logged as one more round, even when there are
        none. */
    method GetRecommendations(group: Group, limit: int)
      returns (r: seq<(ItemId, real)>, ghost candidates: seq<ItemId>)
      requires Valid(dataset) && log.dataset == dataset
      modifies log
      ensures Enumerates(candidates, old(log.GetUnrecommendedItems(group)))
      ensures r == TopScored(candidates, group, predictor, limit)
      ensures forall p :: p in r ==>
        p.0 in old(log.GetUnrecommendedItems(group)) && p.1 == predictor(group, p.0)
      ensures limit >= 0 ==> |r| == Min(limit, |old(log.GetUnrecommendedItems(group))|)
      ensures log.recommendations == old(log.recommendations)[GroupKey(group) :=
        old(log.GetPreviousRecommendations(group)) + [GroupRecommendation.ItemsIn(r)]]
      ensures log.GetUnrecommendedItems(group) == old(log.GetUnrecommendedItems(group)) - GroupRecommendation.ItemsIn(r)
      ensures DisjointRounds(old(log.GetPreviousRecommendations(group))) ==>
        DisjointRounds(log.GetPreviousRecommendations(group))
    {
      var allItems := log.GetUnrecommendedItems(group);
      ghost var rounds := log.GetPreviousRecommendations(group);
      var items := Enumerate(allItems);
      candidates := items;
      EnumerationSize(items, allItems);
      r := TopScored(items, group, predictor, limit);
      var recommended := GroupRecommendation.ItemsIn(r);
      assert recommended <= Unrecommended(GetAllItems(dataset), rounds);
      if DisjointRounds(rounds) {
        RoundsStayDisjoint(GetAllItems(dataset), rounds, recommended);
      }
      log.AddRecommendation(group, recommended);
    }

    /** `get_previous_recommendations(group)`: every logged round of the group's member set,
        each listed in set order. */
    method GetPreviousRecommendations(group: Group) returns (r: seq<seq<ItemId>>)
      ensures |r| == |log.GetPreviousRecommendations(group)|
      ensures forall k :: 0 <= k < |r| ==> Enumerates(r[k], log.GetPreviousRecommendations(group)[k])
    {
      var rounds := log.GetPreviousRecommendations(group);
      r := [];
      for j := 0 to |rounds|
        invariant |r| == j
        invariant forall k :: 0 <= k < j ==> Enumerates(r[k], rounds[k])
      {
        var items := Enumerate(rounds[j]);
        r := r + [items];
      }
    }
  }

  /** The first round of the example: items 1 to 5 predicted 5, 4.5, 1, 4.8 and 4.9, two
      at a time, give items 1 and 5. */
  lemma ExampleFirstRound(predictor: GroupPredictor, group: Group)
    requires predictor(group, 1) == 5.0 && predictor(group, 2) == 4.5 && predictor(group, 3) == 1.0
    requires predictor(group, 4) == 4.8 && predictor(group, 5) == 4.9
    ensures TopScored([1, 2, 3, 4, 5], group, predictor, 2) == [(1, 5.0), (5, 4.9)]
  {
    var s: seq<(ItemId, real)> := [(1, 5.0), (2, 4.5), (3, 1.0), (4, 4.8), (5, 4.9)];
    assert Scored([1, 2, 3, 4, 5], group, predictor) == s;
    FirstRoundSorted();
    assert [(1, 5.0), (5, 4.9), (4, 4.8), (2, 4.5), (3, 1.0)][..2] == [(1, 5.0), (5, 4.9)];
  }

  lemma FirstRoundSorted()
    ensures SortDesc([(1, 5.0), (2, 4.5), (3, 1.0), (4, 4.8), (5, 4.9)], Score) ==
      [(1, 5.0), (5, 4.9), (4, 4.8), (2, 4.5), (3, 1.0)]
  {
    var p1: (ItemId, real), p2: (ItemId, real), p3: (ItemId, real) := (1, 5.0), (2, 4.5), (3, 1.0);
    var p4: (ItemId, real), p5: (ItemId, real) := (4, 4.8), (5, 4.9);
    var s := [p1, p2, p3, p4, p5];
    FirstThreeSorted();
    assert s[..4] == [p1, p2, p3, p4] && [p1, p2, p3, p4][..3] == [p1, p2, p3];
    InsertAt([p1, p2, p3], p4, Score, 1);
    assert SortDesc([p1, p2, p3, p4], Score) == [p1, p4, p2, p3];
    InsertAt([p1, p4, p2, p3], p5, Score, 1);
  }

  lemma FirstThreeSorted()
    ensures SortDesc([(1, 5.0), (2, 4.5), (3, 1.0)], Score) == [(1, 5.0), (2, 4.5), (3, 1.0)]
  {
    var p1: (ItemId, real), p2: (ItemId, real), p3: (ItemId, real) := (1, 5.0), (2, 4.5), (3, 1.0);
    assert [p1, p2, p3][..2] == [p1, p2] && [p1, p2][..1] == [p1] && [p1][..0] == [];
    assert SortDesc([p1], Score) == [p1];
    InsertAt([p1], p2, Score, 1);
    assert SortDesc([p1, p2], Score) == [p1, p2];
    InsertAt([p1, p2], p3, Score, 2);
  }

  /** The second round of the example: what is left, items 2, 3 and 4, gives 4 and 2. */
  lemma ExampleSecondRound(predictor: GroupPredictor, group: Group)
    requires predictor(group, 2) == 4.5 && predictor(group, 3) == 1.0 && predictor(group, 4) == 4.8
    ensures TopScored([2, 3, 4], group, predictor, 2) == [(4, 4.8), (2, 4.5)]
  {
    var s: seq<(ItemId, real)> := [(2, 4.5), (3, 1.0), (4, 4.8)];
    assert Scored([2, 3, 4], group, predictor) == s;
    SecondRoundSorted();
    assert [(4, 4.8), (2, 4.5), (3, 1.0)][..2] == [(4, 4.8), (2, 4.5)];
  }

  lemma SecondRoundSorted()
    ensures SortDesc([(2, 4.5), (3, 1.0), (4, 4.8)], Score) == [(4, 4.8), (2, 4.5), (3, 1.0)]
  {
    var p2: (ItemId, real), p3: (ItemId, real), p4: (ItemId, real) := (2, 4.5), (3, 1.0), (4, 4.8);
    assert [p2, p3, p4][..2] == [p2, p3] && [p2, p3][..1] == [p2] && [p2][..0] == [];
    assert SortDesc([p2], Score) == [p2];
    InsertAt([p2], p3, Score, 1);
    assert SortDesc([p2, p3], Score) == [p2, p3];
    InsertAt([p2, p3], p4, Score, 0);
  }

  /** The third round of the example: only item 3 is left, and it is returned alone. */
  lemma ExampleThirdRound(predictor: GroupPredictor, group: Group)
    requires predictor(group, 3) == 1.0
    ensures TopScored([3], group, predictor, 2) == [(3, 1.0)]
  {
    var p3: (ItemId, real) := (3, 1.0);
    assert Scored([3], group, predictor) == [p3];
    assert [p3][..0] == [];
    assert SortDesc([p3], Score) == [p3];
  }

  /** Once every item has been recommended to the group, a round returns nothing. */
  lemma NothingLeftNothingReturned(candidates: seq<ItemId>, group: Group, predictor: GroupPredictor, limit: int)
    requires Enumerates(candidates, {})
    ensures TopScored(candidates, group, predictor, limit) == []
  {
    EnumerationSize(candidates, {});
  }
}
