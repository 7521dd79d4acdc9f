/** `RecommendationsLog`: for each group, the item sets recommended to it, round after
    round. A group is identified by the set of its members, so the order in which the
    members are listed, and repetitions, do not matter. */
module RecommendationLog {
  import opened Common
  import opened Ratings
  import opened RatingIndex
  import opened GroupAggregation

  /** The key of the group's entry: the member set `set(group)`, before it is turned into
      a string. Keys are compared as sets, not as printed strings. */
  function GroupKey(group: Group): (k: set<UserId>)
    ensures forall u :: u in k <==> u in group
  {
    set u | u in group
  }

  /** Two listings of the same members, in any order and with any repetitions, share
      one key. */
  lemma SameMembersSameKey(g: Group, h: Group)
    requires forall u :: u in g <==> u in h
    ensures GroupKey(g) == GroupKey(h)
  {
    assert forall u :: u in GroupKey(g) <==> u in GroupKey(h);
  }

  /** Every item of every round. */
  function Union(rounds: seq<set<ItemId>>): set<ItemId>
  {
    if rounds == [] then {} else Union(rounds[..|rounds| - 1]) + rounds[|rounds| - 1]
  }

  lemma {:induction false} UnionMembers(rounds: seq<set<ItemId>>)
    ensures forall i :: i in Union(rounds) <==> exists k :: 0 <= k < |rounds| && i in rounds[k]
  {
    if rounds != [] {
      var n := |rounds| - 1;
      UnionMembers(rounds[..n]);
      forall i ensures i in Union(rounds) <==> exists k :: 0 <= k < |rounds| && i in rounds[k] {
        if exists k :: 0 <= k < |rounds| && i in rounds[k] {
          var k :| 0 <= k < |rounds| && i in rounds[k];
          if k < n {
            assert rounds[..n][k] == rounds[k];
          }
        }
        if i in Union(rounds[..n]) {
          var k :| 0 <= k < n && i in rounds[..n][k];
          assert i in rounds[k];
        }
      }
    }
  }

  lemma UnionAppend(rounds: seq<set<ItemId>>, s: set<ItemId>)
    ensures Union(rounds + [s]) == Union(rounds) + s
  {
    assert (rounds + [s])[..|rounds|] == rounds;
  }

  /** The items of `items` that no round contains. */
  function Unrecommended(items: seq<ItemId>, rounds: seq<set<ItemId>>): (r: set<ItemId>)
    ensures forall i :: i in r <==> i in items && forall k :: 0 <= k < |rounds| ==> i !in rounds[k]
  {
    UnionMembers(rounds);
    (set i | i in items) - Union(rounds)
  }

  /** Logging a round takes exactly its items out of what is left to recommend, so that
      set only ever shrinks. */
  lemma UnrecommendedShrinks(items: seq<ItemId>, rounds: seq<set<ItemId>>, s: set<ItemId>)
    ensures Unrecommended(items, rounds + [s]) == Unrecommended(items, rounds) - s
    ensures Unrecommended(items, rounds + [s]) <= Unrecommended(items, rounds)
  {
    UnionAppend(rounds, s);
  }

  /** No item is in two rounds. */
  ghost predicate DisjointRounds(rounds: seq<set<ItemId>>)
  {
    forall a, b :: 0 <= a < b < |rounds| ==> rounds[a] !! rounds[b]
  }

  /** A round drawn from what is left to recommend keeps the rounds disjoint. */
  lemma RoundsStayDisjoint(items: seq<ItemId>, rounds: seq<set<ItemId>>, s: set<ItemId>)
    requires DisjointRounds(rounds) && s <= Unrecommended(items, rounds)
    ensures DisjointRounds(rounds + [s])
  {
    var all := rounds + [s];
    forall a, b | 0 <= a < b < |all| ensures all[a] !! all[b] {
      if b == |rounds| {
        forall i | i in all[a] ensures i !in s {
          assert i in rounds[a];
        }
      } else {
        assert all[a] == rounds[a] && all[b] == rounds[b];
      }
    }
  }

  class RecommendationsLog {
    const dataset: Dataset
    /** The rounds of each group, keyed by its member set, in the order they were added. */
    var recommendations: map<set<UserId>, seq<set<ItemId>>>

    constructor(dataset: Dataset)
      ensures this.dataset == dataset && recommendations == map[]
    {
      this.dataset := dataset;
      recommendations := map[];
    }

    /** `get_previous_recommendations(group)`: the rounds logged for the group's member
        set, `[]` for a group never seen. */
    function GetPreviousRecommendations(group: Group): (r: seq<set<ItemId>>)
      reads this
      ensures GroupKey(group) !in recommendations ==> r == []
      ensures GroupKey(group) in recommendations ==> r == recommendations[GroupKey(group)]
    {
      var key := GroupKey(group);
      if key in recommendations then recommendations[key] else []
    }

    /** `get_unrecommended_items(group)`: the dataset's items that appear in none of the
        group's rounds. */
    function GetUnrecommendedItems(group: Group): (r: set<ItemId>)
      requires Valid(dataset)
      reads this
      ensures forall i :: i in r <==>
        i in ItemsOf(dataset.data) && forall k :: 0 <= k < |GetPreviousRecommendations(group)| ==>
          i !in GetPreviousRecommendations(group)[k]
    {
      Unrecommended(GetAllItems(dataset), GetPreviousRecommendations(group))
    }

    /** `add_recommendation(group, recommendation)`: one round more at the end of the
        group's list, which is created on first use; no other group's list changes. */
    method AddRecommendation(group: Group, recommendation: set<ItemId>)
      modifies this
      ensures recommendations ==
        old(recommendations)[GroupKey(group) := old(GetPreviousRecommendations(group)) + [recommendation]]
      ensures GetPreviousRecommendations(group) == old(GetPreviousRecommendations(group)) + [recommendation]
      ensures forall g :: GroupKey(g) != GroupKey(group) ==>
        GetPreviousRecommendations(g) == old(GetPreviousRecommendations(g))
      ensures Valid(dataset) ==>
        GetUnrecommendedItems(group) == old(GetUnrecommendedItems(group)) - recommendation
    {
      var groupKey := GroupKey(group);
      if groupKey in recommendations && recommendations[groupKey] != [] {
        recommendations := recommendations[groupKey := recommendations[groupKey] + [recommendation]];
      } else {
        assert old(GetPreviousRecommendations(group)) == [];
        recommendations := recommendations[groupKey := [recommendation]];
        assert [] + [recommendation] == [recommendation];
      }
      if Valid(dataset) {
        UnrecommendedShrinks(GetAllItems(dataset), old(GetPreviousRecommendations(group)), recommendation);
      }
    }
  }

  /** The logged rounds of the example: three rounds for the group `[1, 2, 3]`, found
      again under the reordered group `[3, 1, 2]`. */
  method ExampleLog(dataset: Dataset) returns (rounds: seq<set<ItemId>>)
    ensures rounds == [{1, 5}, {2, 4}, {3}]
  {
    var log := new RecommendationsLog(dataset);
    log.AddRecommendation([1, 2, 3], {1, 5});
    log.AddRecommendation([1, 2, 3], {2, 4});
    log.AddRecommendation([1, 2, 3], {3});
    assert GroupKey([3, 1, 2]) == GroupKey([1, 2, 3]);
    rounds := log.GetPreviousRecommendations([3, 1, 2]);
  }
}
