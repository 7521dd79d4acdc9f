/** `AveragePairwiseDisagreement`: the mean distance between the relevances of two
    members, over every unordered pair of positions in the group. */
module PairwiseDisagreement {
  import opened Common
  import opened Ratings
  import opened RatingIndex
  import opened GroupAggregation
  import Recommender

  /** The distances of position `a` to the positions `a + 1 .. b - 1`, in position order. */
  function PairRow(s: seq<real>, a: nat, b: nat): seq<real>
    requires a < b <= |s|
    decreases b
  {
    if b == a + 1 then [] else PairRow(s, a, b - 1) + [Abs(s[a] - s[b - 1])]
  }

  lemma {:induction false} PairRowFacts(s: seq<real>, a: nat, b: nat)
    requires a < b <= |s|
    ensures |PairRow(s, a, b)| == b - a - 1
    ensures forall k :: 0 <= k < b - a - 1 ==> PairRow(s, a, b)[k] == Abs(s[a] - s[a + 1 + k])
    decreases b
  {
    if b > a + 1 {
      PairRowFacts(s, a, b - 1);
    }
  }

  /** The distances of the pairs whose first position is below `a`, in the order of
      `itertools.combinations`. */
  function PairsBefore(s: seq<real>, a: nat): seq<real>
    requires a <= |s|
  {
    if a == 0 then [] else PairsBefore(s, a - 1) + PairRow(s, a - 1, |s|)
  }

  /** The distances of all pairs `(a, b)` with `a < b`. */
  function Pairs(s: seq<real>): seq<real>
  {
    PairsBefore(s, |s|)
  }

  /** There are `a·(2n − a − 1)/2` pairs whose first position is below `a`. */
  lemma {:induction false} PairsBeforeLength(s: seq<real>, a: nat)
    requires a <= |s|
    ensures 2 * |PairsBefore(s, a)| == a * (2 * |s| - a - 1)
  {
    if a > 0 {
      PairsBeforeLength(s, a - 1);
      PairRowFacts(s, a - 1, |s|);
      assert |PairsBefore(s, a)| == |PairsBefore(s, a - 1)| + (|s| - a);
      TriangleStep(a, |s|, |PairsBefore(s, a - 1)|);
    }
  }

  lemma TriangleStep(a: int, n: int, m: int)
    requires 2 * m == (a - 1) * (2 * n - a)
    ensures 2 * (m + (n - a)) == a * (2 * n - a - 1)
  {
    assert (a - 1) * (2 * n - a) == a * (2 * n - a) - (2 * n - a);
    assert a * (2 * n - a) == a * (2 * n - a - 1) + a;
  }

  /** Every listed distance belongs to a pair of positions whose first is below `a`, and
      every such pair is listed. */
  lemma {:induction false} PairsBeforeMembers(s: seq<real>, a: nat)
    requires a <= |s|
    ensures forall x :: x in PairsBefore(s, a) <==>
      exists p, q :: 0 <= p < a && p < q < |s| && x == Abs(s[p] - s[q])
  {
    if a > 0 {
      PairsBeforeMembers(s, a - 1);
      forall x ensures x in PairsBefore(s, a) <==>
        exists p, q :: 0 <= p < a && p < q < |s| && x == Abs(s[p] - s[q])
      {
        RowMember(s, a - 1, x);
        assert x in PairsBefore(s, a) <==> x in PairsBefore(s, a - 1) || x in PairRow(s, a - 1, |s|);
      }
    }
  }

  /** The distances in the row of `a` are those of the pairs `(a, q)`. */
  lemma RowMember(s: seq<real>, a: nat, x: real)
    requires a < |s|
    ensures x in PairRow(s, a, |s|) <==> exists q :: a < q < |s| && x == Abs(s[a] - s[q])
  {
    var row := PairRow(s, a, |s|);
    PairRowFacts(s, a, |s|);
    if x in row {
      var k :| 0 <= k < |row| && row[k] == x;
      assert a < a + 1 + k < |s| && x == Abs(s[a] - s[a + 1 + k]);
    }
    if exists q :: a < q < |s| && x == Abs(s[a] - s[q]) {
      var q :| a < q < |s| && x == Abs(s[a] - s[q]);
      assert row[q - a - 1] == x;
    }
  }

  lemma PairsFacts(s: seq<real>)
    ensures 2 * |Pairs(s)| == |s| * (|s| - 1)
    ensures forall x :: x in Pairs(s) <==> exists p, q :: 0 <= p < q < |s| && x == Abs(s[p] - s[q])
  {
    PairsBeforeLength(s, |s|);
    PairsBeforeMembers(s, |s|);
  }

  /** `2 * sum(pair_disagreements) / (n * (n - 1))`: a group of fewer than two members
      divides by zero and is excluded. */
  function Disagreement(s: seq<real>): (r: real)
    requires |s| >= 2
    ensures r >= 0.0
  {
    PairsNonNegative(s);
    SumNonNegative(Pairs(s));
    PairMean(Sum(Pairs(s)), |s|)
  }

  /** The sum of the pair distances over the number of pairs, `n·(n−1)/2`. */
  function PairMean(total: real, n: int): (r: real)
    requires n >= 2
    ensures total >= 0.0 ==> r >= 0.0
    ensures r == 0.0 <==> total == 0.0
  {
    PairCount(n);
    2.0 * total / (PairDenominator(n) as real)
  }

  /** `group_size * (group_size - 1)`. */
  function PairDenominator(n: nat): int
  {
    n * (n - 1)
  }

  lemma PairsNonNegative(s: seq<real>)
    ensures forall k :: 0 <= k < |Pairs(s)| ==> Pairs(s)[k] >= 0.0
  {
    PairsFacts(s);
    forall k | 0 <= k < |Pairs(s)| ensures Pairs(s)[k] >= 0.0 {
      assert Pairs(s)[k] in Pairs(s);
    }
  }

  /** The disagreement is 0 exactly when all the members' relevances are equal. */
  lemma NoDisagreementIffUnanimous(s: seq<real>)
    requires |s| >= 2
    ensures Disagreement(s) == 0.0 <==> forall p, q :: 0 <= p < q < |s| ==> s[p] == s[q]
  {
    var pairs := Pairs(s);
    PairsFacts(s);
    PairsNonNegative(s);
    SumNonNegative(pairs);
    var n := (|s| * (|s| - 1)) as real;
    assert n > 0.0;
    assert Disagreement(s) == 0.0 <==> Sum(pairs) == 0.0;
    if forall p, q :: 0 <= p < q < |s| ==> s[p] == s[q] {
      forall k | 0 <= k < |pairs| ensures pairs[k] == 0.0 {
        assert pairs[k] in pairs;
      }
    }
    if Sum(pairs) == 0.0 {
      forall p, q | 0 <= p < q < |s| ensures s[p] == s[q] {
        var x := Abs(s[p] - s[q]);
        assert x in pairs;
        var k :| 0 <= k < |pairs| && pairs[k] == x;
      }
    }
  }

  /** Two members disagree by the distance of their relevances. */
  lemma TwoMembers(a: real, b: real)
    ensures Disagreement([a, b]) == Abs(a - b)
  {
    var s := [a, b];
    assert PairRow(s, 0, 1) == [];
    assert PairRow(s, 0, 2) == [] + [Abs(a - b)];
    assert PairRow(s, 1, 2) == [];
    assert PairsBefore(s, 1) == [] + [Abs(a - b)];
    assert PairsBefore(s, 2) == [Abs(a - b)] + [];
    assert Pairs(s) == [Abs(a - b)];
    assert Sum([Abs(a - b)]) == Abs(a - b) by {
      assert [Abs(a - b)][..0] == [];
    }
  }

  /** `__get_individual_relevance` as a function of the user alone; the group members
      are all known users, so the value for an unknown user is never consulted. */
  function IndividualRelevance(ds: Dataset, predictor: Recommender.Predictor, item: ItemId): (f: UserId -> real)
    requires Valid(ds)
    ensures forall u :: u in UsersOf(ds.data) ==> f(u) == Relevance(ds, predictor, u, item)
  {
    u => if u in UsersOf(ds.data) then Relevance(ds, predictor, u, item) else 0.0
  }

  lemma RelevancesOfMembers(ds: Dataset, predictor: Recommender.Predictor, group: Group, item: ItemId)
    requires Valid(ds) && Members(ds, group)
    ensures MapSeq(IndividualRelevance(ds, predictor, item), group) == Relevances(ds, predictor, group, item)
  {
    var f := IndividualRelevance(ds, predictor, item);
    forall k | 0 <= k < |group| ensures MapSeq(f, group)[k] == Relevances(ds, predictor, group, item)[k] {
      assert group[k] in UsersOf(ds.data);
    }
  }

  /** `get_disagreement(group, item)`: twice the sum of the pair distances over
      `n·(n−1)`; a group of fewer than two members divides by zero. */
  method GetDisagreement(ds: Dataset, predictor: Recommender.Predictor, group: Group, item: ItemId)
    returns (r: Result<real>)
    requires Valid(ds) && Members(ds, group)
    ensures |group| < 2 <==> r == Err(ZeroDivisionError)
    ensures |group| >= 2 ==> r == Ok(Disagreement(Relevances(ds, predictor, group, item)))
  {
    var relevance := IndividualRelevance(ds, predictor, item);
    var pairDisagreements := PairDistances(relevance, group);
    RelevancesOfMembers(ds, predictor, group, item);
    var numerator := 2.0 * Sum(pairDisagreements);
    var groupSize := |group|;
    var denominator := PairDenominator(groupSize);
    PairCount(groupSize);
    if denominator == 0 {
      r := Err(ZeroDivisionError);
    } else {
      r := Ok(numerator / (denominator as real));
    }
  }

  /** The loop over `itertools.combinations(group, 2)`, appending the distance of each
      pair's relevances. */
  method PairDistances(relevance: UserId -> real, group: Group) returns (pairDisagreements: seq<real>)
    ensures pairDisagreements == Pairs(MapSeq(relevance, group))
  {
    ghost var s := MapSeq(relevance, group);
    pairDisagreements := [];
    for a := 0 to |group|
      invariant pairDisagreements == PairsBefore(s, a)
    {
      pairDisagreements := AppendPairRow(relevance, group, a, pairDisagreements);
    }
  }

  /** `n·(n−1)` vanishes exactly for groups of fewer than two members. */
  lemma PairCount(n: nat)
    ensures PairDenominator(n) == 0 <==> n < 2
    ensures n >= 2 ==> PairDenominator(n) >= 2
  {
    if n >= 2 {
      assert n * (n - 1) == n * n - n;
      assert n * n >= 2 * n;
    }
  }

  /** The pairs whose first member is at position `a`: every later position `b`. */
  method AppendPairRow(relevance: UserId -> real, group: Group, a: nat, pairs0: seq<real>)
    returns (pairs: seq<real>)
    requires a < |group|
    ensures pairs == pairs0 + PairRow(MapSeq(relevance, group), a, |group|)
  {
    ghost var s := MapSeq(relevance, group);
    pairs := pairs0;
    for b := a + 1 to |group|
      invariant pairs == pairs0 + PairRow(s, a, b)
    {
      var ratingA := relevance(group[a]);
      var ratingB := relevance(group[b]);
      pairs := pairs + [Abs(ratingA - ratingB)];
    }
  }

  /** A unanimous group: the average is the common relevance and nobody disagrees. */
  lemma UnanimousGroup(ds: Dataset, predictor: Recommender.Predictor, group: Group, item: ItemId, x: real)
    requires Valid(ds) && Members(ds, group) && |group| >= 2
    requires forall k :: 0 <= k < |group| ==> Relevance(ds, predictor, group[k], item) == x
    ensures AveragePrediction(ds, predictor, group, item) == x
    ensures Disagreement(Relevances(ds, predictor, group, item)) == 0.0
  {
    var s := Relevances(ds, predictor, group, item);
    MeanWithin(s, x, x);
    NoDisagreementIffUnanimous(s);
  }
}
