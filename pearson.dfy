/** `PearsonCorrelation.get_similarity` over the scan-based rating index. Deviations are
    taken from each user's mean over ALL of that user's rows, while the sums run over the
    common items only. `sqrt` is a parameter of which only positivity on positive
    arguments is assumed. */
module Pearson {
  import opened Common
  import opened Ratings
  import opened RatingIndexV1

  function Square(x: real): (r: real)
    ensures r >= 0.0
  {
    x * x
  }

  /** The summand of the covariance sum, per common item. */
  function CovarianceTerms(both: map<ItemId, (real, real)>, meanA: real, meanB: real): ItemId -> real
  {
    i => if i in both then (both[i].0 - meanA) * (both[i].1 - meanB) else 0.0
  }

  /** The summands of the two sums of squares, per common item. */
  function SquareTermsFirst(both: map<ItemId, (real, real)>, mean: real): ItemId -> real
  {
    i => if i in both then Square(both[i].0 - mean) else 0.0
  }

  function SquareTermsSecond(both: map<ItemId, (real, real)>, mean: real): ItemId -> real
  {
    i => if i in both then Square(both[i].1 - mean) else 0.0
  }

  function Zero(): ItemId -> real
  {
    _ => 0.0
  }

  /** Σ (rating_a − mean_a)·(rating_b − mean_b) over the common items. */
  ghost function Numerator(both: map<ItemId, (real, real)>, meanA: real, meanB: real): real
  {
    SumOver(both.Keys, CovarianceTerms(both, meanA, meanB))
  }

  /** Σ (rating − mean)² over the first components of the common entries. */
  ghost function SquaresFirst(both: map<ItemId, (real, real)>, mean: real): (r: real)
    ensures r >= 0.0
  {
    SumOverNonNegative(both.Keys, SquareTermsFirst(both, mean));
    SumOver(both.Keys, SquareTermsFirst(both, mean))
  }

  /** Σ (rating − mean)² over the second components of the common entries. */
  ghost function SquaresSecond(both: map<ItemId, (real, real)>, mean: real): (r: real)
    ensures r >= 0.0
  {
    SumOverNonNegative(both.Keys, SquareTermsSecond(both, mean));
    SumOver(both.Keys, SquareTermsSecond(both, mean))
  }

  ghost predicate SqrtPositive(sqrt: real -> real)
  {
    forall x :: x > 0.0 ==> sqrt(x) > 0.0
  }

  /** The last two steps: 0 when a sum of squares vanishes, else the normalised covariance. */
  function Correlation(numerator: real, squaresA: real, squaresB: real, sqrt: real -> real): real
    requires squaresA >= 0.0 && squaresB >= 0.0 && SqrtPositive(sqrt)
  {
    if squaresA == 0.0 || squaresB == 0.0 then 0.0
    else Normalised(numerator, squaresA, squaresB, sqrt)
  }

  /** `numerator / sqrt(squares_a * squares_b)`, for two positive sums of squares. */
  function Normalised(numerator: real, squaresA: real, squaresB: real, sqrt: real -> real): real
    requires squaresA > 0.0 && squaresB > 0.0 && SqrtPositive(sqrt)
  {
    assert squaresA * squaresB > 0.0;
    numerator / sqrt(squaresA * squaresB)
  }

  /** The similarity; the averages raise `KeyError` for a user without rows unless both
      users are the same, so callers pass known users. */
  ghost function GetSimilarity(ds: Dataset, a: UserId, b: UserId, sqrt: real -> real): (r: real)
    requires Valid(ds) && SqrtPositive(sqrt)
    requires a == b || (a in UsersOf(ds.data) && b in UsersOf(ds.data))
    ensures a == b ==> r == 1.0
  {
    if a == b then 1.0
    else
      var meanA := GetAverageRatingByUser(ds, a);
      var meanB := GetAverageRatingByUser(ds, b);
      var both := RatedByBoth(ds.data, a, b);
      Correlation(Numerator(both, meanA, meanB), SquaresFirst(both, meanA), SquaresSecond(both, meanB), sqrt)
  }

  /** Two different users without a common item are uncorrelated. */
  lemma NoCommonItemsGiveZero(ds: Dataset, a: UserId, b: UserId, sqrt: real -> real)
    requires Valid(ds) && SqrtPositive(sqrt)
    requires a != b && a in UsersOf(ds.data) && b in UsersOf(ds.data)
    requires RatedItems(ds.data, a) * RatedItems(ds.data, b) == {}
    ensures GetSimilarity(ds, a, b, sqrt) == 0.0
  {
    RatedByBothMeaning(ds.data, a, b);
    var both := RatedByBoth(ds.data, a, b);
    assert both.Keys == {};
    assert SquaresFirst(both, GetAverageRatingByUser(ds, a)) == 0.0;
  }

  /** When user `a` rated every common item exactly at `a`'s mean, the first sum of squares
      vanishes and the similarity is 0. */
  lemma {:induction false} FlatRatingsGiveZero(ds: Dataset, a: UserId, b: UserId, sqrt: real -> real)
    requires Valid(ds) && SqrtPositive(sqrt)
    requires a != b && a in UsersOf(ds.data) && b in UsersOf(ds.data)
    requires forall i :: i in RatedItems(ds.data, a) * RatedItems(ds.data, b) ==>
      RatingOrZero(ds.data, a, i) == GetAverageRatingByUser(ds, a)
    ensures GetSimilarity(ds, a, b, sqrt) == 0.0
  {
    RatedByBothMeaning(ds.data, a, b);
    var both := RatedByBoth(ds.data, a, b);
    var meanA := GetAverageRatingByUser(ds, a);
    forall i | i in both.Keys ensures SquareTermsFirst(both, meanA)(i) == Zero()(i) {
      assert both[i].0 == meanA;
    }
    SumOverCongruent(both.Keys, SquareTermsFirst(both, meanA), Zero());
    SumOverOfZero(both.Keys);
  }

  lemma {:induction false} SumOverOfZero(s: set<int>)
    ensures SumOver(s, Zero()) == 0.0
    decreases s
  {
    if s != {} {
      HasElement(s);
      var x :| x in s && SumOver(s, Zero()) == 0.0 + SumOver(s - {x}, Zero());
      SumOverOfZero(s - {x});
    }
  }

  /** In the remaining case the similarity is the covariance sum over the square root of
      the product of the two sums of squares. */
  lemma Formula(ds: Dataset, a: UserId, b: UserId, sqrt: real -> real)
    requires Valid(ds) && SqrtPositive(sqrt)
    requires a != b && a in UsersOf(ds.data) && b in UsersOf(ds.data)
    ensures var both := RatedByBoth(ds.data, a, b);
      var meanA := GetAverageRatingByUser(ds, a);
      var meanB := GetAverageRatingByUser(ds, b);
      var squaresA := SquaresFirst(both, meanA);
      var squaresB := SquaresSecond(both, meanB);
      squaresA > 0.0 && squaresB > 0.0 ==>
        GetSimilarity(ds, a, b, sqrt) == Normalised(Numerator(both, meanA, meanB), squaresA, squaresB, sqrt)
  {
    var both := RatedByBoth(ds.data, a, b);
    var meanA := GetAverageRatingByUser(ds, a);
    var meanB := GetAverageRatingByUser(ds, b);
    assert GetSimilarity(ds, a, b, sqrt) ==
      Correlation(Numerator(both, meanA, meanB), SquaresFirst(both, meanA), SquaresSecond(both, meanB), sqrt);
  }

  /** Swapping the users swaps the components of every common entry. */
  lemma SwappedCommonItems(rows: seq<Row>, a: UserId, b: UserId)
    requires a != b
    ensures RatedByBoth(rows, b, a).Keys == RatedByBoth(rows, a, b).Keys
    ensures forall i :: i in RatedByBoth(rows, a, b) ==>
      RatedByBoth(rows, b, a)[i] == (RatedByBoth(rows, a, b)[i].1, RatedByBoth(rows, a, b)[i].0)
  {
    RatedByBothMeaning(rows, a, b);
    RatedByBothMeaning(rows, b, a);
  }

  /** The three sums of a swapped map are those of the original, the two sums of squares
      exchanged. */
  lemma SwappedSums(ab: map<ItemId, (real, real)>, ba: map<ItemId, (real, real)>, meanA: real, meanB: real)
    requires ba.Keys == ab.Keys
    requires forall i :: i in ab ==> ba[i] == (ab[i].1, ab[i].0)
    ensures Numerator(ab, meanA, meanB) == Numerator(ba, meanB, meanA)
    ensures SquaresFirst(ab, meanA) == SquaresSecond(ba, meanA)
    ensures SquaresSecond(ab, meanB) == SquaresFirst(ba, meanB)
  {
    forall i | i in ab.Keys ensures CovarianceTerms(ab, meanA, meanB)(i) == CovarianceTerms(ba, meanB, meanA)(i) {
      var x, y := ab[i].0 - meanA, ab[i].1 - meanB;
      assert x * y == y * x;
    }
    SumOverCongruent(ab.Keys, CovarianceTerms(ab, meanA, meanB), CovarianceTerms(ba, meanB, meanA));
    SumOverCongruent(ab.Keys, SquareTermsFirst(ab, meanA), SquareTermsSecond(ba, meanA));
    SumOverCongruent(ab.Keys, SquareTermsSecond(ab, meanB), SquareTermsFirst(ba, meanB));
  }

  lemma {:induction false} Symmetric(ds: Dataset, a: UserId, b: UserId, sqrt: real -> real)
    requires Valid(ds) && SqrtPositive(sqrt)
    requires a == b || (a in UsersOf(ds.data) && b in UsersOf(ds.data))
    ensures GetSimilarity(ds, a, b, sqrt) == GetSimilarity(ds, b, a, sqrt)
  {
    if a != b {
      var ab := RatedByBoth(ds.data, a, b);
      var ba := RatedByBoth(ds.data, b, a);
      var meanA := GetAverageRatingByUser(ds, a);
      var meanB := GetAverageRatingByUser(ds, b);
      SwappedCommonItems(ds.data, a, b);
      SwappedSums(ab, ba, meanA, meanB);
      var sa, sb := SquaresFirst(ab, meanA), SquaresSecond(ab, meanB);
      assert sa * sb == sb * sa;
    }
  }
}
