/** `Jaccard.get_similarity` over the scan-based rating index: the number of items both
    users rated over the number of items either rated, and 0 when neither rated anything. */
module Jaccard {
  import opened Common
  import opened Ratings
  import opened RatingIndexV1

  lemma SubsetSize<T>(a: set<T>, b: set<T>)
    requires a <= b
    ensures |a| <= |b|
  {
    assert b == a + (b - a);
  }

  /** |common| / |union|, and 0 for an empty union. */
  function Ratio(common: nat, union: nat): (r: real)
    requires common <= union
    ensures 0.0 <= r <= 1.0
    ensures common == 0 ==> r == 0.0
    ensures 0 < common == union ==> r == 1.0
  {
    if union == 0 then 0.0 else (common as real) / (union as real)
  }

  function GetSimilarity(ds: Dataset, a: UserId, b: UserId): (r: real)
    ensures 0.0 <= r <= 1.0
    ensures |RatedItems(ds.data, a) + RatedItems(ds.data, b)| == 0 ==> r == 0.0
  {
    var unionItems := RatedByAny(ds.data, a, b);
    var commonItems := RatedByBoth(ds.data, a, b);
    assert commonItems.Keys <= unionItems.Keys by {
      RatedByAnyMeaning(ds.data, a, b);
      RatedByBothMeaning(ds.data, a, b);
    }
    SubsetSize(commonItems.Keys, unionItems.Keys);
    assert |unionItems| == |RatedItems(ds.data, a) + RatedItems(ds.data, b)| by {
      RatedByAnyMeaning(ds.data, a, b);
    }
    Ratio(|commonItems|, |unionItems|)
  }

  /** For two different users: |common| / |union| of their rated items. */
  lemma {:induction false} SimilarityIsOverlap(ds: Dataset, a: UserId, b: UserId)
    requires a != b
    requires |RatedItems(ds.data, a) + RatedItems(ds.data, b)| > 0
    ensures GetSimilarity(ds, a, b) ==
      (|RatedItems(ds.data, a) * RatedItems(ds.data, b)| as real) / (|RatedItems(ds.data, a) + RatedItems(ds.data, b)| as real)
  {
    RatedByAnyMeaning(ds.data, a, b);
    RatedByBothMeaning(ds.data, a, b);
  }

  lemma {:induction false} Symmetric(ds: Dataset, a: UserId, b: UserId)
    ensures GetSimilarity(ds, a, b) == GetSimilarity(ds, b, a)
  {
    RatedByAnyMeaning(ds.data, a, b);
    RatedByAnyMeaning(ds.data, b, a);
    if a != b && |RatedItems(ds.data, a) + RatedItems(ds.data, b)| > 0 {
      SimilarityIsOverlap(ds, a, b);
      SimilarityIsOverlap(ds, b, a);
      assert RatedItems(ds.data, a) * RatedItems(ds.data, b) == RatedItems(ds.data, b) * RatedItems(ds.data, a);
      assert RatedItems(ds.data, a) + RatedItems(ds.data, b) == RatedItems(ds.data, b) + RatedItems(ds.data, a);
    }
  }

  /** Two different users who rated the same non-empty set of items have similarity 1. */
  lemma {:induction false} SameItemsGiveOne(ds: Dataset, a: UserId, b: UserId)
    requires a != b && RatedItems(ds.data, a) == RatedItems(ds.data, b) != {}
    ensures GetSimilarity(ds, a, b) == 1.0
  {
    var items := RatedItems(ds.data, a);
    assert items * items == items && items + items == items;
    assert |items| > 0;
    SimilarityIsOverlap(ds, a, b);
  }

  /** Two users with no item in common have similarity 0. */
  lemma {:induction false} DisjointItemsGiveZero(ds: Dataset, a: UserId, b: UserId)
    requires RatedItems(ds.data, a) * RatedItems(ds.data, b) == {}
    ensures GetSimilarity(ds, a, b) == 0.0
  {
    RatedByBothMeaning(ds.data, a, b);
    assert RatedByBoth(ds.data, a, b).Keys == {};
    NoCommonItems(ds, a, b);
  }

  lemma NoCommonItems(ds: Dataset, a: UserId, b: UserId)
    requires RatedByBoth(ds.data, a, b) == map[]
    ensures GetSimilarity(ds, a, b) == 0.0
  {
  }

  /** Because of the `elif` in the scan, a user who rated anything has similarity 0, not 1,
      with itself: the second user's dictionary stays empty. */
  lemma {:induction false} SelfSimilarityIsZero(ds: Dataset, u: UserId)
    ensures GetSimilarity(ds, u, u) == 0.0
  {
    RatedByBothMeaning(ds.data, u, u);
    NoCommonItems(ds, u, u);
  }
}
