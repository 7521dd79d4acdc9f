/** The rating index of the first version (`assignment-01`): only the user means are
    precomputed; every pair query scans the rows again. One quirk of the scan is kept:
    a row is filed under the first user with `if`, and under the second only through
    `elif`, so when both users are the same the second user's dictionary stays empty. */
module RatingIndexV1 {
  import opened Common
  import opened Ratings

  datatype Dataset = Dataset(data: seq<Row>, averageUserRatings: map<UserId, real>)

  ghost predicate Valid(ds: Dataset)
  {
    && ds.averageUserRatings.Keys == UsersOf(ds.data)
    && (forall u :: u in ds.averageUserRatings ==>
          |RowRatings(ds.data, u)| > 0 &&
          ds.averageUserRatings[u] == Sum(RowRatings(ds.data, u)) / (|RowRatings(ds.data, u)| as real))
  }

  /** `__compute_average_user_ratings`: for each user, the mean of the ratings of all of
      that user's rows (a repeated item counts every time). */
  method ComputeAverageUserRatings(data: seq<Row>) returns (result: map<UserId, real>)
    ensures result.Keys == UsersOf(data)
    ensures forall u :: u in result ==>
      |RowRatings(data, u)| > 0 && result[u] == Sum(RowRatings(data, u)) / (|RowRatings(data, u)| as real)
  {
    var allUsers := Enumerate(UsersOf(data));
    result := map[];
    for k := 0 to |allUsers|
      invariant result.Keys == set j | 0 <= j < k :: allUsers[j]
      invariant forall u :: u in result ==>
        |RowRatings(data, u)| > 0 && result[u] == Sum(RowRatings(data, u)) / (|RowRatings(data, u)| as real)
    {
      PrefixElementsStep(allUsers, k);
      var user := allUsers[k];
      var userRatings := RowRatings(data, user);
      RowRatingsNonEmpty(data, user);
      result := result[user := Sum(userRatings) / (|userRatings| as real)];
    }
  }

  method NewDataset(data: seq<Row>) returns (ds: Dataset)
    ensures Valid(ds) && ds.data == data
  {
    var averages := ComputeAverageUserRatings(data);
    ds := Dataset(data, averages);
  }

  /** `get_average_rating_by_user(u)`: the mean of `u`'s row ratings. */
  function GetAverageRatingByUser(ds: Dataset, u: UserId): (r: real)
    requires Valid(ds) && u in UsersOf(ds.data)
    ensures |RowRatings(ds.data, u)| > 0
    ensures r == Sum(RowRatings(ds.data, u)) / (|RowRatings(ds.data, u)| as real)
  {
    ds.averageUserRatings[u]
  }

  /** A user's mean lies between the smallest and the largest of that user's ratings. */
  lemma AverageWithinRatings(ds: Dataset, u: UserId)
    requires Valid(ds) && u in UsersOf(ds.data)
    ensures MinOf(RowRatings(ds.data, u)) <= GetAverageRatingByUser(ds, u) <= MaxOf(RowRatings(ds.data, u))
  {
    MeanBounds(RowRatings(ds.data, u));
  }

  /** The dictionary the `elif` branch fills for `b` while scanning for `a` and `b`. */
  function ElifRatingsMap(rows: seq<Row>, a: UserId, b: UserId): map<ItemId, real>
  {
    if rows == [] then map[]
    else
      var m := ElifRatingsMap(rows[..|rows| - 1], a, b);
      var r := rows[|rows| - 1];
      if r.user == a then m else if r.user == b then m[r.item := r.rating] else m
  }

  /** The second dictionary is `b`'s own when the users differ and empty when they coincide. */
  lemma {:induction false} ElifRatingsMapIsSecondUser(rows: seq<Row>, a: UserId, b: UserId)
    ensures ElifRatingsMap(rows, a, b) == if a == b then map[] else RatingsMap(rows, b)
  {
    if rows != [] {
      ElifRatingsMapIsSecondUser(rows[..|rows| - 1], a, b);
    }
  }

  /** The one-pass scan that opens both pair queries. */
  method ScanPair(data: seq<Row>, a: UserId, b: UserId)
    returns (ratedByA: map<ItemId, real>, ratedByB: map<ItemId, real>)
    ensures ratedByA == RatingsMap(data, a)
    ensures ratedByB == ElifRatingsMap(data, a, b)
  {
    ratedByA, ratedByB := map[], map[];
    for k := 0 to |data|
      invariant ratedByA == RatingsMap(data[..k], a)
      invariant ratedByB == ElifRatingsMap(data[..k], a, b)
    {
      assert data[..k + 1][..k] == data[..k];
      var row := data[k];
      if row.user == a {
        ratedByA := ratedByA[row.item := row.rating];
      } else if row.user == b {
        ratedByB := ratedByB[row.item := row.rating];
      }
    }
    assert data[..|data|] == data;
  }

  function RatedByBoth(rows: seq<Row>, a: UserId, b: UserId): map<ItemId, (real, real)>
  {
    var ratedByA := RatingsMap(rows, a);
    var ratedByB := ElifRatingsMap(rows, a, b);
    map i | i in ratedByA.Keys * ratedByB.Keys :: (ratedByA[i], ratedByB[i])
  }

  /** `(ratings_a.get(item, 0), ratings_b.get(item, 0))`. */
  function RatingsOrZero(ratedByA: map<ItemId, real>, ratedByB: map<ItemId, real>, i: ItemId): (real, real)
  {
    (if i in ratedByA then ratedByA[i] else 0.0, if i in ratedByB then ratedByB[i] else 0.0)
  }

  function RatedByAny(rows: seq<Row>, a: UserId, b: UserId): map<ItemId, (real, real)>
  {
    var ratedByA := RatingsMap(rows, a);
    var ratedByB := ElifRatingsMap(rows, a, b);
    map i | i in ratedByA.Keys + ratedByB.Keys ::
      RatingsOrZero(ratedByA, ratedByB, i)
  }

  /** For two different users the common items are those both rated, with both last
      ratings; a user compared with itself has no common items. */
  lemma RatedByBothMeaning(rows: seq<Row>, a: UserId, b: UserId)
    ensures a != b ==> RatedByBoth(rows, a, b).Keys == RatedItems(rows, a) * RatedItems(rows, b)
    ensures a == b ==> RatedByBoth(rows, a, b) == map[]
    ensures forall i :: i in RatedByBoth(rows, a, b) ==>
      RatedByBoth(rows, a, b)[i] == (RatingOrZero(rows, a, i), RatingOrZero(rows, b, i))
  {
    RatingsMapIsLastRating(rows, a);
    RatingsMapIsLastRating(rows, b);
    ElifRatingsMapIsSecondUser(rows, a, b);
  }

  /** The items either user rated, 0 filling a missing side; a user compared with itself
      gets its own ratings paired with 0. */
  lemma RatedByAnyMeaning(rows: seq<Row>, a: UserId, b: UserId)
    ensures RatedByAny(rows, a, b).Keys == RatedItems(rows, a) + RatedItems(rows, b)
    ensures forall i :: i in RatedByAny(rows, a, b) ==>
      RatedByAny(rows, a, b)[i] == (RatingOrZero(rows, a, i), if a == b then 0.0 else RatingOrZero(rows, b, i))
  {
    RatingsMapIsLastRating(rows, a);
    RatingsMapIsLastRating(rows, b);
    ElifRatingsMapIsSecondUser(rows, a, b);
    forall i | i in RatedByAny(rows, a, b)
      ensures RatedByAny(rows, a, b)[i].0 == RatingOrZero(rows, a, i)
      ensures RatedByAny(rows, a, b)[i].1 == if a == b then 0.0 else RatingOrZero(rows, b, i)
    {
      LastRatingIsLastRow(rows, a, i);
      LastRatingIsLastRow(rows, b, i);
    }
  }

  /** `get_items_rated_by_both(a, b)`. */
  method GetItemsRatedByBoth(ds: Dataset, a: UserId, b: UserId) returns (result: map<ItemId, (real, real)>)
    ensures result == RatedByBoth(ds.data, a, b)
  {
    var ratedByA, ratedByB := ScanPair(ds.data, a, b);
    var commonItems := Enumerate(ratedByA.Keys * ratedByB.Keys);
    result := map[];
    for k := 0 to |commonItems|
      invariant result.Keys == set j | 0 <= j < k :: commonItems[j]
      invariant forall i :: i in result ==> i in ratedByA && i in ratedByB && result[i] == (ratedByA[i], ratedByB[i])
    {
      PrefixElementsStep(commonItems, k);
      var item := commonItems[k];
      assert item in commonItems;
      result := result[item := (ratedByA[item], ratedByB[item])];
    }
    PrefixElementsAll(commonItems, ratedByA.Keys * ratedByB.Keys);
    var spec := map i | i in ratedByA.Keys * ratedByB.Keys :: (ratedByA[i], ratedByB[i]);
    assert spec.Keys == result.Keys;
    assert forall i :: i in result ==> result[i] == spec[i];
    assert result == spec;
  }

  /** `get_items_rated_by_any(a, b)`. */
  method GetItemsRatedByAny(ds: Dataset, a: UserId, b: UserId) returns (result: map<ItemId, (real, real)>)
    ensures result == RatedByAny(ds.data, a, b)
  {
    var ratedByA, ratedByB := ScanPair(ds.data, a, b);
    var allItems := Enumerate(ratedByA.Keys + ratedByB.Keys);
    result := map[];
    for k := 0 to |allItems|
      invariant result.Keys == set j | 0 <= j < k :: allItems[j]
      invariant forall i :: i in result ==>
        result[i] == RatingsOrZero(ratedByA, ratedByB, i)
    {
      PrefixElementsStep(allItems, k);
      var item := allItems[k];
      result := result[item := RatingsOrZero(ratedByA, ratedByB, item)];
    }
    ghost var spec := map i | i in ratedByA.Keys + ratedByB.Keys ::
      RatingsOrZero(ratedByA, ratedByB, i);
    assert spec.Keys == result.Keys by {
      PrefixElementsAll(allItems, ratedByA.Keys + ratedByB.Keys);
    }
    assert result == spec by {
      assert forall i :: i in result ==> result[i] == spec[i];
    }
  }

  /** `get_ratings_by_user(u)`: `u`'s rows as `(item, rating)`, in row order, with as many entries
      as `u` has rows. */
  function GetRatingsByUser(ds: Dataset, u: UserId): (r: seq<(ItemId, real)>)
    ensures r == UserRows(ds.data, u)
    ensures forall i, v :: (i, v) in r <==> Row(u, i, v) in ds.data
    ensures |r| == |RowRatings(ds.data, u)|
    ensures forall k :: 0 <= k < |r| ==> r[k].1 == RowRatings(ds.data, u)[k]
  {
    UserRowsMembers(ds.data, u);
    UserRowsAreRowRatings(ds.data, u);
    UserRows(ds.data, u)
  }

  lemma {:induction false} UserRowsAreRowRatings(rows: seq<Row>, u: UserId)
    ensures |UserRows(rows, u)| == |RowRatings(rows, u)|
    ensures forall k :: 0 <= k < |UserRows(rows, u)| ==> UserRows(rows, u)[k].1 == RowRatings(rows, u)[k]
  {
    if rows != [] {
      UserRowsAreRowRatings(rows[..|rows| - 1], u);
    }
  }

  /** `get_users_who_rated(i)`: the raters of `i` with their ratings, in row order. */
  function GetUsersWhoRated(ds: Dataset, i: ItemId): (r: seq<(UserId, real)>)
    ensures r == UsersWhoRated(ds.data, i)
    ensures forall u, v :: (u, v) in r <==> Row(u, i, v) in ds.data
    ensures i !in ItemsOf(ds.data) ==> r == []
    ensures forall p :: p in r ==> p.0 in UsersOf(ds.data)
  {
    UsersWhoRatedMembers(ds.data, i);
    var r := UsersWhoRated(ds.data, i);
    assert r != [] ==> r[0] in r && Row(r[0].0, i, r[0].1) in ds.data;
    assert forall p :: p in r ==> Row(p.0, i, p.1) in ds.data;
    r
  }

  /** `get_items_not_rated_by_user(u)`: the items of the rows that `u` has no row for. */
  method GetItemsNotRatedByUser(ds: Dataset, u: UserId) returns (r: seq<ItemId>)
    ensures Enumerates(r, ItemsOf(ds.data) - RatedItems(ds.data, u))
  {
    var ratings := GetRatingsByUser(ds, u);
    var ratedItems := set p | p in ratings :: p.0;
    var allItems := set row | row in ds.data :: row.item;
    assert ratedItems == RatedItems(ds.data, u) by {
      forall i ensures i in ratedItems <==> i in RatedItems(ds.data, u) {
        if i in RatedItems(ds.data, u) {
          var row :| row in ds.data && row.user == u && row.item == i;
          assert (i, row.rating) in ratings;
        }
      }
    }
    r := Enumerate(allItems - ratedItems);
  }
}
