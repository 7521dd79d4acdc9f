/** The precomputed rating index (`Dataset` of the final version): the rows, one
    insertion-ordered dictionary of ratings per user, the mean rating of each user and the
    lists of all users and all items, all computed once when the index is built. */
module RatingIndex {
  import opened Common
  import opened PyDict
  import opened Ratings

  datatype Dataset = Dataset(
    data: seq<Row>,
    userRatings: map<UserId, Dict>,
    averageUserRatings: map<UserId, real>,
    users: seq<UserId>,
    items: seq<ItemId>)

  /** The mean of the values of a non-empty per-user dictionary. */
  function DictMean(d: Dict): real
    requires |d| > 0
  {
    Sum(Values(d)) / (|d| as real)
  }

  /** The tables hold what the constructor computes from the rows. */
  ghost predicate Valid(ds: Dataset)
  {
    && ds.userRatings.Keys == UsersOf(ds.data)
    && (forall u :: u in ds.userRatings ==> ds.userRatings[u] == UserRatingsOf(ds.data, u))
    && ds.averageUserRatings.Keys == UsersOf(ds.data)
    && (forall u :: u in ds.averageUserRatings ==>
          |UserRatingsOf(ds.data, u)| > 0 && ds.averageUserRatings[u] == DictMean(UserRatingsOf(ds.data, u)))
    && Enumerates(ds.users, UsersOf(ds.data))
    && Enumerates(ds.items, ItemsOf(ds.data))
  }

  lemma KnownUserHasRatings(rows: seq<Row>, u: UserId)
    requires u in UsersOf(rows)
    ensures |UserRatingsOf(rows, u)| > 0
  {
    var r :| r in rows && r.user == u;
    assert r.item in RatedItems(rows, u);
    UserRatingsOfIsLastRating(rows, u);
  }

  /** A dictionary lists each of its keys once, so it has as many entries as keys. */
  lemma DictSize(d: Dict)
    requires DistinctKeys(d)
    ensures |Keys(d)| == |d|
  {
    var ks := seq(|d|, k requires 0 <= k < |d| => d[k].0);
    assert forall x :: x in ks ==> x in Keys(d) by {
      forall x | x in ks ensures x in Keys(d) {
        var k :| 0 <= k < |ks| && ks[k] == x;
        assert d[k] in d;
      }
    }
    assert forall x :: x in Keys(d) ==> x in ks by {
      forall x | x in Keys(d) ensures x in ks {
        var p :| p in d && p.0 == x;
        var k :| 0 <= k < |d| && d[k] == p;
        assert ks[k] == x;
      }
    }
    EnumerationSize(ks, Keys(d));
  }

  /** `__compute_user_ratings`: one dictionary per user occurring in the rows. */
  method ComputeUserRatings(data: seq<Row>) returns (result: map<UserId, Dict>)
    ensures result.Keys == UsersOf(data)
    ensures forall u :: u in result ==> result[u] == UserRatingsOf(data, u)
  {
    var allUsers := Enumerate(UsersOf(data));
    result := map[];
    for k := 0 to |allUsers|
      invariant result.Keys == set j | 0 <= j < k :: allUsers[j]
      invariant forall u :: u in result ==> result[u] == UserRatingsOf(data, u)
    {
      PrefixElementsStep(allUsers, k);
      result := result[allUsers[k] := UserRatingsOf(data, allUsers[k])];
    }
  }

  /** `__compute_average_user_ratings`: the mean of each user's dictionary values. */
  method ComputeAverageUserRatings(data: seq<Row>, userRatings: map<UserId, Dict>)
    returns (result: map<UserId, real>)
    requires userRatings.Keys == UsersOf(data)
    requires forall u :: u in userRatings ==> userRatings[u] == UserRatingsOf(data, u)
    ensures result.Keys == UsersOf(data)
    ensures forall u :: u in result ==>
      |UserRatingsOf(data, u)| > 0 && result[u] == DictMean(UserRatingsOf(data, u))
  {
    var allUsers := Enumerate(UsersOf(data));
    result := map[];
    for k := 0 to |allUsers|
      invariant result.Keys == set j | 0 <= j < k :: allUsers[j]
      invariant forall u :: u in result ==>
        |UserRatingsOf(data, u)| > 0 && result[u] == DictMean(UserRatingsOf(data, u))
    {
      PrefixElementsStep(allUsers, k);
      var user := allUsers[k];
      var ratings := Values(userRatings[user]);
      KnownUserHasRatings(data, user);
      result := result[user := Sum(ratings) / (|ratings| as real)];
    }
  }

  /** The constructor with `__precompute`. */
  method NewDataset(data: seq<Row>) returns (ds: Dataset)
    ensures Valid(ds) && ds.data == data
  {
    var userRatings := ComputeUserRatings(data);
    var averages := ComputeAverageUserRatings(data, userRatings);
    var users := Enumerate(UsersOf(data));
    var items := Enumerate(ItemsOf(data));
    ds := Dataset(data, userRatings, averages, users, items);
  }

  /** `__len__`: the number of rows. */
  function Len(ds: Dataset): (n: nat)
    ensures n == |ds.data|
  {
    |ds.data|
  }

  /** `get_first(limit)`: the first `limit` rows (all but the last `-limit` for a negative limit). */
  function GetFirst(ds: Dataset, limit: int): (r: seq<Row>)
    ensures limit >= 0 ==> |r| == Min(limit, Len(ds))
    ensures limit < 0 ==> |r| == Max(0, Len(ds) + limit)
    ensures r == ds.data[..|r|]
  {
    PySlice(ds.data, limit)
  }

  /** `get_rating(u, i)`: the last rating of `u` for `i`, and 0 when `u` never rated `i`. */
  function GetRating(ds: Dataset, u: UserId, i: ItemId): (r: real)
    requires Valid(ds) && u in UsersOf(ds.data)
    ensures r == RatingOrZero(ds.data, u, i)
    ensures i !in RatedItems(ds.data, u) ==> r == 0.0
    ensures i in RatedItems(ds.data, u) ==>
      exists k :: 0 <= k < |ds.data| && ds.data[k] == Row(u, i, r) &&
        forall k' :: k < k' < |ds.data| ==> ds.data[k'].user != u || ds.data[k'].item != i
  {
    UserRatingsOfIsLastRating(ds.data, u);
    LastRatingIsLastRow(ds.data, u, i);
    GetOr(ds.userRatings[u], i, 0.0)
  }

  /** `get_average_rating_by_user(u)`: the sum of `u`'s ratings over the number of distinct
      items `u` rated; when no item is rated twice, the plain mean of `u`'s rows. */
  function GetAverageRatingByUser(ds: Dataset, u: UserId): (r: real)
    requires Valid(ds) && u in UsersOf(ds.data)
    ensures |RatedItems(ds.data, u)| > 0
    ensures r == Sum(Values(UserRatingsOf(ds.data, u))) / (|RatedItems(ds.data, u)| as real)
    ensures NoRepeatedItems(ds.data, u) ==>
      |RowRatings(ds.data, u)| > 0 && r == Sum(RowRatings(ds.data, u)) / (|RowRatings(ds.data, u)| as real)
  {
    UserRatingsOfIsLastRating(ds.data, u);
    DictSize(UserRatingsOf(ds.data, u));
    RowsWithoutRepeats(ds.data, u);
    ds.averageUserRatings[u]
  }

  lemma RowsWithoutRepeats(rows: seq<Row>, u: UserId)
    ensures NoRepeatedItems(rows, u) ==> Values(UserRatingsOf(rows, u)) == RowRatings(rows, u)
  {
    if NoRepeatedItems(rows, u) {
      DictValuesAreRowRatings(rows, u);
    }
  }

  /** `get_ratings_by_user(u)`: the `(item, rating)` entries of `u`'s dictionary. */
  function GetRatingsByUser(ds: Dataset, u: UserId): (r: seq<(ItemId, real)>)
    requires Valid(ds) && u in UsersOf(ds.data)
    ensures DistinctKeys(r) && Keys(r) == RatedItems(ds.data, u)
    ensures forall i, v :: (i, v) in r ==> LastRating(ds.data, u, i) == Some(v)
  {
    UserRatingsOfIsLastRating(ds.data, u);
    var d := ds.userRatings[u];
    assert forall i, v :: (i, v) in d ==> Get(d, i) == Some(v) by {
      forall i, v | (i, v) in d ensures Get(d, i) == Some(v) {
        DistinctKeyLookup(d, i, v);
      }
    }
    d
  }

  /** In a dictionary with distinct keys an entry is what looking up its key yields. */
  lemma {:induction false} DistinctKeyLookup(d: Dict, k: ItemId, v: real)
    requires DistinctKeys(d) && (k, v) in d
    ensures Get(d, k) == Some(v)
  {
    if d[0] != (k, v) {
      assert (k, v) in d[1..];
      var j :| 0 < j < |d| && d[j] == (k, v);
      assert d[0].0 != k;
      assert DistinctKeys(d[1..]) by {
        forall i, j' | 0 <= i < j' < |d[1..]| ensures d[1..][i].0 != d[1..][j'].0 {
          assert d[1..][i] == d[i + 1] && d[1..][j'] == d[j' + 1];
        }
      }
      DistinctKeyLookup(d[1..], k, v);
    }
  }

  /** `get_users_who_rated(i)`: the raters of `i` with their ratings, in row order. */
  function GetUsersWhoRated(ds: Dataset, i: ItemId): (r: seq<(UserId, real)>)
    ensures r == UsersWhoRated(ds.data, i)
    ensures forall u, v :: (u, v) in r <==> Row(u, i, v) in ds.data
    ensures i !in ItemsOf(ds.data) ==> r == []
  {
    UsersWhoRatedMembers(ds.data, i);
    var r := UsersWhoRated(ds.data, i);
    assert r != [] ==> r[0] in r && Row(r[0].0, i, r[0].1) in ds.data;
    r
  }

  /** `get_all_users()`: every user of the rows, once each. */
  function GetAllUsers(ds: Dataset): (r: seq<UserId>)
    requires Valid(ds)
    ensures Enumerates(r, UsersOf(ds.data))
  {
    ds.users
  }

  /** `get_all_items()`: every item of the rows, once each. */
  function GetAllItems(ds: Dataset): (r: seq<ItemId>)
    requires Valid(ds)
    ensures Enumerates(r, ItemsOf(ds.data))
  {
    ds.items
  }

  /** `get_items_not_rated_by_user(u)`: `list(all_items - rated_items)`, in set order. */
  method GetItemsNotRatedByUser(ds: Dataset, u: UserId) returns (r: seq<ItemId>)
    requires Valid(ds) && u in UsersOf(ds.data)
    ensures Enumerates(r, ItemsOf(ds.data) - RatedItems(ds.data, u))
    ensures forall i :: i in r ==> GetRating(ds, u, i) == 0.0
  {
    var ratings := GetRatingsByUser(ds, u);
    var ratedItems := set p | p in ratings :: p.0;
    var allItems := set i | i in GetAllItems(ds);
    r := Enumerate(allItems - ratedItems);
  }

  /** `get_items_rated_by_both(a, b)`: the items both users rated, with both ratings. */
  method GetItemsRatedByBoth(ds: Dataset, a: UserId, b: UserId) returns (result: map<ItemId, (real, real)>)
    requires Valid(ds) && a in UsersOf(ds.data) && b in UsersOf(ds.data)
    ensures result.Keys == RatedItems(ds.data, a) * RatedItems(ds.data, b)
    ensures forall i :: i in result ==> result[i] == (GetRating(ds, a, i), GetRating(ds, b, i))
  {
    var ratedByA := ds.userRatings[a];
    var ratedByB := ds.userRatings[b];
    var keysA, keysB := Keys(ratedByA), Keys(ratedByB);
    assert keysA == RatedItems(ds.data, a) && keysB == RatedItems(ds.data, b) by {
      UserRatingsOfIsLastRating(ds.data, a);
      UserRatingsOfIsLastRating(ds.data, b);
    }
    var commonItems := Enumerate(keysA * keysB);
    result := map[];
    for k := 0 to |commonItems|
      invariant result.Keys == set j | 0 <= j < k :: commonItems[j]
      invariant forall i :: i in result ==> result[i] == (RatingOrZero(ds.data, a, i), RatingOrZero(ds.data, b, i))
    {
      PrefixElementsStep(commonItems, k);
      var item := commonItems[k];
      assert item in commonItems;
      StoredRating(ds, a, item);
      StoredRating(ds, b, item);
      var ratingA, ratingB := Get(ratedByA, item).value, Get(ratedByB, item).value;
      result := result[item := (ratingA, ratingB)];
    }
  }

  /** A rated item's entry in the user's dictionary is the user's rating of it. */
  lemma StoredRating(ds: Dataset, u: UserId, i: ItemId)
    requires Valid(ds) && u in UsersOf(ds.data) && i in Keys(ds.userRatings[u])
    ensures Get(ds.userRatings[u], i) == Some(RatingOrZero(ds.data, u, i))
  {
    assert Get(ds.userRatings[u], i) == Some(GetOr(ds.userRatings[u], i, 0.0));
    assert GetOr(ds.userRatings[u], i, 0.0) == GetRating(ds, u, i);
  }

  /** `get_items_rated_by_any(a, b)`: the items either user rated, 0 standing for a missing rating. */
  method GetItemsRatedByAny(ds: Dataset, a: UserId, b: UserId) returns (result: map<ItemId, (real, real)>)
    requires Valid(ds) && a in UsersOf(ds.data) && b in UsersOf(ds.data)
    ensures result.Keys == RatedItems(ds.data, a) + RatedItems(ds.data, b)
    ensures forall i :: i in result ==> result[i] == (GetRating(ds, a, i), GetRating(ds, b, i))
  {
    var ratedByA := ds.userRatings[a];
    var ratedByB := ds.userRatings[b];
    var keysA, keysB := Keys(ratedByA), Keys(ratedByB);
    assert keysA == RatedItems(ds.data, a) && keysB == RatedItems(ds.data, b) by {
      UserRatingsOfIsLastRating(ds.data, a);
      UserRatingsOfIsLastRating(ds.data, b);
    }
    var allItems := Enumerate(keysA + keysB);
    result := map[];
    for k := 0 to |allItems|
      invariant result.Keys == set j | 0 <= j < k :: allItems[j]
      invariant forall i :: i in result ==> result[i] == (RatingOrZero(ds.data, a, i), RatingOrZero(ds.data, b, i))
    {
      PrefixElementsStep(allItems, k);
      var item := allItems[k];
      var ratingA, ratingB := GetOr(ratedByA, item, 0.0), GetOr(ratedByB, item, 0.0);
      assert ratingA == GetRating(ds, a, item) && ratingB == GetRating(ds, b, item);
      result := result[item := (ratingA, ratingB)];
    }
  }
}
