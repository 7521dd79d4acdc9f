/** Reference definitions over the raw rating rows, shared by both versions of the
    rating index. In every dictionary the source builds from the rows, a later row for
    the same (user, item) overwrites an earlier one, so the reference rating of a pair
    is the rating of its LAST row. */
module Ratings {
  import opened Common
  import opened PyDict

  function UsersOf(rows: seq<Row>): set<UserId>
  {
    set r | r in rows :: r.user
  }

  function ItemsOf(rows: seq<Row>): set<ItemId>
  {
    set r | r in rows :: r.item
  }

  /** The items `u` has at least one row for. */
  function RatedItems(rows: seq<Row>, u: UserId): set<ItemId>
  {
    set r | r in rows && r.user == u :: r.item
  }

  /** No two rows of `u` are for the same item. */
  ghost predicate NoRepeatedItems(rows: seq<Row>, u: UserId)
  {
    forall j, k :: 0 <= j < k < |rows| && rows[j].user == u && rows[k].user == u ==> rows[j].item != rows[k].item
  }

  /** The rating of the last row for `(u, i)`, if there is one. */
  function LastRating(rows: seq<Row>, u: UserId, i: ItemId): Option<real>
  {
    if rows == [] then None
    else
      var r := rows[|rows| - 1];
      if r.user == u && r.item == i then Some(r.rating) else LastRating(rows[..|rows| - 1], u, i)
  }

  /** `d.get(i, 0)` on the per-user dictionary: the last rating, or 0 for an unrated item. */
  function RatingOrZero(rows: seq<Row>, u: UserId, i: ItemId): real
  {
    match LastRating(rows, u, i)
    case Some(v) => v
    case None => 0.0
  }

  lemma RatedItemsSnoc(rows: seq<Row>, u: UserId)
    requires rows != []
    ensures var r := rows[|rows| - 1];
      RatedItems(rows, u) == RatedItems(rows[..|rows| - 1], u) + (if r.user == u then {r.item} else {})
  {
    assert rows == rows[..|rows| - 1] + [rows[|rows| - 1]];
  }

  lemma UsersItemsSnoc(rows: seq<Row>)
    requires rows != []
    ensures UsersOf(rows) == UsersOf(rows[..|rows| - 1]) + {rows[|rows| - 1].user}
    ensures ItemsOf(rows) == ItemsOf(rows[..|rows| - 1]) + {rows[|rows| - 1].item}
  {
    assert rows == rows[..|rows| - 1] + [rows[|rows| - 1]];
  }

  /** `u` has a rating for `i` exactly when one of its rows is for `i`; the rating is
      that of a row for `(u, i)` after which no other row for `(u, i)` follows. */
  lemma {:induction false} LastRatingIsLastRow(rows: seq<Row>, u: UserId, i: ItemId)
    ensures LastRating(rows, u, i).Some? <==> i in RatedItems(rows, u)
    ensures LastRating(rows, u, i).Some? ==>
      exists k :: 0 <= k < |rows| && rows[k] == Row(u, i, LastRating(rows, u, i).value) &&
        forall k' :: k < k' < |rows| ==> rows[k'].user != u || rows[k'].item != i
  {
    if rows != [] {
      var init := rows[..|rows| - 1];
      var r := rows[|rows| - 1];
      RatedItemsSnoc(rows, u);
      LastRatingIsLastRow(init, u, i);
      if r.user == u && r.item == i {
        assert rows[|rows| - 1] == Row(u, i, LastRating(rows, u, i).value);
      } else if LastRating(rows, u, i).Some? {
        var k :| 0 <= k < |init| && init[k] == Row(u, i, LastRating(init, u, i).value) &&
          forall k' :: k < k' < |init| ==> init[k'].user != u || init[k'].item != i;
        assert rows[k] == init[k];
        forall k' | k < k' < |rows| ensures rows[k'].user != u || rows[k'].item != i {
          if k' < |init| { assert rows[k'] == init[k']; }
        }
      }
    }
  }

  /** The per-user dictionary built by scanning the rows with `d[item] = rating`. */
  function RatingsMap(rows: seq<Row>, u: UserId): map<ItemId, real>
  {
    if rows == [] then map[]
    else
      var m := RatingsMap(rows[..|rows| - 1], u);
      var r := rows[|rows| - 1];
      if r.user == u then m[r.item := r.rating] else m
  }

  /** The scanned dictionary holds exactly the rated items, each with its last rating. */
  lemma {:induction false} RatingsMapIsLastRating(rows: seq<Row>, u: UserId)
    ensures RatingsMap(rows, u).Keys == RatedItems(rows, u)
    ensures forall i :: i in RatingsMap(rows, u) ==> LastRating(rows, u, i) == Some(RatingsMap(rows, u)[i])
  {
    if rows != [] {
      RatedItemsSnoc(rows, u);
      RatingsMapIsLastRating(rows[..|rows| - 1], u);
    }
  }

  /** The insertion-ordered per-user dictionary of the precomputed index, built by the
      comprehension `{item: rating for (user_id, item, rating) in rows if user_id == u}`. */
  function UserRatingsOf(rows: seq<Row>, u: UserId): Dict
  {
    if rows == [] then []
    else
      var d := UserRatingsOf(rows[..|rows| - 1], u);
      var r := rows[|rows| - 1];
      if r.user == u then Put(d, r.item, r.rating) else d
  }

  /** The ordered dictionary holds each rated item once, mapped to its last rating. */
  lemma {:induction false} UserRatingsOfIsLastRating(rows: seq<Row>, u: UserId)
    ensures Keys(UserRatingsOf(rows, u)) == RatedItems(rows, u)
    ensures DistinctKeys(UserRatingsOf(rows, u))
    ensures forall i :: Get(UserRatingsOf(rows, u), i) == LastRating(rows, u, i)
  {
    if rows != [] {
      var init := rows[..|rows| - 1];
      var r := rows[|rows| - 1];
      RatedItemsSnoc(rows, u);
      UserRatingsOfIsLastRating(init, u);
      if r.user == u {
        PutDistinct(UserRatingsOf(init, u), r.item, r.rating);
        forall i ensures Get(UserRatingsOf(rows, u), i) == LastRating(rows, u, i) {
          GetPut(UserRatingsOf(init, u), r.item, r.rating, i);
        }
      }
    }
  }

  /** `[(item, rating) for (user_id, item, rating) in rows if user_id == u]`. */
  function UserRows(rows: seq<Row>, u: UserId): seq<(ItemId, real)>
  {
    if rows == [] then []
    else
      var r := rows[|rows| - 1];
      UserRows(rows[..|rows| - 1], u) + (if r.user == u then [(r.item, r.rating)] else [])
  }

  /** `[(user_id, rating) for (user_id, item_id, rating) in rows if item_id == i]`. */
  function UsersWhoRated(rows: seq<Row>, i: ItemId): seq<(UserId, real)>
  {
    if rows == [] then []
    else
      var r := rows[|rows| - 1];
      UsersWhoRated(rows[..|rows| - 1], i) + (if r.item == i then [(r.user, r.rating)] else [])
  }

  /** The raters of an item are listed in row order: the list for a concatenation of
      rows is the concatenation of the lists. */
  lemma {:induction false} UsersWhoRatedInRowOrder(a: seq<Row>, b: seq<Row>, i: ItemId)
    ensures UsersWhoRated(a + b, i) == UsersWhoRated(a, i) + UsersWhoRated(b, i)
    decreases |b|
  {
    if b == [] {
      assert a + b == a;
    } else {
      assert (a + b)[..|a + b| - 1] == a + b[..|b| - 1];
      UsersWhoRatedInRowOrder(a, b[..|b| - 1], i);
    }
  }

  /** A user's rows are listed in row order: the list for a concatenation of rows is the
      concatenation of the lists. */
  lemma {:induction false} UserRowsInRowOrder(a: seq<Row>, b: seq<Row>, u: UserId)
    ensures UserRows(a + b, u) == UserRows(a, u) + UserRows(b, u)
    decreases |b|
  {
    if b == [] {
      assert a + b == a;
    } else {
      assert (a + b)[..|a + b| - 1] == a + b[..|b| - 1];
      UserRowsInRowOrder(a, b[..|b| - 1], u);
    }
  }

  /** A pair is listed among the raters of `i` exactly when a row `(user, i, rating)` exists. */
  lemma {:induction false} UsersWhoRatedMembers(rows: seq<Row>, i: ItemId)
    ensures forall u, v :: (u, v) in UsersWhoRated(rows, i) <==> Row(u, i, v) in rows
  {
    if rows != [] {
      UsersWhoRatedMembers(rows[..|rows| - 1], i);
      assert rows == rows[..|rows| - 1] + [rows[|rows| - 1]];
    }
  }

  /** Each entry of the per-user row list comes from a row of that user, and every row of
      the user is listed. */
  lemma {:induction false} UserRowsMembers(rows: seq<Row>, u: UserId)
    ensures forall i, v :: (i, v) in UserRows(rows, u) <==> Row(u, i, v) in rows
  {
    if rows != [] {
      UserRowsMembers(rows[..|rows| - 1], u);
      assert rows == rows[..|rows| - 1] + [rows[|rows| - 1]];
    }
  }

  /** The ratings of `u`'s rows, in row order. */
  function RowRatings(rows: seq<Row>, u: UserId): seq<real>
  {
    if rows == [] then []
    else
      var r := rows[|rows| - 1];
      RowRatings(rows[..|rows| - 1], u) + (if r.user == u then [r.rating] else [])
  }

  lemma {:induction false} RowRatingsNonEmpty(rows: seq<Row>, u: UserId)
    requires u in UsersOf(rows)
    ensures |RowRatings(rows, u)| > 0
  {
    var init := rows[..|rows| - 1];
    UsersItemsSnoc(rows);
    if rows[|rows| - 1].user != u {
      RowRatingsNonEmpty(init, u);
    }
  }

  /** When `u` never rates an item twice, the ordered dictionary of `u`'s ratings lists
      exactly `u`'s row ratings, in row order. */
  lemma {:induction false} DictValuesAreRowRatings(rows: seq<Row>, u: UserId)
    requires NoRepeatedItems(rows, u)
    ensures Values(UserRatingsOf(rows, u)) == RowRatings(rows, u)
  {
    if rows != [] {
      var init := rows[..|rows| - 1];
      var r := rows[|rows| - 1];
      assert NoRepeatedItems(init, u) by {
        forall j, k | 0 <= j < k < |init| && init[j].user == u && init[k].user == u
          ensures init[j].item != init[k].item
        {
          assert init[j] == rows[j] && init[k] == rows[k];
        }
      }
      DictValuesAreRowRatings(init, u);
      if r.user == u {
        UserRatingsOfIsLastRating(init, u);
        assert r.item !in RatedItems(init, u) by {
          forall q | q in init && q.user == u ensures q.item != r.item {
            var j :| 0 <= j < |init| && init[j] == q;
            assert rows[j] == q;
          }
        }
        var d := UserRatingsOf(init, u);
        assert Values(d + [(r.item, r.rating)]) == Values(d) + [r.rating];
      }
    }
  }
}
