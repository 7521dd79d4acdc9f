/** `Stats` of the final version: the users most similar to a user, and the similarity of
    every ordered pair of users. The similarity strategy is a parameter. */
module SimilarityStats {
  import opened Common
  import opened Ratings
  import opened RatingIndex
  import opened Ranking

  /** `[user_id for user_id in users if user_id != u]`. */
  function Others(users: seq<UserId>, u: UserId): (r: seq<UserId>)
    ensures forall x :: x in r <==> x in users && x != u
  {
    if users == [] then []
    else
      var last := users[|users| - 1];
      assert users == users[..|users| - 1] + [last];
      Others(users[..|users| - 1], u) + (if last != u then [last] else [])
  }

  lemma {:induction false} OthersNoDuplicates(users: seq<UserId>, u: UserId)
    requires NoDuplicates(users)
    ensures NoDuplicates(Others(users, u))
  {
    if users != [] {
      var init := users[..|users| - 1];
      assert NoDuplicates(init) by {
        forall i, j | 0 <= i < j < |init| ensures init[i] != init[j] {
          assert init[i] == users[i] && init[j] == users[j];
        }
      }
      OthersNoDuplicates(init, u);
      var last := users[|users| - 1];
      assert last !in init by {
        forall i | 0 <= i < |init| ensures init[i] != last {
          assert init[i] == users[i];
        }
      }
      var o := Others(init, u);
      assert forall i :: 0 <= i < |o| ==> o[i] in o && o[i] != last;
    }
  }

  /** `get_most_similar_users(u, limit)`: the other users ranked by similarity with `u`,
      highest first and ties in user-list order, cut to `limit`. */
  function GetMostSimilarUsers(ds: Dataset, similarity: (UserId, UserId) -> real, u: UserId, limit: int)
    : (r: seq<(UserId, real)>)
    requires Valid(ds)
    ensures IsTopSelection(r, Scored(Others(GetAllUsers(ds), u), u, similarity), Score, limit)
    ensures forall p :: p in r ==> p.0 != u && p.0 in UsersOf(ds.data) && p.1 == similarity(u, p.0)
    ensures u in UsersOf(ds.data) && limit >= 0 ==> |r| == Min(limit, |UsersOf(ds.data)| - 1)
  {
    var others := Others(GetAllUsers(ds), u);
    OthersNoDuplicates(GetAllUsers(ds), u);
    assert Enumerates(others, UsersOf(ds.data) - {u});
    EnumerationSize(others, UsersOf(ds.data) - {u});
    TopScored(others, u, similarity, limit)
  }

  /** `get_user_similarity_matrix()`: one entry for every ordered pair of users, `(u, u)`
      included, so |users|² entries. */
  method GetUserSimilarityMatrix(ds: Dataset, similarity: (UserId, UserId) -> real)
    returns (matrix: map<(UserId, UserId), real>)
    requires Valid(ds)
    ensures forall a, b :: (a, b) in matrix <==> a in UsersOf(ds.data) && b in UsersOf(ds.data)
    ensures forall p :: p in matrix ==> matrix[p] == similarity(p.0, p.1)
    ensures |matrix| == |UsersOf(ds.data)| * |UsersOf(ds.data)|
  {
    var allUsers := GetAllUsers(ds);
    EnumerationSize(allUsers, UsersOf(ds.data));
    matrix := FillMatrix(allUsers, similarity);
  }

  /** The outer loop over the user list. */
  method FillMatrix(allUsers: seq<UserId>, similarity: (UserId, UserId) -> real)
    returns (matrix: map<(UserId, UserId), real>)
    requires NoDuplicates(allUsers)
    ensures forall a, b :: (a, b) in matrix <==> a in allUsers && b in allUsers
    ensures forall p :: p in matrix ==> matrix[p] == similarity(p.0, p.1)
    ensures |matrix| == |allUsers| * |allUsers|
  {
    var n := |allUsers|;
    matrix := map[];
    for i := 0 to n
      invariant forall a, b :: (a, b) in matrix <==> a in allUsers[..i] && b in allUsers
      invariant forall p :: p in matrix ==> matrix[p] == similarity(p.0, p.1)
      invariant |matrix| == i * n
    {
      var userA := allUsers[i];
      RowNotYetFilled(matrix, allUsers, i);
      ghost var before := matrix;
      matrix := FillRow(matrix, userA, allUsers, similarity);
      AddedRow(before, matrix, allUsers, i, similarity);
      NextRow(i, n);
    }
    assert allUsers[..n] == allUsers;
  }

  /** Before the row of the `i`-th user is filled, no entry has that user first. */
  lemma RowNotYetFilled(matrix: map<(UserId, UserId), real>, allUsers: seq<UserId>, i: nat)
    requires NoDuplicates(allUsers) && i < |allUsers|
    requires forall a, b :: (a, b) in matrix <==> a in allUsers[..i] && b in allUsers
    ensures forall a, b :: (a, b) in matrix ==> a != allUsers[i]
  {
    assert allUsers[i] !in allUsers[..i] by {
      forall k | 0 <= k < i ensures allUsers[k] != allUsers[i] {
        assert allUsers[..i][k] == allUsers[k];
      }
    }
  }

  /** One more row keeps the outer loop's invariant: the entries are the pairs whose first
      user comes among the first `i + 1`, each holding its similarity. */
  lemma AddedRow(before: map<(UserId, UserId), real>, matrix: map<(UserId, UserId), real>,
                 allUsers: seq<UserId>, i: nat, similarity: (UserId, UserId) -> real)
    requires i < |allUsers|
    requires forall a, b :: (a, b) in before <==> a in allUsers[..i] && b in allUsers
    requires forall p :: p in before ==> before[p] == similarity(p.0, p.1)
    requires forall a, b :: (a, b) in matrix <==> (a, b) in before || (a == allUsers[i] && b in allUsers)
    requires forall p :: p in matrix ==> matrix[p] == if p in before then before[p] else similarity(p.0, p.1)
    ensures forall a, b :: (a, b) in matrix <==> a in allUsers[..i + 1] && b in allUsers
    ensures forall p :: p in matrix ==> matrix[p] == similarity(p.0, p.1)
  {
    assert allUsers[..i + 1] == allUsers[..i] + [allUsers[i]];
    forall p | p in matrix ensures matrix[p] == similarity(p.0, p.1) {
      if p in before {
        assert before[p] == similarity(p.0, p.1);
      }
    }
  }

  lemma NextRow(i: int, n: int)
    ensures (i + 1) * n == i * n + n
  {
  }

  /** The inner loop: the entries of one user against every user. */
  method FillRow(matrix0: map<(UserId, UserId), real>, userA: UserId, allUsers: seq<UserId>,
                 similarity: (UserId, UserId) -> real)
    returns (matrix: map<(UserId, UserId), real>)
    requires NoDuplicates(allUsers)
    requires forall a, b :: (a, b) in matrix0 ==> a != userA
    ensures forall a, b :: (a, b) in matrix <==> (a, b) in matrix0 || (a == userA && b in allUsers)
    ensures forall p :: p in matrix ==> matrix[p] == if p in matrix0 then matrix0[p] else similarity(p.0, p.1)
    ensures |matrix| == |matrix0| + |allUsers|
  {
    matrix := matrix0;
    for j := 0 to |allUsers|
      invariant forall p :: p in matrix ==> p in matrix0 || (p.0 == userA && p.1 in allUsers[..j])
      invariant forall p :: p in matrix0 ==> p in matrix
      invariant forall k :: 0 <= k < j ==> (userA, allUsers[k]) in matrix
      invariant forall p :: p in matrix ==> matrix[p] == if p in matrix0 then matrix0[p] else similarity(p.0, p.1)
      invariant |matrix| == |matrix0| + j
    {
      var userB := allUsers[j];
      assert userB !in allUsers[..j];
      matrix := matrix[(userA, userB) := similarity(userA, userB)];
    }
    assert forall b :: b in allUsers ==> (userA, b) in matrix;
  }
}
