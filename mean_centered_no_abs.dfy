/** `MeanCenteredNoAbsPrediction`: the mean-centred predictor with a raw (signed)
    denominator, no memo, and a different "every neighbour" mode: the other users are
    always ranked by similarity first, and with every neighbour all of them are kept,
    including those who did not rate the item (their rating then counts as 0). */
module MeanCenteredNoAbs {
  import opened Common
  import opened Ratings
  import opened RatingIndex
  import opened Ranking
  import opened Neighborhood
  import opened MeanCentered

  /** The selected neighbours of `get_prediction(u, i)`. */
  function ClosestNeighbors(ds: Dataset, similarity: (UserId, UserId) -> real,
                            numNeighbors: int, u: UserId, i: ItemId): (r: seq<Neighbor>)
    requires Valid(ds)
    ensures numNeighbors != AllNeighbors ==> r == ClosestRaters(ds, similarity, numNeighbors, u, i)
    ensures numNeighbors == AllNeighbors ==>
      SortedDesc(r, SimilarityOf) && multiset(r) == multiset(Candidates(ds, similarity, u, i))
    ensures forall n :: n in r ==>
      && n.user != u && n.user in UsersOf(ds.data)
      && n.rating == GetRating(ds, n.user, i) && n.similarity == similarity(u, n.user)
  {
    var candidates := Candidates(ds, similarity, u, i);
    var sorted := SortDesc(candidates, SimilarityOf);
    SortDescFacts(candidates, SimilarityOf);
    assert forall n :: n in sorted ==> n in candidates by {
      forall n | n in sorted ensures n in candidates {
        assert n in multiset(sorted);
      }
    }
    if numNeighbors != AllNeighbors then Rated(PySlice(sorted, numNeighbors)) else sorted
  }

  /** The value `get_prediction(u, i)` returns. */
  function Prediction(ds: Dataset, similarity: (UserId, UserId) -> real, numNeighbors: int,
                      u: UserId, i: ItemId): (r: real)
    requires Valid(ds) && u in UsersOf(ds.data)
    ensures ClosestNeighbors(ds, similarity, numNeighbors, u, i) == [] ==> r == GetAverageRatingByUser(ds, u)
  {
    var closest := ClosestNeighbors(ds, similarity, numNeighbors, u, i);
    Predict(GetAverageRatingByUser(ds, u), Terms(ds, closest), false)
  }

  /** With a bounded neighbourhood this predictor is the memoised one with a raw denominator. */
  lemma BoundedIsMeanCenteredWithoutAbs(ds: Dataset, similarity: (UserId, UserId) -> real,
                                        numNeighbors: int, u: UserId, i: ItemId)
    requires Valid(ds) && u in UsersOf(ds.data) && numNeighbors != AllNeighbors
    ensures Prediction(ds, similarity, numNeighbors, u, i) ==
      MeanCentered.Prediction(ds, similarity, numNeighbors, false, u, i)
  {
  }

  /** With every neighbour the ranking is irrelevant: the prediction is the formula over
      all other users in user-list order. */
  lemma AllNeighborsIgnoresRanking(ds: Dataset, similarity: (UserId, UserId) -> real, u: UserId, i: ItemId)
    requires Valid(ds) && u in UsersOf(ds.data)
    ensures Prediction(ds, similarity, AllNeighbors, u, i) ==
      Predict(GetAverageRatingByUser(ds, u), Terms(ds, Candidates(ds, similarity, u, i)), false)
  {
    var closest := ClosestNeighbors(ds, similarity, AllNeighbors, u, i);
    var candidates := Candidates(ds, similarity, u, i);
    TermsPermutation(ds, closest, candidates);
    PermutationInvariant(GetAverageRatingByUser(ds, u), Terms(ds, closest), Terms(ds, candidates), false);
  }

  /** With every neighbour, another user who did not rate the item still takes part, with
      the deviation of a 0 rating from that user's mean. */
  lemma AllNeighborsCountsNonRaters(ds: Dataset, similarity: (UserId, UserId) -> real,
                                    u: UserId, i: ItemId, v: UserId)
    requires Valid(ds) && v in UsersOf(ds.data) && v != u && i !in RatedItems(ds.data, v)
    ensures Term(similarity(u, v), -GetAverageRatingByUser(ds, v)) in
      Terms(ds, ClosestNeighbors(ds, similarity, AllNeighbors, u, i))
  {
    var closest := ClosestNeighbors(ds, similarity, AllNeighbors, u, i);
    var candidates := Candidates(ds, similarity, u, i);
    var n :| n in candidates && n.user == v;
    assert n.rating == 0.0 && n.similarity == similarity(u, v);
    assert n in closest by {
      assert n in multiset(closest);
    }
    TermOfMember(ds, closest, n);
    assert Term(n.similarity, n.rating - GetAverageRatingByUser(ds, n.user)) ==
      Term(similarity(u, v), -GetAverageRatingByUser(ds, v));
  }

  lemma TermOfMember(ds: Dataset, ns: seq<Neighbor>, n: Neighbor)
    requires Valid(ds) && forall m :: m in ns ==> m.user in UsersOf(ds.data)
    requires n in ns
    ensures Term(n.similarity, n.rating - GetAverageRatingByUser(ds, n.user)) in Terms(ds, ns)
  {
    var k :| 0 <= k < |ns| && ns[k] == n;
    assert Terms(ds, ns)[k] == Term(n.similarity, n.rating - GetAverageRatingByUser(ds, n.user));
  }

  /** The one other user did not rate the item but is related to the user: with every
      neighbour the prediction is the user's mean minus that user's mean, where the
      memoised predictor would return the user's mean. */
  lemma LoneNonRater(ds: Dataset, similarity: (UserId, UserId) -> real, u: UserId, i: ItemId, v: UserId)
    requires Valid(ds) && u in UsersOf(ds.data) && v in UsersOf(ds.data)
    requires Candidates(ds, similarity, u, i) == [Neighbor(v, 0.0, similarity(u, v))]
    requires similarity(u, v) != 0.0
    ensures Prediction(ds, similarity, AllNeighbors, u, i) ==
      GetAverageRatingByUser(ds, u) - GetAverageRatingByUser(ds, v)
  {
    var n := Neighbor(v, 0.0, similarity(u, v));
    assert [n][..0] == [];
    assert SortDesc([n], SimilarityOf) == [n];
    var t := Term(similarity(u, v), 0.0 - GetAverageRatingByUser(ds, v));
    assert Terms(ds, [n]) == [t];
    SingleNeighbor(GetAverageRatingByUser(ds, u), t, false);
  }
}
