/** The mean-centred neighbourhood formula shared by every collaborative predictor:
    the user's mean plus the similarity-weighted deviations of the neighbours' ratings
    from their own means, over a denominator that sums the similarities (or their
    absolute values); when that denominator is 0 the prediction is the user's mean. */
module Neighborhood {
  import opened Common

  /** One neighbour's contribution: its similarity with the user and the deviation of its
      rating for the item from its own mean rating. */
  datatype Term = Term(similarity: real, deviation: real)

  function Weight(t: Term, useAbs: bool): real
  {
    if useAbs then Abs(t.similarity) else t.similarity
  }

  /** `sum([abs(s) for ...])` or `sum([s for ...])`. */
  function Denominator(ts: seq<Term>, useAbs: bool): real
  {
    if ts == [] then 0.0 else Denominator(ts[..|ts| - 1], useAbs) + Weight(ts[|ts| - 1], useAbs)
  }

  /** `sum([s * d for ...])`. */
  function WeightedDeviations(ts: seq<Term>): real
  {
    if ts == [] then 0.0
    else WeightedDeviations(ts[..|ts| - 1]) + ts[|ts| - 1].similarity * ts[|ts| - 1].deviation
  }

  function Predict(userMean: real, ts: seq<Term>, useAbs: bool): (r: real)
    ensures Denominator(ts, useAbs) == 0.0 ==> r == userMean
    ensures ts == [] ==> r == userMean
  {
    var denominator := Denominator(ts, useAbs);
    if denominator == 0.0 then userMean else userMean + WeightedDeviations(ts) / denominator
  }

  /** The absolute denominator is never negative, and it is 0 exactly when every
      similarity is 0. */
  lemma {:induction false} AbsDenominator(ts: seq<Term>)
    ensures Denominator(ts, true) >= 0.0
    ensures Denominator(ts, true) == 0.0 <==> forall k :: 0 <= k < |ts| ==> ts[k].similarity == 0.0
  {
    if ts != [] {
      var init := ts[..|ts| - 1];
      AbsDenominator(init);
      assert forall k :: 0 <= k < |init| ==> init[k] == ts[k];
    }
  }

  /** Neighbours that are all unrelated to the user leave the user's mean, in both modes. */
  lemma {:induction false} UnrelatedNeighborsGiveMean(userMean: real, ts: seq<Term>, useAbs: bool)
    requires forall k :: 0 <= k < |ts| ==> ts[k].similarity == 0.0
    ensures Predict(userMean, ts, useAbs) == userMean
  {
    ZeroSimilaritiesGiveZeroDenominator(ts, useAbs);
  }

  lemma {:induction false} ZeroSimilaritiesGiveZeroDenominator(ts: seq<Term>, useAbs: bool)
    requires forall k :: 0 <= k < |ts| ==> ts[k].similarity == 0.0
    ensures Denominator(ts, useAbs) == 0.0
  {
    if ts != [] {
      var init := ts[..|ts| - 1];
      assert forall k :: 0 <= k < |init| ==> init[k] == ts[k];
      ZeroSimilaritiesGiveZeroDenominator(init, useAbs);
    }
  }

  /** With no negative similarity the two denominators coincide, so both modes predict
      the same. */
  lemma {:induction false} AbsAndRawAgree(userMean: real, ts: seq<Term>)
    requires forall k :: 0 <= k < |ts| ==> ts[k].similarity >= 0.0
    ensures Denominator(ts, true) == Denominator(ts, false)
    ensures Predict(userMean, ts, true) == Predict(userMean, ts, false)
  {
    if ts != [] {
      var init := ts[..|ts| - 1];
      assert forall k :: 0 <= k < |init| ==> init[k] == ts[k];
      AbsAndRawAgree(userMean, init);
    }
  }

  lemma {:induction false} WeightedDeviationBounds(ts: seq<Term>, lo: real, hi: real)
    requires forall k :: 0 <= k < |ts| ==> ts[k].similarity >= 0.0 && lo <= ts[k].deviation <= hi
    ensures lo * Denominator(ts, false) <= WeightedDeviations(ts) <= hi * Denominator(ts, false)
  {
    if ts != [] {
      var init := ts[..|ts| - 1];
      assert forall k :: 0 <= k < |init| ==> init[k] == ts[k];
      WeightedDeviationBounds(init, lo, hi);
      var t := ts[|ts| - 1];
      assert t == ts[|ts| - 1];
      assert t.similarity >= 0.0 && lo <= t.deviation <= hi;
      ScaleBounds(t.similarity, lo, t.deviation, hi);
      var d := Denominator(init, false);
      assert Denominator(ts, false) == d + t.similarity;
      assert WeightedDeviations(ts) == WeightedDeviations(init) + t.similarity * t.deviation;
      assert lo * Denominator(ts, false) == lo * d + t.similarity * lo;
      assert hi * Denominator(ts, false) == hi * d + t.similarity * hi;
      AddBounds(lo * d, WeightedDeviations(init), hi * d,
                t.similarity * lo, t.similarity * t.deviation, t.similarity * hi);
    } else {
      assert Denominator(ts, false) == 0.0 && WeightedDeviations(ts) == 0.0;
      assert lo * 0.0 == 0.0 && hi * 0.0 == 0.0;
    }
  }

  lemma AddBounds(a1: real, b1: real, c1: real, a2: real, b2: real, c2: real)
    requires a1 <= b1 <= c1 && a2 <= b2 <= c2
    ensures a1 + a2 <= b1 + b2 <= c1 + c2
  {
  }

  lemma ScaleBounds(s: real, lo: real, d: real, hi: real)
    requires s >= 0.0 && lo <= d <= hi
    ensures s * lo <= s * d <= s * hi
  {
  }

  /** With no negative similarity the prediction moves the user's mean by a weighted
      average of the deviations, so it stays within the smallest and the largest
      deviation from the user's mean. */
  lemma PredictionWithinDeviations(userMean: real, ts: seq<Term>, useAbs: bool, lo: real, hi: real)
    requires forall k :: 0 <= k < |ts| ==> ts[k].similarity >= 0.0 && lo <= ts[k].deviation <= hi
    requires Denominator(ts, useAbs) != 0.0
    ensures userMean + lo <= Predict(userMean, ts, useAbs) <= userMean + hi
  {
    AbsAndRawAgree(userMean, ts);
    AbsDenominator(ts);
    WeightedDeviationBounds(ts, lo, hi);
    DivBounds(WeightedDeviations(ts), Denominator(ts, false), lo, hi);
  }

  /** A single related neighbour moves the user's mean by its whole deviation, against
      its direction when the similarity is negative and the denominator is absolute. */
  lemma SingleNeighbor(userMean: real, t: Term, useAbs: bool)
    requires t.similarity != 0.0
    ensures Predict(userMean, [t], useAbs) ==
      if useAbs && t.similarity < 0.0 then userMean - t.deviation else userMean + t.deviation
  {
    assert [t][..0] == [];
    var w := Weight(t, useAbs);
    assert Denominator([t], useAbs) == w;
    assert WeightedDeviations([t]) == t.similarity * t.deviation;
    if useAbs && t.similarity < 0.0 {
      assert w == -t.similarity;
      assert t.similarity * t.deviation == w * -t.deviation;
    } else {
      assert w == t.similarity;
      assert t.similarity * t.deviation == w * t.deviation;
    }
  }

  lemma {:induction false} DenominatorAppend(a: seq<Term>, b: seq<Term>, useAbs: bool)
    ensures Denominator(a + b, useAbs) == Denominator(a, useAbs) + Denominator(b, useAbs)
    ensures WeightedDeviations(a + b) == WeightedDeviations(a) + WeightedDeviations(b)
    decreases |b|
  {
    if b == [] {
      assert a + b == a;
    } else {
      assert (a + b)[..|a + b| - 1] == a + b[..|b| - 1];
      DenominatorAppend(a, b[..|b| - 1], useAbs);
    }
  }

  /** Both sums, and so the prediction, ignore the order of the neighbours. */
  lemma PermutationInvariant(userMean: real, ts: seq<Term>, us: seq<Term>, useAbs: bool)
    requires multiset(ts) == multiset(us)
    ensures Predict(userMean, ts, useAbs) == Predict(userMean, us, useAbs)
  {
    SumsPermutationInvariant(ts, us, useAbs);
  }

  lemma {:induction false} SumsPermutationInvariant(ts: seq<Term>, us: seq<Term>, useAbs: bool)
    requires multiset(ts) == multiset(us)
    ensures Denominator(ts, useAbs) == Denominator(us, useAbs)
    ensures WeightedDeviations(ts) == WeightedDeviations(us)
    decreases |ts|
  {
    if ts == [] {
      assert |us| == |multiset(us)| == 0;
    } else {
      var x := ts[|ts| - 1];
      var init := ts[..|ts| - 1];
      assert ts == init + [x];
      var j := LocateAndRemove(init, x, us);
      var rest := us[..j] + us[j + 1..];
      SumsPermutationInvariant(init, rest, useAbs);
      DenominatorAppend(init, [x], useAbs);
      DenominatorAppend(us[..j], [x], useAbs);
      DenominatorAppend(us[..j] + [x], us[j + 1..], useAbs);
      DenominatorAppend(us[..j], us[j + 1..], useAbs);
      assert [x][..0] == [];
      assert us == us[..j] + [x] + us[j + 1..];
    }
  }

  /** Neighbours who all rated the item at their own mean leave the user's mean. */
  lemma ZeroDeviationsGiveMean(userMean: real, ts: seq<Term>, useAbs: bool)
    requires forall k :: 0 <= k < |ts| ==> ts[k].deviation == 0.0
    ensures Predict(userMean, ts, useAbs) == userMean
  {
    NoDeviationNoWeight(ts);
  }

  lemma {:induction false} NoDeviationNoWeight(ts: seq<Term>)
    requires forall k :: 0 <= k < |ts| ==> ts[k].deviation == 0.0
    ensures WeightedDeviations(ts) == 0.0
  {
    if ts != [] {
      var init := ts[..|ts| - 1];
      assert forall k :: 0 <= k < |init| ==> init[k] == ts[k];
      NoDeviationNoWeight(init);
    }
  }
}
