/** `Consensus`: a group prediction that blends another group prediction with the
    group's agreement, `w_p·prediction + w_d·(1 − disagreement)`. Both collaborators are
    parameters. */
module Consensus {
  import opened Common
  import opened Ratings
  import opened RatingIndex
  import opened GroupAggregation
  import PairwiseDisagreement
  import Recommender

  /** `get_prediction(group, item)`. With a disagreement in [0, 1] and a non-negative
      disagreement weight, the result lies between the weighted prediction alone and the
      weighted prediction plus the full disagreement weight. */
  function GetPrediction(groupPredictor: GroupPredictor, disagreement: GroupPredictor,
                         weightPrediction: real, weightDisagreement: real,
                         group: Group, item: ItemId): (r: real)
    ensures disagreement(group, item) == 0.0 ==>
      r == weightPrediction * groupPredictor(group, item) + weightDisagreement
    ensures disagreement(group, item) == 1.0 ==>
      r == weightPrediction * groupPredictor(group, item)
    ensures 0.0 <= disagreement(group, item) <= 1.0 && weightDisagreement >= 0.0 ==>
      weightPrediction * groupPredictor(group, item) <= r <=
      weightPrediction * groupPredictor(group, item) + weightDisagreement
  {
    var prediction := groupPredictor(group, item);
    var groupDisagreement := disagreement(group, item);
    DisagreementTermBounds(weightDisagreement, groupDisagreement);
    (weightPrediction * prediction) + (weightDisagreement * (1.0 - groupDisagreement))
  }

  lemma DisagreementTermBounds(weight: real, d: real)
    ensures d == 0.0 ==> weight * (1.0 - d) == weight
    ensures d == 1.0 ==> weight * (1.0 - d) == 0.0
    ensures 0.0 <= d <= 1.0 && weight >= 0.0 ==> 0.0 <= weight * (1.0 - d) <= weight
  {
    assert weight * (1.0 - d) == weight - weight * d;
    if 0.0 <= d <= 1.0 && weight >= 0.0 {
      MulNonNegative(weight, 1.0 - d);
      MulNonNegative(weight, d);
    }
  }

  /** With a non-negative weight, a group that disagrees more gets a lower consensus: the
      result moves by `w_d` times the change of disagreement, in the opposite direction. */
  lemma MoreDisagreementLowersConsensus(groupPredictor: GroupPredictor, d1: GroupPredictor, d2: GroupPredictor,
                                        weightPrediction: real, weightDisagreement: real,
                                        group: Group, item: ItemId)
    requires weightDisagreement >= 0.0 && d1(group, item) <= d2(group, item)
    ensures GetPrediction(groupPredictor, d2, weightPrediction, weightDisagreement, group, item) <=
      GetPrediction(groupPredictor, d1, weightPrediction, weightDisagreement, group, item)
    ensures GetPrediction(groupPredictor, d1, weightPrediction, weightDisagreement, group, item) -
      GetPrediction(groupPredictor, d2, weightPrediction, weightDisagreement, group, item) ==
      weightDisagreement * (d2(group, item) - d1(group, item))
  {
    var x1, x2 := d1(group, item), d2(group, item);
    assert weightDisagreement * (1.0 - x1) - weightDisagreement * (1.0 - x2) == weightDisagreement * (x2 - x1);
    MulNonNegative(weightDisagreement, x2 - x1);
  }

  /** With a non-negative prediction weight, a higher group prediction gives a higher
      consensus. */
  lemma HigherPredictionRaisesConsensus(p1: GroupPredictor, p2: GroupPredictor, disagreement: GroupPredictor,
                                        weightPrediction: real, weightDisagreement: real,
                                        group: Group, item: ItemId)
    requires weightPrediction >= 0.0 && p1(group, item) <= p2(group, item)
    ensures GetPrediction(p1, disagreement, weightPrediction, weightDisagreement, group, item) <=
      GetPrediction(p2, disagreement, weightPrediction, weightDisagreement, group, item)
  {
    var x1, x2 := p1(group, item), p2(group, item);
    assert weightPrediction * x2 - weightPrediction * x1 == weightPrediction * (x2 - x1);
    MulNonNegative(weightPrediction, x2 - x1);
  }

  /** Over the average aggregation and the average pairwise disagreement, a group whose
      members all have relevance `x` gets `w_p·x + w_d`. */
  lemma UnanimousConsensus(ds: Dataset, predictor: Recommender.Predictor,
                           groupPredictor: GroupPredictor, disagreement: GroupPredictor,
                           weightPrediction: real, weightDisagreement: real,
                           group: Group, item: ItemId, x: real)
    requires Valid(ds) && Members(ds, group) && |group| >= 2
    requires groupPredictor(group, item) == AveragePrediction(ds, predictor, group, item)
    requires disagreement(group, item) == PairwiseDisagreement.Disagreement(Relevances(ds, predictor, group, item))
    requires forall k :: 0 <= k < |group| ==> Relevance(ds, predictor, group[k], item) == x
    ensures GetPrediction(groupPredictor, disagreement, weightPrediction, weightDisagreement, group, item) ==
      weightPrediction * x + weightDisagreement
  {
    PairwiseDisagreement.UnanimousGroup(ds, predictor, group, item, x);
    AgreedConsensus(groupPredictor, disagreement, weightPrediction, weightDisagreement, group, item, x);
  }

  lemma AgreedConsensus(groupPredictor: GroupPredictor, disagreement: GroupPredictor,
                        weightPrediction: real, weightDisagreement: real, group: Group, item: ItemId, x: real)
    requires groupPredictor(group, item) == x && disagreement(group, item) == 0.0
    ensures GetPrediction(groupPredictor, disagreement, weightPrediction, weightDisagreement, group, item) ==
      weightPrediction * x + weightDisagreement
  {
  }
}
