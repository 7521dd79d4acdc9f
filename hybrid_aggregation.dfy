/** `MultiIterSequentialHybridAggregation`: blends the average and the least-misery group
    predictions by how unevenly the members were satisfied by the last rounds. Each
    satisfaction query goes through the shared `UserSatisfaction`, whose kept lists the
    queries fill in the order they are made; the rounds logged for the group are a
    parameter. */
module HybridAggregation {
  import opened Common
  import opened Ratings
  import opened RatingIndex
  import opened GroupAggregation
  import opened Satisfaction
  import Recommender

  /** `(1 − d)·average + d·least_misery`. */
  function Blend(average: real, leastMisery: real, d: real): (r: real)
    ensures d == 0.0 ==> r == average
    ensures d == 1.0 ==> r == leastMisery
    ensures 0.0 <= d <= 1.0 ==> Between(r, average, leastMisery)
  {
    BlendBetween(average, leastMisery, d);
    (1.0 - d) * average + d * leastMisery
  }

  lemma BlendBetween(average: real, leastMisery: real, d: real)
    ensures 0.0 <= d <= 1.0 ==>
      Between((1.0 - d) * average + d * leastMisery, average, leastMisery)
  {
    if 0.0 <= d <= 1.0 {
      var r := (1.0 - d) * average + d * leastMisery;
      assert r == average + d * (leastMisery - average);
      if average <= leastMisery {
        MulNonNegative(d, leastMisery - average);
        MulNonNegative(1.0 - d, leastMisery - average);
      } else {
        MulNonNegative(d, average - leastMisery);
        MulNonNegative(1.0 - d, average - leastMisery);
      }
    }
  }

  /** `x` lies between `a` and `b`, in either order. */
  predicate Between(x: real, a: real, b: real)
  {
    (a <= x <= b) || (b <= x <= a)
  }

  /** The satisfactions of `members` with one round, in member order, starting from the
      kept lists `cache` and threading them from one query to the next; the first error
      ends the comprehension. */
  function RoundSatisfactions(ds: Dataset, prediction: Recommender.Predictor, recommender: PersonalRecommender,
                              cache: Cache, round: seq<ItemId>, members: Group): (r: (Result<seq<real>>, Cache))
    requires Valid(ds) && Members(ds, members)
    ensures r.0.Ok? ==> |r.0.value| == |members|
    decreases |members|
  {
    if members == [] then (Ok([]), cache)
    else
      var user := members[0];
      var s := SatisfactionWith(ds, prediction, recommender, cache, user, round);
      var next := CacheAfter(cache, recommender, user, |round|);
      if s.Err? then (Err(s.error), next)
      else
        var rest := RoundSatisfactions(ds, prediction, recommender, next, round, members[1..]);
        if rest.0.Err? then rest else (Ok([s.value] + rest.0.value), rest.1)
  }

  /** The satisfactions of every round, in round order, the kept lists threaded through. */
  function AllSatisfactions(ds: Dataset, prediction: Recommender.Predictor, recommender: PersonalRecommender,
                            cache: Cache, rounds: seq<seq<ItemId>>, group: Group)
    : (r: (Result<seq<seq<real>>>, Cache))
    requires Valid(ds) && Members(ds, group)
    ensures r.0.Ok? ==> |r.0.value| == |rounds| && forall k :: 0 <= k < |rounds| ==> |r.0.value[k]| == |group|
    decreases |rounds|
  {
    if rounds == [] then (Ok([]), cache)
    else
      var first := RoundSatisfactions(ds, prediction, recommender, cache, rounds[0], group);
      if first.0.Err? then (Err(first.0.error), first.1)
      else
        var rest := AllSatisfactions(ds, prediction, recommender, first.1, rounds[1..], group);
        if rest.0.Err? then rest else (Ok([first.0.value] + rest.0.value), rest.1)
  }

  /** Prepends the values already computed to the outcome of the rest of a comprehension. */
  function Prepend<T>(done: seq<T>, rest: (Result<seq<T>>, Cache)): (Result<seq<T>>, Cache)
  {
    if rest.0.Err? then (Err(rest.0.error), rest.1) else (Ok(done + rest.0.value), rest.1)
  }

  lemma PrependNothing<T>(r: (Result<seq<T>>, Cache))
    ensures Prepend([], r) == r
  {
    if r.0.Ok? {
      assert [] + r.0.value == r.0.value;
    }
  }

  /** `max(satisfactions) - min(satisfactions)` of one round, which is never negative. */
  function Spread(satisfactions: seq<real>): (r: real)
    requires satisfactions != []
    ensures r >= 0.0
    ensures forall a, b :: 0 <= a < |satisfactions| && 0 <= b < |satisfactions| ==>
      satisfactions[a] - satisfactions[b] <= r
  {
    assert MinOf(satisfactions) <= satisfactions[0] <= MaxOf(satisfactions);
    MaxOf(satisfactions) - MinOf(satisfactions)
  }

  /** The spread of every round, in round order. `max` of an empty round raises
      `ValueError`, the only error the comprehension can raise. */
  function Spreads(satisfactions: seq<seq<real>>): (r: Result<seq<real>>)
    ensures r.Ok? <==> forall k :: 0 <= k < |satisfactions| ==> satisfactions[k] != []
    ensures r.Err? ==> r.error == ValueError
    ensures r.Ok? ==> |r.value| == |satisfactions|
  {
    if exists k :: 0 <= k < |satisfactions| && satisfactions[k] == [] then Err(ValueError)
    else Ok(seq(|satisfactions|, k requires 0 <= k < |satisfactions| => Spread(satisfactions[k])))
  }

  /** `max(disagreements)`: the largest spread; no round at all raises `ValueError`. */
  function MaxSpread(satisfactions: seq<seq<real>>): (r: Result<real>)
    ensures r.Ok? <==> satisfactions != [] && forall k :: 0 <= k < |satisfactions| ==> satisfactions[k] != []
    ensures r.Err? ==> r.error == ValueError
  {
    var spreads := Spreads(satisfactions);
    if spreads.Err? then Err(spreads.error)
    else if spreads.value == [] then Err(ValueError)
    else Ok(MaxOf(spreads.value))
  }

  /** The largest spread is at least as large as every round's spread, and it is the
      spread of some round; so it is never negative. */
  lemma MaxSpreadFacts(satisfactions: seq<seq<real>>)
    requires MaxSpread(satisfactions).Ok?
    ensures var d := MaxSpread(satisfactions).value;
      d >= 0.0 &&
      (forall k :: 0 <= k < |satisfactions| ==> Spread(satisfactions[k]) <= d) &&
      exists k :: 0 <= k < |satisfactions| && Spread(satisfactions[k]) == d
  {
    var spreads := Spreads(satisfactions).value;
    var d := MaxOf(spreads);
    assert forall k :: 0 <= k < |satisfactions| ==> spreads[k] == Spread(satisfactions[k]);
    var k :| 0 <= k < |spreads| && spreads[k] == d;
  }

  /** When every satisfaction lies in [0, 1], so does the disagreement. */
  lemma SpreadOfUnitSatisfactions(satisfactions: seq<seq<real>>)
    requires MaxSpread(satisfactions).Ok?
    requires forall k, j :: 0 <= k < |satisfactions| && 0 <= j < |satisfactions[k]| ==>
      0.0 <= satisfactions[k][j] <= 1.0
    ensures 0.0 <= MaxSpread(satisfactions).value <= 1.0
  {
    MaxSpreadFacts(satisfactions);
    var k :| 0 <= k < |satisfactions| && Spread(satisfactions[k]) == MaxSpread(satisfactions).value;
    var s := satisfactions[k];
    var a :| 0 <= a < |s| && s[a] == MaxOf(s);
    var b :| 0 <= b < |s| && s[b] == MinOf(s);
    assert 0.0 <= s[a] <= 1.0 && 0.0 <= s[b] <= 1.0;
  }

  /** The outcome of `get_prediction(group, item)` and the kept lists afterwards. With
      fewer than `iterationsToConsider` rounds the disagreement is 0; otherwise the rounds
      `group_recommendations[-iterationsToConsider:]` are queried one after the other. */
  function HybridPrediction(ds: Dataset, prediction: Recommender.Predictor, recommender: PersonalRecommender,
                            cache: Cache, average: real, leastMisery: real, iterationsToConsider: int,
                            groupRecommendations: seq<seq<ItemId>>, group: Group): (Result<real>, Cache)
    requires Valid(ds) && Members(ds, group)
  {
    if |groupRecommendations| < iterationsToConsider then (Ok(Blend(average, leastMisery, 0.0)), cache)
    else
      var considered := PySliceFrom(groupRecommendations, -iterationsToConsider);
      var all := AllSatisfactions(ds, prediction, recommender, cache, considered, group);
      if all.0.Err? then (Err(all.0.error), all.1)
      else
        var d := MaxSpread(all.0.value);
        if d.Err? then (Err(d.error), all.1) else (Ok(Blend(average, leastMisery, d.value)), all.1)
  }

  /** In the initial rounds the result is the average prediction and no satisfaction is
      asked for. */
  lemma InitialRoundsGiveAverage(ds: Dataset, prediction: Recommender.Predictor, recommender: PersonalRecommender,
                                 cache: Cache, average: real, leastMisery: real, iterationsToConsider: int,
                                 groupRecommendations: seq<seq<ItemId>>, group: Group)
    requires Valid(ds) && Members(ds, group) && |groupRecommendations| < iterationsToConsider
    ensures HybridPrediction(ds, prediction, recommender, cache, average, leastMisery, iterationsToConsider,
      groupRecommendations, group) == (Ok(average), cache)
  {
  }

  /** Once enough rounds are logged, satisfactions in [0, 1] give a result between the
      average and the least-misery predictions, equal to the least-misery one when some
      round leaves one member fully satisfied and another not at all. */
  lemma LaterRoundsBlend(ds: Dataset, prediction: Recommender.Predictor, recommender: PersonalRecommender,
                         cache: Cache, average: real, leastMisery: real, iterationsToConsider: int,
                         groupRecommendations: seq<seq<ItemId>>, group: Group, satisfactions: seq<seq<real>>)
    requires Valid(ds) && Members(ds, group) && |groupRecommendations| >= iterationsToConsider
    requires AllSatisfactions(ds, prediction, recommender, cache,
      PySliceFrom(groupRecommendations, -iterationsToConsider), group).0 == Ok(satisfactions)
    requires satisfactions != [] && group != []
    requires forall k, j :: 0 <= k < |satisfactions| && 0 <= j < |satisfactions[k]| ==>
      0.0 <= satisfactions[k][j] <= 1.0
    ensures var r := HybridPrediction(ds, prediction, recommender, cache, average, leastMisery,
      iterationsToConsider, groupRecommendations, group).0;
      r.Ok? && Between(r.value, average, leastMisery)
    ensures (exists k :: 0 <= k < |satisfactions| && MaxOf(satisfactions[k]) == 1.0 && MinOf(satisfactions[k]) == 0.0) ==>
      HybridPrediction(ds, prediction, recommender, cache, average, leastMisery,
        iterationsToConsider, groupRecommendations, group).0 == Ok(leastMisery)
  {
    assert forall k :: 0 <= k < |satisfactions| ==> |satisfactions[k]| == |group|;
    assert forall k :: 0 <= k < |satisfactions| ==> satisfactions[k] != [];
    SpreadOfUnitSatisfactions(satisfactions);
    MaxSpreadFacts(satisfactions);
  }

  /** Once enough rounds are logged, rounds that satisfied every member alike show no
      disagreement, so the result is the average prediction. */
  lemma {:induction false} NoDisagreementGivesAverage(ds: Dataset, prediction: Recommender.Predictor,
                                 recommender: PersonalRecommender, cache: Cache, average: real,
                                 leastMisery: real, iterationsToConsider: int,
                                 groupRecommendations: seq<seq<ItemId>>, group: Group, satisfactions: seq<seq<real>>)
    requires Valid(ds) && Members(ds, group) && |groupRecommendations| >= iterationsToConsider
    requires AllSatisfactions(ds, prediction, recommender, cache,
      PySliceFrom(groupRecommendations, -iterationsToConsider), group).0 == Ok(satisfactions)
    requires satisfactions != [] && group != []
    requires forall k, j :: 0 <= k < |satisfactions| && 0 <= j < |satisfactions[k]| ==>
      satisfactions[k][j] == satisfactions[k][0]
    ensures HybridPrediction(ds, prediction, recommender, cache, average, leastMisery,
      iterationsToConsider, groupRecommendations, group).0 == Ok(average)
  {
    assert forall k :: 0 <= k < |satisfactions| ==> |satisfactions[k]| == |group|;
    MaxSpreadFacts(satisfactions);
    var k :| 0 <= k < |satisfactions| && Spread(satisfactions[k]) == MaxSpread(satisfactions).value;
    var s := satisfactions[k];
    var a :| 0 <= a < |s| && s[a] == MaxOf(s);
    var b :| 0 <= b < |s| && s[b] == MinOf(s);
    assert s[a] == s[0] == s[b];
  }

  /** `iterations_to_consider = 0` slices `[-0:]`, which is every round. */
  lemma ZeroIterationsMeansAllRounds(groupRecommendations: seq<seq<ItemId>>)
    ensures PySliceFrom(groupRecommendations, -0) == groupRecommendations
  {
  }

  /** The spread examples: the largest spread of `[0.5, 1], [0, 0.8], [0.5, 0.4]` is 0.8,
      which blends 4.2 and 1.2 as 0.2·4.2 + 0.8·1.2. */
  lemma ExampleSpreadOfThreeRounds()
    ensures MaxSpread([[0.5, 1.0], [0.0, 0.8], [0.5, 0.4]]) == Ok(0.8)
    ensures Blend(4.2, 1.2, 0.8) == 4.2 * 0.2 + 1.2 * 0.8
  {
    var s := [[0.5, 1.0], [0.0, 0.8], [0.5, 0.4]];
    SpreadOfPair(0.5, 1.0);
    SpreadOfPair(0.0, 0.8);
    SpreadOfPair(0.5, 0.4);
    assert s[0] == [0.5, 1.0] && s[1] == [0.0, 0.8] && s[2] == [0.5, 0.4];
    MaxSpreadIs(s, [0.5, 0.8, 0.1], 1);
  }

  /** The largest spread is the spread of round `top` when no round spreads more. */
  lemma MaxSpreadIs(satisfactions: seq<seq<real>>, spreads: seq<real>, top: nat)
    requires |spreads| == |satisfactions| && top < |satisfactions|
    requires forall k :: 0 <= k < |satisfactions| ==>
      satisfactions[k] != [] && Spread(satisfactions[k]) == spreads[k]
    requires forall k :: 0 <= k < |spreads| ==> spreads[k] <= spreads[top]
    ensures MaxSpread(satisfactions) == Ok(spreads[top])
  {
    assert Spreads(satisfactions).value == spreads;
    LargestIs(spreads, top);
  }

  lemma LargestIs(s: seq<real>, top: nat)
    requires top < |s| && forall k :: 0 <= k < |s| ==> s[k] <= s[top]
    ensures MaxOf(s) == s[top]
  {
    var k :| 0 <= k < |s| && s[k] == MaxOf(s);
  }

  lemma SpreadOfPair(a: real, b: real)
    ensures Spread([a, b]) == Abs(a - b)
  {
  }

  /** Four members over four rounds, the third round spreading 0.98 − 0.24 = 0.74: the
      result is 0.26·4.2 + 0.74·1.2. */
  lemma ExampleSpreadOfFourRounds()
    ensures MaxSpread([[1.0, 0.95, 0.89, 0.4], [0.86, 0.90, 0.78, 0.5],
                       [0.90, 0.98, 0.86, 0.24], [0.60, 0.70, 0.80, 0.9]]) == Ok(0.74)
    ensures Blend(4.2, 1.2, 0.74) == 4.2 * 0.26 + 1.2 * 0.74
  {
    var r0, r1, r2, r3 := [1.0, 0.95, 0.89, 0.4], [0.86, 0.90, 0.78, 0.5],
                          [0.90, 0.98, 0.86, 0.24], [0.60, 0.70, 0.80, 0.9];
    SpreadOfFour(1.0, 0.95, 0.89, 0.4, 1.0, 0.4);
    SpreadOfFour(0.86, 0.90, 0.78, 0.5, 0.90, 0.5);
    SpreadOfFour(0.90, 0.98, 0.86, 0.24, 0.98, 0.24);
    SpreadOfFour(0.60, 0.70, 0.80, 0.9, 0.9, 0.6);
    MaxSpreadOfFour(r0, r1, r2, r3);
  }

  /** Over four rounds whose third spreads the most, the largest spread is the third's. */
  lemma MaxSpreadOfFour(r0: seq<real>, r1: seq<real>, r2: seq<real>, r3: seq<real>)
    requires r0 != [] && r1 != [] && r2 != [] && r3 != []
    requires Spread(r0) <= Spread(r2) && Spread(r1) <= Spread(r2) && Spread(r3) <= Spread(r2)
    ensures MaxSpread([r0, r1, r2, r3]) == Ok(Spread(r2))
  {
    var s := [r0, r1, r2, r3];
    MaxSpreadIs(s, [Spread(r0), Spread(r1), Spread(r2), Spread(r3)], 2);
  }

  lemma SpreadOfFour(a: real, b: real, c: real, d: real, hi: real, lo: real)
    requires hi == a || hi == b || hi == c || hi == d
    requires lo == a || lo == b || lo == c || lo == d
    requires lo <= a <= hi && lo <= b <= hi && lo <= c <= hi && lo <= d <= hi
    ensures Spread([a, b, c, d]) == hi - lo
  {
    var s := [a, b, c, d];
    assert MaxOf(s) == hi by {
      var k :| 0 <= k < 4 && s[k] == MaxOf(s);
      assert hi == s[0] || hi == s[1] || hi == s[2] || hi == s[3];
    }
    assert MinOf(s) == lo by {
      var k :| 0 <= k < 4 && s[k] == MinOf(s);
      assert lo == s[0] || lo == s[1] || lo == s[2] || lo == s[3];
    }
  }

  /** `get_prediction(group, item)`: the average and least-misery predictions, then, once
      enough rounds are logged, the satisfactions for the last rounds, round by round and
      member by member, and their largest spread as the blending weight. */
  method GetPrediction(userSatisfaction: UserSatisfaction, predictorAverage: GroupPredictor,
                       predictorLeastMisery: GroupPredictor, iterationsToConsider: int,
                       groupRecommendations: seq<seq<ItemId>>, group: Group, item: ItemId)
    returns (r: Result<real>)
    requires Valid(userSatisfaction.dataset) && Members(userSatisfaction.dataset, group)
    modifies userSatisfaction
    ensures (r, userSatisfaction.userRecommendations) ==
      HybridPrediction(userSatisfaction.dataset, userSatisfaction.prediction, userSatisfaction.recommender,
        old(userSatisfaction.userRecommendations), predictorAverage(group, item),
        predictorLeastMisery(group, item), iterationsToConsider, groupRecommendations, group)
  {
    var averagePrediction := predictorAverage(group, item);
    var leastMiseryPrediction := predictorLeastMisery(group, item);
    var disagreement: real;
    if |groupRecommendations| < iterationsToConsider {
      disagreement := 0.0;
    } else {
      var considered := PySliceFrom(groupRecommendations, -iterationsToConsider);
      var userSatisfactions := SatisfactionsOfRounds(userSatisfaction, considered, group);
      if userSatisfactions.Err? {
        return Err(userSatisfactions.error);
      }
      var d := MaxSpread(userSatisfactions.value);
      if d.Err? {
        return Err(d.error);
      }
      disagreement := d.value;
    }
    r := Ok(Blend(averagePrediction, leastMiseryPrediction, disagreement));
  }

  /** The loop over the considered rounds. */
  method SatisfactionsOfRounds(userSatisfaction: UserSatisfaction, rounds: seq<seq<ItemId>>, group: Group)
    returns (r: Result<seq<seq<real>>>)
    requires Valid(userSatisfaction.dataset) && Members(userSatisfaction.dataset, group)
    modifies userSatisfaction
    ensures (r, userSatisfaction.userRecommendations) ==
      AllSatisfactions(userSatisfaction.dataset, userSatisfaction.prediction, userSatisfaction.recommender,
        old(userSatisfaction.userRecommendations), rounds, group)
  {
    var ds, prediction, recommender := userSatisfaction.dataset, userSatisfaction.prediction, userSatisfaction.recommender;
    ghost var goal := AllSatisfactions(ds, prediction, recommender, userSatisfaction.userRecommendations, rounds, group);
    var userSatisfactions: seq<seq<real>> := [];
    assert rounds[0..] == rounds;
    PrependNothing(goal);
    for j := 0 to |rounds|
      invariant Prepend(userSatisfactions,
        AllSatisfactions(ds, prediction, recommender, userSatisfaction.userRecommendations, rounds[j..], group)) == goal
    {
      ghost var before := userSatisfaction.userRecommendations;
      AllStep(ds, prediction, recommender, before, rounds[j..], group);
      assert rounds[j..][0] == rounds[j] && rounds[j..][1..] == rounds[j + 1..];
      var iteration := SatisfactionsOfRound(userSatisfaction, rounds[j], group);
      if iteration.Err? {
        PrependError(userSatisfactions, iteration.error, userSatisfaction.userRecommendations);
        return Err(iteration.error);
      }
      PrependStep(userSatisfactions, iteration.value,
        AllSatisfactions(ds, prediction, recommender, userSatisfaction.userRecommendations, rounds[j + 1..], group));
      userSatisfactions := userSatisfactions + [iteration.value];
    }
    assert rounds[|rounds|..] == [];
    PrependDone(userSatisfactions, userSatisfaction.userRecommendations);
    r := Ok(userSatisfactions);
  }

  /** `[get_satisfaction(user, group_recommendation) for user in group]`. */
  method SatisfactionsOfRound(userSatisfaction: UserSatisfaction, round: seq<ItemId>, group: Group)
    returns (r: Result<seq<real>>)
    requires Valid(userSatisfaction.dataset) && Members(userSatisfaction.dataset, group)
    modifies userSatisfaction
    ensures (r, userSatisfaction.userRecommendations) ==
      RoundSatisfactions(userSatisfaction.dataset, userSatisfaction.prediction, userSatisfaction.recommender,
        old(userSatisfaction.userRecommendations), round, group)
  {
    var ds, prediction, recommender := userSatisfaction.dataset, userSatisfaction.prediction, userSatisfaction.recommender;
    ghost var goal := RoundSatisfactions(ds, prediction, recommender, userSatisfaction.userRecommendations, round, group);
    var satisfactions: seq<real> := [];
    assert group[0..] == group;
    PrependNothing(goal);
    for j := 0 to |group|
      invariant Members(ds, group[j..])
      invariant Prepend(satisfactions,
        RoundSatisfactions(ds, prediction, recommender, userSatisfaction.userRecommendations, round, group[j..])) == goal
    {
      ghost var before := userSatisfaction.userRecommendations;
      RoundStep(ds, prediction, recommender, before, round, group[j..]);
      assert group[j..][0] == group[j] && group[j..][1..] == group[j + 1..];
      var s := userSatisfaction.GetSatisfaction(group[j], round);
      assert s == SatisfactionWith(ds, prediction, recommender, before, group[j], round);
      assert userSatisfaction.userRecommendations == CacheAfter(before, recommender, group[j], |round|);
      if s.Err? {
        assert RoundSatisfactions(ds, prediction, recommender, before, round, group[j..]) ==
          (Err(s.error), userSatisfaction.userRecommendations);
        PrependError(satisfactions, s.error, userSatisfaction.userRecommendations);
        return Err(s.error);
      }
      PrependStep(satisfactions, s.value,
        RoundSatisfactions(ds, prediction, recommender, userSatisfaction.userRecommendations, round, group[j + 1..]));
      satisfactions := satisfactions + [s.value];
    }
    assert group[|group|..] == [];
    PrependDone(satisfactions, userSatisfaction.userRecommendations);
    r := Ok(satisfactions);
  }

  /** One step of the comprehension over the members. */
  lemma RoundStep(ds: Dataset, prediction: Recommender.Predictor, recommender: PersonalRecommender,
                  cache: Cache, round: seq<ItemId>, members: Group)
    requires Valid(ds) && Members(ds, members) && members != []
    ensures Members(ds, members[1..])
    ensures var s := SatisfactionWith(ds, prediction, recommender, cache, members[0], round);
      var next := CacheAfter(cache, recommender, members[0], |round|);
      RoundSatisfactions(ds, prediction, recommender, cache, round, members) ==
        if s.Err? then (Err(s.error), next)
        else Prepend([s.value], RoundSatisfactions(ds, prediction, recommender, next, round, members[1..]))
  {
    assert forall k :: 0 <= k < |members| - 1 ==> members[1..][k] == members[k + 1];
  }

  /** One step of the loop over the rounds. */
  lemma AllStep(ds: Dataset, prediction: Recommender.Predictor, recommender: PersonalRecommender,
                cache: Cache, rounds: seq<seq<ItemId>>, group: Group)
    requires Valid(ds) && Members(ds, group) && rounds != []
    ensures var first := RoundSatisfactions(ds, prediction, recommender, cache, rounds[0], group);
      AllSatisfactions(ds, prediction, recommender, cache, rounds, group) ==
        if first.0.Err? then (Err(first.0.error), first.1)
        else Prepend([first.0.value], AllSatisfactions(ds, prediction, recommender, first.1, rounds[1..], group))
  {
  }

  lemma PrependStep<T>(done: seq<T>, x: T, rest: (Result<seq<T>>, Cache))
    ensures Prepend(done, Prepend([x], rest)) == Prepend(done + [x], rest)
  {
    if rest.0.Ok? {
      assert done + ([x] + rest.0.value) == (done + [x]) + rest.0.value;
    }
  }

  lemma PrependDone<T>(done: seq<T>, cache: Cache)
    ensures Prepend(done, (Ok([]), cache)) == (Ok(done), cache)
  {
    assert done + [] == done;
  }

  lemma PrependError<T>(done: seq<T>, e: PyError, cache: Cache)
    ensures Prepend(done, (Err(e), cache)) == (Err(e), cache)
  {
  }
}
