/**
 * The two piecewise-constant score curves. Each scales its `percentage`
 * argument by 100 and tests it with strict `>` against fixed thresholds,
 * highest first; the first test that succeeds picks a base score in
 * {0, 2, 4, 6, 8, 10}, which is multiplied by the weight.
 *
 * Next to the if-chains stands an independent description of each curve as
 * data: the base score is determined by HOW MANY of the thresholds the scaled
 * percentage exceeds. Monotonicity, the band boundaries and the behaviour on
 * NaN and +Infinity are proved from that description.
 */
module WeightedScores {
  import opened JsNumber

  const StaleThresholds: seq<real> := [2.0, 4.0, 6.0, 8.0, 10.0]
  const ActiveThresholds: seq<real> := [0.0, 5.0, 10.0, 15.0, 20.0]

  /** The number of thresholds in `ts` that `p` is strictly greater than. */
  function CountExceeded(p: Ratio, ts: seq<real>): (c: nat)
    ensures c <= |ts|
  {
    if ts == [] then 0
    else (if Gt(p, ts[0]) then 1 else 0) + CountExceeded(p, ts[1..])
  }

  predicate StrictlyIncreasing(ts: seq<real>)
  {
    forall i, j :: 0 <= i < j < |ts| ==> ts[i] < ts[j]
  }

  /** `getWeightedStaleScore`: fewer stale items score higher. */
  function StaleScore(percentage: Ratio, weightage: real): (r: real)
    ensures 0.0 <= weightage ==> 0.0 <= r <= 10.0 * weightage
  {
    var perct := Times100(percentage);
    if Gt(perct, 10.0) then 0.0 * weightage
    else if Gt(perct, 8.0) then 2.0 * weightage
    else if Gt(perct, 6.0) then 4.0 * weightage
    else if Gt(perct, 4.0) then 6.0 * weightage
    else if Gt(perct, 2.0) then 8.0 * weightage
    else 10.0 * weightage
  }

  /** `getWeightedActiveContributorsScore`: more active contributors score higher. */
  function ActiveScore(percentage: Ratio, weightage: real): (r: real)
    ensures 0.0 <= weightage ==> 0.0 <= r <= 10.0 * weightage
  {
    var perct := Times100(percentage);
    if Gt(perct, 20.0) then 10.0 * weightage
    else if Gt(perct, 15.0) then 8.0 * weightage
    else if Gt(perct, 10.0) then 6.0 * weightage
    else if Gt(perct, 5.0) then 4.0 * weightage
    else if Gt(perct, 0.0) then 2.0 * weightage
    else 0.0 * weightage
  }

  /** The stale curve's base score: 10, less 2 for every threshold exceeded. */
  function StaleBase(percentage: Ratio): (b: int)
  {
    10 - 2 * CountExceeded(Times100(percentage), StaleThresholds)
  }

  /** The active curve's base score: 2 for every threshold exceeded. */
  function ActiveBase(percentage: Ratio): (b: int)
  {
    2 * CountExceeded(Times100(percentage), ActiveThresholds)
  }

  lemma CountExceededStale(p: Ratio)
    ensures CountExceeded(p, StaleThresholds) ==
      (if Gt(p, 2.0) then 1 else 0) + (if Gt(p, 4.0) then 1 else 0) + (if Gt(p, 6.0) then 1 else 0)
      + (if Gt(p, 8.0) then 1 else 0) + (if Gt(p, 10.0) then 1 else 0)
  {
    assert [10.0][1..] == [];
    assert CountExceeded(p, [10.0]) == (if Gt(p, 10.0) then 1 else 0) + CountExceeded(p, []);
    assert [8.0, 10.0][1..] == [10.0];
    assert CountExceeded(p, [8.0, 10.0]) == (if Gt(p, 8.0) then 1 else 0) + CountExceeded(p, [10.0]);
    assert [6.0, 8.0, 10.0][1..] == [8.0, 10.0];
    assert CountExceeded(p, [6.0, 8.0, 10.0]) == (if Gt(p, 6.0) then 1 else 0) + CountExceeded(p, [8.0, 10.0]);
    assert [4.0, 6.0, 8.0, 10.0][1..] == [6.0, 8.0, 10.0];
    assert CountExceeded(p, [4.0, 6.0, 8.0, 10.0]) == (if Gt(p, 4.0) then 1 else 0) + CountExceeded(p, [6.0, 8.0, 10.0]);
    assert [2.0, 4.0, 6.0, 8.0, 10.0][1..] == [4.0, 6.0, 8.0, 10.0];
    assert CountExceeded(p, [2.0, 4.0, 6.0, 8.0, 10.0]) == (if Gt(p, 2.0) then 1 else 0) + CountExceeded(p, [4.0, 6.0, 8.0, 10.0]);
    assert StaleThresholds == [2.0, 4.0, 6.0, 8.0, 10.0];
  }

  lemma CountExceededActive(p: Ratio)
    ensures CountExceeded(p, ActiveThresholds) ==
      (if Gt(p, 0.0) then 1 else 0) + (if Gt(p, 5.0) then 1 else 0) + (if Gt(p, 10.0) then 1 else 0)
      + (if Gt(p, 15.0) then 1 else 0) + (if Gt(p, 20.0) then 1 else 0)
  {
    assert [20.0][1..] == [];
    assert CountExceeded(p, [20.0]) == (if Gt(p, 20.0) then 1 else 0) + CountExceeded(p, []);
    assert [15.0, 20.0][1..] == [20.0];
    assert CountExceeded(p, [15.0, 20.0]) == (if Gt(p, 15.0) then 1 else 0) + CountExceeded(p, [20.0]);
    assert [10.0, 15.0, 20.0][1..] == [15.0, 20.0];
    assert CountExceeded(p, [10.0, 15.0, 20.0]) == (if Gt(p, 10.0) then 1 else 0) + CountExceeded(p, [15.0, 20.0]);
    assert [5.0, 10.0, 15.0, 20.0][1..] == [10.0, 15.0, 20.0];
    assert CountExceeded(p, [5.0, 10.0, 15.0, 20.0]) == (if Gt(p, 5.0) then 1 else 0) + CountExceeded(p, [10.0, 15.0, 20.0]);
    assert [0.0, 5.0, 10.0, 15.0, 20.0][1..] == [5.0, 10.0, 15.0, 20.0];
    assert CountExceeded(p, [0.0, 5.0, 10.0, 15.0, 20.0]) == (if Gt(p, 0.0) then 1 else 0) + CountExceeded(p, [5.0, 10.0, 15.0, 20.0]);
    assert ActiveThresholds == [0.0, 5.0, 10.0, 15.0, 20.0];
  }

  /** The if-chain of the stale curve is the threshold count, times the weight. */
  lemma StaleScoreIsBase(percentage: Ratio, weightage: real)
    ensures StaleScore(percentage, weightage) == StaleBase(percentage) as real * weightage
  {
    CountExceededStale(Times100(percentage));
  }

  /** The if-chain of the active curve is the threshold count, times the weight. */
  lemma ActiveScoreIsBase(percentage: Ratio, weightage: real)
    ensures ActiveScore(percentage, weightage) == ActiveBase(percentage) as real * weightage
  {
    CountExceededActive(Times100(percentage));
  }

  /** Both base scores are one of 0, 2, 4, 6, 8, 10. */
  lemma BasesAreEvenSteps(percentage: Ratio)
    ensures StaleBase(percentage) in {0, 2, 4, 6, 8, 10}
    ensures ActiveBase(percentage) in {0, 2, 4, 6, 8, 10}
  {
    var c := CountExceeded(Times100(percentage), StaleThresholds);
    var d := CountExceeded(Times100(percentage), ActiveThresholds);
    assert 0 <= c <= 5 && 0 <= d <= 5;
  }

  lemma {:induction false} CountExceededMonotone(a: Ratio, b: Ratio, ts: seq<real>)
    requires Leq(a, b)
    ensures CountExceeded(a, ts) <= CountExceeded(b, ts)
  {
    if ts != [] {
      if Gt(a, ts[0]) {
        GtMonotone(a, b, ts[0]);
      }
      CountExceededMonotone(a, b, ts[1..]);
    }
  }

  /** A larger stale ratio never gets a larger stale base score. */
  lemma StaleBaseNonIncreasing(a: Ratio, b: Ratio)
    requires Leq(a, b)
    ensures StaleBase(b) <= StaleBase(a)
  {
    Times100Monotone(a, b);
    CountExceededMonotone(Times100(a), Times100(b), StaleThresholds);
  }

  /** A larger active ratio never gets a smaller active base score. */
  lemma ActiveBaseNonDecreasing(a: Ratio, b: Ratio)
    requires Leq(a, b)
    ensures ActiveBase(a) <= ActiveBase(b)
  {
    Times100Monotone(a, b);
    CountExceededMonotone(Times100(a), Times100(b), ActiveThresholds);
  }

  /** The weighted stale score is non-increasing in the ratio for a non-negative weight. */
  lemma StaleScoreNonIncreasing(a: Ratio, b: Ratio, weightage: real)
    requires Leq(a, b) && 0.0 <= weightage
    ensures StaleScore(b, weightage) <= StaleScore(a, weightage)
  {
    StaleScoreIsBase(a, weightage);
    StaleScoreIsBase(b, weightage);
    StaleBaseNonIncreasing(a, b);
    ScaleMonotone(StaleBase(b) as real, StaleBase(a) as real, weightage);
  }

  /** The weighted active score is non-decreasing in the ratio for a non-negative weight. */
  lemma ActiveScoreNonDecreasing(a: Ratio, b: Ratio, weightage: real)
    requires Leq(a, b) && 0.0 <= weightage
    ensures ActiveScore(a, weightage) <= ActiveScore(b, weightage)
  {
    ActiveScoreIsBase(a, weightage);
    ActiveScoreIsBase(b, weightage);
    ActiveBaseNonDecreasing(a, b);
    ScaleMonotone(ActiveBase(a) as real, ActiveBase(b) as real, weightage);
  }

  lemma ScaleMonotone(x: real, y: real, w: real)
    requires x <= y && 0.0 <= w
    ensures x * w <= y * w
  {
    assert y * w - x * w == (y - x) * w;
  }

  /** The top and bottom bands of the stale curve, both directions. */
  lemma StaleExtremeBands(percentage: Ratio)
    ensures StaleBase(percentage) == 10 <==> !Gt(Times100(percentage), 2.0)
    ensures StaleBase(percentage) == 0 <==> Gt(Times100(percentage), 10.0)
  {
    var p := Times100(percentage);
    CountExceededStale(p);
    if !p.NaN? && !p.PosInf? {
      assert Gt(p, 10.0) ==> Gt(p, 8.0) && Gt(p, 6.0) && Gt(p, 4.0) && Gt(p, 2.0);
    }
  }

  /** The top and bottom bands of the active curve, both directions. */
  lemma ActiveExtremeBands(percentage: Ratio)
    ensures ActiveBase(percentage) == 0 <==> !Gt(Times100(percentage), 0.0)
    ensures ActiveBase(percentage) == 10 <==> Gt(Times100(percentage), 20.0)
  {
    var p := Times100(percentage);
    CountExceededActive(p);
  }

  lemma {:induction false} CountExceededAtThreshold(ts: seq<real>, i: nat)
    requires StrictlyIncreasing(ts) && i < |ts|
    ensures CountExceeded(Finite(ts[i]), ts) == i
  {
    if i == 0 {
      CountExceededBelow(Finite(ts[0]), ts);
    } else {
      assert StrictlyIncreasing(ts[1..]);
      assert ts[1..][i - 1] == ts[i];
      CountExceededAtThreshold(ts[1..], i - 1);
    }
  }

  lemma {:induction false} CountExceededBelow(p: Ratio, ts: seq<real>)
    requires p.Finite? && forall k :: 0 <= k < |ts| ==> p.r <= ts[k]
    ensures CountExceeded(p, ts) == 0
  {
    if ts != [] {
      CountExceededBelow(p, ts[1..]);
    }
  }

  /**
   * A percentage exactly on a threshold of the stale curve falls into the
   * higher-scoring band: on the i-th threshold the base is 10 - 2*i.
   */
  lemma StaleThresholdBelongsAbove(i: nat)
    requires i < |StaleThresholds|
    ensures StaleBase(Finite(StaleThresholds[i] / 100.0)) == 10 - 2 * i
  {
    assert Times100(Finite(StaleThresholds[i] / 100.0)) == Finite(StaleThresholds[i]);
    CountExceededAtThreshold(StaleThresholds, i);
  }

  /**
   * A percentage exactly on a threshold of the active curve falls into the
   * lower band: on the i-th threshold the base is 2*i.
   */
  lemma ActiveThresholdBelongsBelow(i: nat)
    requires i < |ActiveThresholds|
    ensures ActiveBase(Finite(ActiveThresholds[i] / 100.0)) == 2 * i
  {
    assert Times100(Finite(ActiveThresholds[i] / 100.0)) == Finite(ActiveThresholds[i]);
    CountExceededAtThreshold(ActiveThresholds, i);
  }

  /** 0/0 and n/0 (n > 0), which the program never guards against. */
  lemma NonFiniteRatios(weightage: real)
    ensures StaleScore(NaN, weightage) == 10.0 * weightage
    ensures StaleScore(PosInf, weightage) == 0.0
    ensures ActiveScore(NaN, weightage) == 0.0
    ensures ActiveScore(PosInf, weightage) == 10.0 * weightage
  {
  }

  /** One point inside every band of the stale curve, at weight 1. */
  lemma StaleBandExamples()
    ensures StaleScore(Finite(0.0), 1.0) == 10.0
    ensures StaleScore(Finite(0.03), 1.0) == 8.0
    ensures StaleScore(Finite(0.05), 1.0) == 6.0
    ensures StaleScore(Finite(0.07), 1.0) == 4.0
    ensures StaleScore(Finite(0.09), 1.0) == 2.0
    ensures StaleScore(Finite(0.11), 1.0) == 0.0
  {
    assert StaleScore(Finite(0.0), 1.0) == 10.0;
    assert Times100(Finite(0.03)) == Finite(3.0);
    assert StaleScore(Finite(0.03), 1.0) == 8.0;
    assert Times100(Finite(0.05)) == Finite(5.0);
    assert StaleScore(Finite(0.05), 1.0) == 6.0;
    assert Times100(Finite(0.07)) == Finite(7.0);
    assert StaleScore(Finite(0.07), 1.0) == 4.0;
    assert Times100(Finite(0.09)) == Finite(9.0);
    assert StaleScore(Finite(0.09), 1.0) == 2.0;
    assert Times100(Finite(0.11)) == Finite(11.0);
  }

  /** One point inside every band of the active curve, at weight 1. */
  lemma ActiveBandExamples()
    ensures ActiveScore(Finite(0.0), 1.0) == 0.0
    ensures ActiveScore(Finite(0.03), 1.0) == 2.0
    ensures ActiveScore(Finite(0.08), 1.0) == 4.0
    ensures ActiveScore(Finite(0.12), 1.0) == 6.0
    ensures ActiveScore(Finite(0.18), 1.0) == 8.0
    ensures ActiveScore(Finite(0.25), 1.0) == 10.0
  {
    assert ActiveScore(Finite(0.0), 1.0) == 0.0;
    assert Times100(Finite(0.03)) == Finite(3.0);
    assert ActiveScore(Finite(0.03), 1.0) == 2.0;
    assert Times100(Finite(0.08)) == Finite(8.0);
    assert ActiveScore(Finite(0.08), 1.0) == 4.0;
    assert Times100(Finite(0.12)) == Finite(12.0);
    assert ActiveScore(Finite(0.12), 1.0) == 6.0;
    assert Times100(Finite(0.18)) == Finite(18.0);
    assert ActiveScore(Finite(0.18), 1.0) == 8.0;
    assert Times100(Finite(0.25)) == Finite(25.0);
  }
}
