/** The overall score of a comparison: a weighted mean of the per-frame
    scores in which the frame at the middle of the sequence (the moment of
    impact) weighs 1 and the weight falls linearly to 0.5 at either end. */
module SequenceScore {
  import opened Basics

  /** The weight of frame i among n: `1 - (|i - n/2| / (n/2)) * 0.5`. */
  function Weight(i: nat, n: nat): real
    requires 0 < n
  {
    1.0 - (Abs(i as real - n as real / 2.0) / (n as real / 2.0)) * 0.5
  }

  /** The weights pushed for a list of n frame scores. */
  function Weights(n: nat): (weights: seq<real>)
    requires 0 < n
    ensures |weights| == n
  {
    seq(n, i requires 0 <= i < n => Weight(i, n))
  }

  /** One term `score * weights[index]` of the weighted sum. */
  function Product(score: real, weight: real): real { score * weight }

  /** `scores.reduce((sum, score, index) => sum + score * weights[index], 0)`. */
  function WeightedSum(scores: seq<real>, weights: seq<real>): real
    requires |scores| == |weights|
  {
    if |scores| == 0 then 0.0
    else WeightedSum(scores[..|scores| - 1], weights[..|weights| - 1]) + Product(scores[|scores| - 1], weights[|weights| - 1])
  }

  /** What `calculateOverallScore` returns: 0 for no frames, otherwise the
      weighted sum over the total weight (0 if that total were not
      positive). */
  function OverallScore(scores: seq<real>): real
  {
    if |scores| == 0 then 0.0
    else if Sum(Weights(|scores|)) > 0.0 then WeightedSum(scores, Weights(|scores|)) / Sum(Weights(|scores|))
    else 0.0
  }

  method CalculateOverallScore(frameScores: seq<real>) returns (score: real)
    ensures score == OverallScore(frameScores)
  {
    if |frameScores| == 0 {
      return 0.0;
    }
    var weights: seq<real> := [];
    var midPoint := |frameScores| as real / 2.0;
    var index := 0;
    while index < |frameScores|
      invariant 0 <= index <= |frameScores|
      invariant weights == Weights(|frameScores|)[..index]
    {
      var distFromMid := Abs(index as real - midPoint) / midPoint;
      var weight := 1.0 - distFromMid * 0.5;
      assert weight == Weight(index, |frameScores|);
      weights := weights + [weight];
      index := index + 1;
    }
    assert weights == Weights(|frameScores|);
    var weightedSum := 0.0;
    index := 0;
    while index < |frameScores|
      invariant 0 <= index <= |frameScores|
      invariant weightedSum == WeightedSum(frameScores[..index], weights[..index])
    {
      WeightedSumStep(frameScores, weights, index);
      weightedSum := weightedSum + frameScores[index] * weights[index];
      index := index + 1;
    }
    assert frameScores[..index] == frameScores && weights[..index] == weights;
    var totalWeight := ReduceSum(weights);
    score := if totalWeight > 0.0 then weightedSum / totalWeight else 0.0;
  }

  lemma WeightedSumStep(scores: seq<real>, weights: seq<real>, i: nat)
    requires |scores| == |weights| && i < |scores|
    ensures WeightedSum(scores[..i + 1], weights[..i + 1]) ==
      WeightedSum(scores[..i], weights[..i]) + scores[i] * weights[i]
  {
    assert scores[..i + 1][..i] == scores[..i];
    assert weights[..i + 1][..i] == weights[..i];
  }

  /** Every weight lies in [0.5, 1]. */
  lemma WeightBounds(i: nat, n: nat)
    requires i < n
    ensures 0.5 <= Weight(i, n) <= 1.0
  {
    var mid := n as real / 2.0;
    var d := Abs(i as real - mid);
    assert d <= mid;
    QuotientAtMostOne(d, mid);
  }

  lemma QuotientAtMostOne(a: real, b: real)
    requires 0.0 <= a <= b && 0.0 < b
    ensures 0.0 <= a / b <= 1.0
  {
  }

  /** The total weight of a non-empty list is positive. */
  lemma TotalWeightPositive(n: nat)
    requires 0 < n
    ensures Sum(Weights(n)) >= 0.5 * (n as real) > 0.0
    ensures forall i :: 0 <= i < n ==> 0.5 <= Weights(n)[i] <= 1.0
  {
    forall i | 0 <= i < n
      ensures 0.5 <= Weights(n)[i] <= 1.0
    {
      WeightBounds(i, n);
    }
    SumBounds(Weights(n), 0.5, 1.0);
  }

  /** Scores in [lo, hi] under non-negative weights put the weighted sum
      between lo and hi times the total weight. */
  lemma {:induction false} WeightedSumBounds(scores: seq<real>, weights: seq<real>, lo: real, hi: real)
    requires |scores| == |weights|
    requires forall i :: 0 <= i < |scores| ==> lo <= scores[i] <= hi
    requires forall i :: 0 <= i < |weights| ==> 0.0 <= weights[i]
    ensures Product(lo, Sum(weights)) <= WeightedSum(scores, weights) <= Product(hi, Sum(weights))
  {
    if |scores| > 0 {
      WeightedSumBounds(scores[..|scores| - 1], weights[..|weights| - 1], lo, hi);
      WeightedSumLast(scores, weights);
      BoundStep(lo, hi, WeightedSum(scores[..|scores| - 1], weights[..|weights| - 1]), Sum(weights[..|weights| - 1]),
                scores[|scores| - 1], weights[|weights| - 1], WeightedSum(scores, weights), Sum(weights));
    } else {
      assert WeightedSum(scores, weights) == 0.0 == Sum(weights);
    }
  }

  lemma WeightedSumLast(scores: seq<real>, weights: seq<real>)
    requires |scores| == |weights| > 0
    ensures WeightedSum(scores, weights) ==
      WeightedSum(scores[..|scores| - 1], weights[..|weights| - 1]) + Product(scores[|scores| - 1], weights[|weights| - 1])
    ensures Sum(weights) == Sum(weights[..|weights| - 1]) + weights[|weights| - 1]
  {
  }

  /** Adding one weighted term keeps the weighted sum between lo and hi
      times the total weight. */
  lemma BoundStep(lo: real, hi: real, s: real, total: real, x: real, w: real, s': real, total': real)
    requires Product(lo, total) <= s <= Product(hi, total)
    requires lo <= x <= hi && 0.0 <= w
    requires s' == s + Product(x, w) && total' == total + w
    ensures Product(lo, total') <= s' <= Product(hi, total')
  {
    assert lo * w <= x * w <= hi * w;
    assert lo * total' == lo * total + lo * w;
    assert hi * total' == hi * total + hi * w;
  }

  /** The overall score of a non-empty list lies between the least and the
      greatest frame score. */
  lemma OverallScoreBetween(scores: seq<real>, lo: real, hi: real)
    requires |scores| > 0
    requires forall i :: 0 <= i < |scores| ==> lo <= scores[i] <= hi
    ensures lo <= OverallScore(scores) <= hi
  {
    var weights := Weights(|scores|);
    TotalWeightPositive(|scores|);
    WeightedSumBounds(scores, weights, lo, hi);
    DivideBetween(WeightedSum(scores, weights), Sum(weights), lo, hi);
  }

  lemma DivideBetween(x: real, w: real, lo: real, hi: real)
    requires 0.0 < w && Product(lo, w) <= x <= Product(hi, w)
    ensures lo <= x / w <= hi
  {
    assert (x / w) * w == x;
  }

  /** Every score equal to c gives c; in particular a single score is
      returned as it is. */
  lemma OverallScoreConstant(scores: seq<real>, c: real)
    requires |scores| > 0
    requires forall i :: 0 <= i < |scores| ==> scores[i] == c
    ensures OverallScore(scores) == c
  {
    OverallScoreBetween(scores, c, c);
  }

  lemma OverallScoreSingle(x: real)
    ensures OverallScore([x]) == x
  {
    OverallScoreConstant([x], x);
  }

  /** Scores in [0, 100] give an overall score in [0, 100]; no frames give 0. */
  lemma OverallScoreRange(scores: seq<real>)
    requires forall i :: 0 <= i < |scores| ==> 0.0 <= scores[i] <= 100.0
    ensures 0.0 <= OverallScore(scores) <= 100.0
    ensures |scores| == 0 ==> OverallScore(scores) == 0.0
  {
    if |scores| > 0 {
      OverallScoreBetween(scores, 0.0, 100.0);
    }
  }
}
