/** The three detail metrics of a comparison: position accuracy (the mean
    frame score against the smash list, whatever the shot), timing (the
    ratio of the two recording lengths) and stability (how little the user's
    keypoints accelerate between consecutive frames). */
module DetailMetrics {
  import opened Basics
  import opened PoseTypes
  import opened FrameComparison
  import opened ImportantKeypoints

  datatype Details = Details(positionAccuracy: real, timing: real, stability: real)

  // ---------------------------------------------------------------------
  // Position accuracy

  /** The smash-list score of each of the first min(|reference|, |user|)
      frame pairs. */
  function FrameAccuracies(dist: Distance, reference: seq<Frame>, user: seq<Frame>): (scores: seq<real>)
    ensures |scores| == Min(|reference|, |user|)
  {
    seq(Min(|reference|, |user|), i requires 0 <= i < Min(|reference|, |user|) =>
      Compared(dist, reference[i], user[i], SmashKeypoints).overallScore)
  }

  /** What `calculatePositionAccuracy` returns. */
  function PositionAccuracy(dist: Distance, reference: seq<Frame>, user: seq<Frame>): real
  {
    Mean(FrameAccuracies(dist, reference, user))
  }

  method CalculatePositionAccuracy(dist: Distance, reference: seq<Frame>, user: seq<Frame>)
    returns (accuracy: real)
    ensures accuracy == PositionAccuracy(dist, reference, user)
  {
    var totalAccuracy := 0.0;
    var minLength := Min(|reference|, |user|);
    ghost var accuracies := FrameAccuracies(dist, reference, user);
    var i := 0;
    while i < minLength
      invariant 0 <= i <= minLength
      invariant totalAccuracy == Sum(accuracies[..i])
    {
      var frameScore := CompareFrames(dist, reference[i], user[i], SmashKeypoints);
      assert frameScore.overallScore == accuracies[i];
      SumStep(accuracies, i);
      totalAccuracy := totalAccuracy + frameScore.overallScore;
      i := i + 1;
    }
    assert accuracies[..minLength] == accuracies;
    accuracy := if minLength > 0 then Average(totalAccuracy, minLength) else 0.0;
  }

  /** Position accuracy lies in [0, 100], and is 0 when either recording is
      empty. */
  lemma PositionAccuracyBounds(dist: Distance, reference: seq<Frame>, user: seq<Frame>)
    requires IsDistance(dist)
    ensures 0.0 <= PositionAccuracy(dist, reference, user) <= 100.0
    ensures |reference| == 0 || |user| == 0 ==> PositionAccuracy(dist, reference, user) == 0.0
  {
    var scores := FrameAccuracies(dist, reference, user);
    forall i | 0 <= i < |scores|
      ensures 0.0 <= scores[i] <= 100.0
    {
      ComparedBounds(dist, reference[i], user[i], SmashKeypoints);
    }
    if |scores| > 0 {
      MeanBounds(scores, 0.0, 100.0);
    }
  }

  /** A recording compared with itself has position accuracy 100 when every
      frame has a confident keypoint among the first ten positions. */
  lemma PositionAccuracyAgainstItself(dist: Distance, poses: seq<Frame>)
    requires IsDistance(dist) && |poses| > 0
    requires forall i :: 0 <= i < |poses| ==>
      exists k :: 0 <= k < |SmashKeypoints| && Qualifies(poses[i], poses[i], k)
    ensures PositionAccuracy(dist, poses, poses) == 100.0
  {
    var scores := FrameAccuracies(dist, poses, poses);
    forall i | 0 <= i < |scores|
      ensures scores[i] == 100.0
    {
      ComparedAgainstItself(dist, poses[i], SmashKeypoints);
    }
    MeanBounds(scores, 100.0, 100.0);
  }

  // ---------------------------------------------------------------------
  // Timing

  /** `calculateTiming`: `min(n, m) / max(n, m) * 100`. With both lengths 0
      `calculateTiming` divides 0 by 0; that case is excluded. */
  function CalculateTiming(reference: seq<Frame>, user: seq<Frame>): (timing: real)
    requires |reference| > 0 || |user| > 0
  {
    Min(|reference|, |user|) as real / Max(|reference|, |user|) as real * 100.0
  }

  /** Timing lies in (0, 100] for two non-empty recordings, in [0, 100]
      otherwise, and is 100 exactly when the lengths agree. */
  lemma TimingBounds(reference: seq<Frame>, user: seq<Frame>)
    requires |reference| > 0 || |user| > 0
    ensures 0.0 <= CalculateTiming(reference, user) <= 100.0
    ensures |reference| > 0 && |user| > 0 ==> 0.0 < CalculateTiming(reference, user)
    ensures CalculateTiming(reference, user) == 100.0 <==> |reference| == |user|
  {
    RatioBounds(Min(|reference|, |user|) as real, Max(|reference|, |user|) as real);
  }

  lemma RatioBounds(a: real, b: real)
    requires 0.0 <= a <= b && 0.0 < b
    ensures 0.0 <= a / b * 100.0 <= 100.0
    ensures 0.0 < a ==> 0.0 < a / b * 100.0
    ensures a / b * 100.0 == 100.0 <==> a == b
  {
    assert (a / b) * b == a;
  }

  /** Swapping the recordings does not change the timing score. */
  lemma TimingSymmetric(reference: seq<Frame>, user: seq<Frame>)
    requires |reference| > 0 || |user| > 0
    ensures CalculateTiming(reference, user) == CalculateTiming(user, reference)
  {
  }

  // ---------------------------------------------------------------------
  // Stability

  /** Index k is used for the variation of three consecutive frames when it
      lies inside all three and all three keypoints are confident enough. */
  predicate Steady(prev: Frame, curr: Frame, next: Frame, k: nat)
  {
    && k < |prev.keypoints| && k < |curr.keypoints| && k < |next.keypoints|
    && prev.keypoints[k].confidence > ConfidenceThreshold
    && curr.keypoints[k].confidence > ConfidenceThreshold
    && next.keypoints[k].confidence > ConfidenceThreshold
  }

  /** The change in speed of keypoint k across the three frames. */
  function Acceleration(dist: Distance, prev: Frame, curr: Frame, next: Frame, k: nat): real
    requires k < |prev.keypoints| && k < |curr.keypoints| && k < |next.keypoints|
  {
    Abs(dist(curr.keypoints[k], next.keypoints[k]) - dist(prev.keypoints[k], curr.keypoints[k]))
  }

  function MinLength(prev: Frame, curr: Frame, next: Frame): nat
  {
    Min(Min(|prev.keypoints|, |curr.keypoints|), |next.keypoints|)
  }

  /** The accelerations of the steady indices among the first n. */
  function Accelerations(dist: Distance, prev: Frame, curr: Frame, next: Frame, n: nat): seq<real>
    requires n <= MinLength(prev, curr, next)
  {
    if n == 0 then []
    else Accelerations(dist, prev, curr, next, n - 1) + Contribution(dist, prev, curr, next, n - 1)
  }

  /** The acceleration index k contributes: one when steady, none otherwise. */
  function Contribution(dist: Distance, prev: Frame, curr: Frame, next: Frame, k: nat): seq<real>
    requires k < MinLength(prev, curr, next)
  {
    if Steady(prev, curr, next, k) then [Acceleration(dist, prev, curr, next, k)] else []
  }

  /** What `calculateFrameVariation` returns: the mean acceleration over the
      steady indices, 0 when there is none. */
  function FrameVariation(dist: Distance, prev: Frame, curr: Frame, next: Frame): real
  {
    Mean(Accelerations(dist, prev, curr, next, MinLength(prev, curr, next)))
  }

  /** The running total of `calculateFrameVariation` after the first n
      indices. */
  function VariationTotalAfter(dist: Distance, prev: Frame, curr: Frame, next: Frame, n: nat): real
    requires n <= MinLength(prev, curr, next)
  {
    if n == 0 then 0.0
    else if Steady(prev, curr, next, n - 1) then
      VariationTotalAfter(dist, prev, curr, next, n - 1) + Acceleration(dist, prev, curr, next, n - 1)
    else VariationTotalAfter(dist, prev, curr, next, n - 1)
  }

  /** The running count of `calculateFrameVariation` after the first n
      indices. */
  function VariationCountAfter(prev: Frame, curr: Frame, next: Frame, n: nat): nat
    requires n <= MinLength(prev, curr, next)
  {
    if n == 0 then 0
    else if Steady(prev, curr, next, n - 1) then VariationCountAfter(prev, curr, next, n - 1) + 1
    else VariationCountAfter(prev, curr, next, n - 1)
  }

  method CalculateFrameVariation(dist: Distance, prev: Frame, curr: Frame, next: Frame)
    returns (variation: real)
    ensures variation == FrameVariation(dist, prev, curr, next)
  {
    var totalVariation := 0.0;
    var validKeypoints := 0;
    var i := 0;
    var m := Min(Min(|prev.keypoints|, |curr.keypoints|), |next.keypoints|);
    while i < m
      invariant 0 <= i <= m
      invariant totalVariation == VariationTotalAfter(dist, prev, curr, next, i)
      invariant validKeypoints == VariationCountAfter(prev, curr, next, i)
    {
      var prevKp := prev.keypoints[i];
      var currKp := curr.keypoints[i];
      var nextKp := next.keypoints[i];
      if prevKp.confidence > ConfidenceThreshold && currKp.confidence > ConfidenceThreshold
         && nextKp.confidence > ConfidenceThreshold {
        var velocity1 := dist(prevKp, currKp);
        var velocity2 := dist(currKp, nextKp);
        var acceleration := Abs(velocity2 - velocity1);
        totalVariation := totalVariation + acceleration;
        validKeypoints := validKeypoints + 1;
      }
      i := i + 1;
    }
    TotalIsSumOfAccelerations(dist, prev, curr, next, m);
    CountIsNumberOfAccelerations(dist, prev, curr, next, m);
    variation := if validKeypoints > 0 then Average(totalVariation, validKeypoints) else 0.0;
  }

  /** The running total is the sum of the accelerations collected so far. */
  lemma {:induction false} TotalIsSumOfAccelerations(dist: Distance, prev: Frame, curr: Frame, next: Frame, n: nat)
    requires n <= MinLength(prev, curr, next)
    ensures VariationTotalAfter(dist, prev, curr, next, n) == Sum(Accelerations(dist, prev, curr, next, n))
  {
    if n > 0 {
      TotalIsSumOfAccelerations(dist, prev, curr, next, n - 1);
      if Steady(prev, curr, next, n - 1) {
        AccelerationsSteady(dist, prev, curr, next, n);
        SumAppend(Accelerations(dist, prev, curr, next, n - 1), Acceleration(dist, prev, curr, next, n - 1));
      } else {
        AccelerationsUnsteady(dist, prev, curr, next, n);
      }
    }
  }

  /** A steady index appends its acceleration. */
  lemma AccelerationsSteady(dist: Distance, prev: Frame, curr: Frame, next: Frame, n: nat)
    requires 0 < n <= MinLength(prev, curr, next) && Steady(prev, curr, next, n - 1)
    ensures Accelerations(dist, prev, curr, next, n) ==
      Accelerations(dist, prev, curr, next, n - 1) + [Acceleration(dist, prev, curr, next, n - 1)]
  {
  }

  /** An index that is not steady adds nothing. */
  lemma AccelerationsUnsteady(dist: Distance, prev: Frame, curr: Frame, next: Frame, n: nat)
    requires 0 < n <= MinLength(prev, curr, next) && !Steady(prev, curr, next, n - 1)
    ensures Accelerations(dist, prev, curr, next, n) == Accelerations(dist, prev, curr, next, n - 1)
  {
  }

  /** The running count is the number of accelerations collected so far. */
  lemma {:induction false} CountIsNumberOfAccelerations(dist: Distance, prev: Frame, curr: Frame, next: Frame, n: nat)
    requires n <= MinLength(prev, curr, next)
    ensures VariationCountAfter(prev, curr, next, n) == |Accelerations(dist, prev, curr, next, n)|
  {
    if n > 0 {
      CountIsNumberOfAccelerations(dist, prev, curr, next, n - 1);
    }
  }

  /** Accelerations are never negative. */
  lemma {:induction false} AccelerationsNonNegative(dist: Distance, prev: Frame, curr: Frame, next: Frame, n: nat)
    requires n <= MinLength(prev, curr, next)
    ensures forall i :: 0 <= i < |Accelerations(dist, prev, curr, next, n)| ==>
      0.0 <= Accelerations(dist, prev, curr, next, n)[i]
  {
    if n > 0 {
      AccelerationsNonNegative(dist, prev, curr, next, n - 1);
    }
  }

  /** An acceleration is counted exactly when some index is steady. */
  lemma {:induction false} AccelerationsNonEmpty(dist: Distance, prev: Frame, curr: Frame, next: Frame, n: nat)
    requires n <= MinLength(prev, curr, next)
    ensures |Accelerations(dist, prev, curr, next, n)| > 0 <==>
      exists k :: 0 <= k < n && Steady(prev, curr, next, k)
  {
    if n > 0 {
      AccelerationsNonEmpty(dist, prev, curr, next, n - 1);
      if Steady(prev, curr, next, n - 1) {
        AccelerationsSteady(dist, prev, curr, next, n);
      } else {
        AccelerationsUnsteady(dist, prev, curr, next, n);
      }
    }
  }

  lemma FrameVariationProperties(dist: Distance, prev: Frame, curr: Frame, next: Frame)
    ensures 0.0 <= FrameVariation(dist, prev, curr, next)
    ensures (forall k :: 0 <= k < MinLength(prev, curr, next) ==> !Steady(prev, curr, next, k)) ==>
      FrameVariation(dist, prev, curr, next) == 0.0
  {
    var m := MinLength(prev, curr, next);
    AccelerationsNonNegative(dist, prev, curr, next, m);
    AccelerationsNonEmpty(dist, prev, curr, next, m);
    MeanNonNegative(Accelerations(dist, prev, curr, next, m));
  }

  /** A keypoint standing still across three identical frames has no
      acceleration. */
  lemma {:induction false} AccelerationsOfStillFrame(dist: Distance, frame: Frame, n: nat)
    requires n <= MinLength(frame, frame, frame)
    ensures forall i :: 0 <= i < |Accelerations(dist, frame, frame, frame, n)| ==>
      Accelerations(dist, frame, frame, frame, n)[i] == 0.0
  {
    if n > 0 {
      AccelerationsOfStillFrame(dist, frame, n - 1);
    }
  }

  /** The variation of each window of three consecutive user frames. */
  function Variations(dist: Distance, user: seq<Frame>): (variations: seq<real>)
    requires |user| >= 3
    ensures |variations| == |user| - 2
  {
    seq(|user| - 2, j requires 0 <= j < |user| - 2 => FrameVariation(dist, user[j], user[j + 1], user[j + 2]))
  }

  /** What `calculateStability` returns: 100 for fewer than three frames,
      otherwise `max(0, 100 - 50 * mean variation)`. */
  function Stability(dist: Distance, user: seq<Frame>): real
  {
    if |user| < 3 then 100.0
    else MaxReal(0.0, 100.0 - Mean(Variations(dist, user)) * 50.0)
  }

  /** The running total of `calculateStability` after the first n windows. */
  function VariationSumAfter(dist: Distance, user: seq<Frame>, n: nat): real
    requires n <= |user| - 2
  {
    if n == 0 then 0.0
    else VariationSumAfter(dist, user, n - 1) + FrameVariation(dist, user[n - 1], user[n], user[n + 1])
  }

  /** The running total is the sum of the first n window variations. */
  lemma {:induction false} VariationSumIsSum(dist: Distance, user: seq<Frame>, n: nat)
    requires |user| >= 3 && n <= |user| - 2
    ensures VariationSumAfter(dist, user, n) == Sum(Variations(dist, user)[..n])
  {
    if n > 0 {
      VariationSumIsSum(dist, user, n - 1);
      SumStep(Variations(dist, user), n - 1);
    }
  }

  method CalculateStability(dist: Distance, user: seq<Frame>) returns (stability: real)
    ensures stability == Stability(dist, user)
  {
    if |user| < 3 {
      return 100.0;
    }
    var totalVariation := 0.0;
    var comparisons := 0;
    var i := 1;
    while i < |user| - 1
      invariant 1 <= i <= |user| - 1
      invariant comparisons == i - 1
      invariant totalVariation == VariationSumAfter(dist, user, i - 1)
    {
      var variation := CalculateFrameVariation(dist, user[i - 1], user[i], user[i + 1]);
      totalVariation := totalVariation + variation;
      comparisons := comparisons + 1;
      i := i + 1;
    }
    VariationSumIsSum(dist, user, comparisons);
    assert Variations(dist, user)[..comparisons] == Variations(dist, user);
    var avgVariation := if comparisons > 0 then Average(totalVariation, comparisons) else 0.0;
    stability := MaxReal(0.0, 100.0 - avgVariation * 50.0);
  }

  /** Stability always lies in [0, 100]. */
  lemma StabilityBounds(dist: Distance, user: seq<Frame>)
    ensures 0.0 <= Stability(dist, user) <= 100.0
  {
    if |user| >= 3 {
      var variations := Variations(dist, user);
      forall j | 0 <= j < |variations|
        ensures 0.0 <= variations[j]
      {
        FrameVariationProperties(dist, user[j], user[j + 1], user[j + 2]);
      }
      MeanNonNegative(variations);
    }
  }

  /** A user holding one pose in every frame has stability 100. */
  lemma StabilityOfStillPose(dist: Distance, user: seq<Frame>)
    requires forall j :: 0 <= j < |user| ==> user[j] == user[0]
    ensures Stability(dist, user) == 100.0
  {
    if |user| >= 3 {
      var frame := user[0];
      var variations := Variations(dist, user);
      var accelerations := Accelerations(dist, frame, frame, frame, MinLength(frame, frame, frame));
      AccelerationsOfStillFrame(dist, frame, MinLength(frame, frame, frame));
      if |accelerations| > 0 {
        MeanBounds(accelerations, 0.0, 0.0);
      }
      forall j | 0 <= j < |variations|
        ensures variations[j] == 0.0
      {
        assert user[j] == frame && user[j + 1] == frame && user[j + 2] == frame;
      }
      MeanBounds(variations, 0.0, 0.0);
    }
  }

  // ---------------------------------------------------------------------
  // All three

  /** What `analyzeDetails` returns; the shot type plays no part. */
  function AnalyzedDetails(dist: Distance, reference: seq<Frame>, user: seq<Frame>): Details
    requires |reference| > 0 || |user| > 0
  {
    Details(PositionAccuracy(dist, reference, user), CalculateTiming(reference, user), Stability(dist, user))
  }

  method AnalyzeDetails(dist: Distance, reference: seq<Frame>, user: seq<Frame>, shotType: ShotType)
    returns (details: Details)
    requires |reference| > 0 || |user| > 0
    ensures details == AnalyzedDetails(dist, reference, user)
  {
    var positionAccuracy := CalculatePositionAccuracy(dist, reference, user);
    var timing := CalculateTiming(reference, user);
    var stability := CalculateStability(dist, user);
    details := Details(positionAccuracy, timing, stability);
  }

  /** Every detail metric lies in [0, 100]. */
  lemma DetailsBounds(dist: Distance, reference: seq<Frame>, user: seq<Frame>)
    requires IsDistance(dist) && (|reference| > 0 || |user| > 0)
    ensures var d := AnalyzedDetails(dist, reference, user);
      && 0.0 <= d.positionAccuracy <= 100.0
      && 0.0 <= d.timing <= 100.0
      && 0.0 <= d.stability <= 100.0
  {
    PositionAccuracyBounds(dist, reference, user);
    TimingBounds(reference, user);
    StabilityBounds(dist, user);
  }
}
