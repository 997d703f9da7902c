/** Scoring one reference frame against one user frame over a list of
    keypoint names. The k-th name is matched with the k-th keypoint of each
    frame, by position and not by looking the name up; only pairs where both
    keypoints exist and both confidences exceed 0.3 are scored. */
module FrameComparison {
  import opened Basics
  import opened PoseTypes
  import opened OrderedMaps

  const ConfidenceThreshold: real := 0.3

  /** What the comparison relies on of `Math.sqrt`: it is non-negative on
      non-negative arguments and the root of 0 is 0. */
  ghost predicate IsSqrt(sqrt: real -> real)
  {
    && sqrt(0.0) == 0.0
    && forall x :: 0.0 <= x ==> 0.0 <= sqrt(x)
  }

  /** `calculateKeypointDistance`: Euclidean distance of two keypoints in
      normalised coordinates, with `Math.sqrt` passed in. */
  function CalculateKeypointDistance(sqrt: real -> real, kp1: Keypoint, kp2: Keypoint): real
  {
    sqrt(SumOfSquares(kp1.x - kp2.x, kp1.y - kp2.y))
  }

  function SumOfSquares(dx: real, dy: real): real
  {
    dx * dx + dy * dy
  }

  /** The stages below are stated for any keypoint distance with the two
      properties they use; `Euclidean(sqrt)` is the one the service uses. */
  type Distance = (Keypoint, Keypoint) -> real

  ghost predicate IsDistance(dist: Distance)
  {
    && (forall kp1: Keypoint, kp2: Keypoint :: 0.0 <= dist(kp1, kp2))
    && (forall kp1: Keypoint, kp2: Keypoint :: kp1.x == kp2.x && kp1.y == kp2.y ==> dist(kp1, kp2) == 0.0)
  }

  function Euclidean(sqrt: real -> real): Distance
  {
    (kp1, kp2) => CalculateKeypointDistance(sqrt, kp1, kp2)
  }

  /** With a genuine square root the service's `calculateKeypointDistance`
      is non-negative, 0 between coincident positions, and symmetric. */
  lemma EuclideanIsDistance(sqrt: real -> real)
    requires IsSqrt(sqrt)
    ensures IsDistance(Euclidean(sqrt))
    ensures forall kp1, kp2 :: Euclidean(sqrt)(kp1, kp2) == Euclidean(sqrt)(kp2, kp1)
  {
    forall kp1, kp2
      ensures 0.0 <= CalculateKeypointDistance(sqrt, kp1, kp2)
      ensures kp1.x == kp2.x && kp1.y == kp2.y ==> CalculateKeypointDistance(sqrt, kp1, kp2) == 0.0
      ensures CalculateKeypointDistance(sqrt, kp1, kp2) == CalculateKeypointDistance(sqrt, kp2, kp1)
    {
      DistanceOfPair(sqrt, kp1, kp2);
    }
  }

  lemma DistanceOfPair(sqrt: real -> real, kp1: Keypoint, kp2: Keypoint)
    requires IsSqrt(sqrt)
    ensures 0.0 <= CalculateKeypointDistance(sqrt, kp1, kp2)
    ensures kp1.x == kp2.x && kp1.y == kp2.y ==> CalculateKeypointDistance(sqrt, kp1, kp2) == 0.0
    ensures CalculateKeypointDistance(sqrt, kp1, kp2) == CalculateKeypointDistance(sqrt, kp2, kp1)
  {
    SquareSum(kp1.x - kp2.x, kp1.y - kp2.y, kp2.x - kp1.x, kp2.y - kp1.y);
  }

  /** The sum of two squares is non-negative, zero at the origin, and the
      same for the negated pair. */
  lemma SquareSum(a: real, b: real, c: real, d: real)
    requires c == -a && d == -b
    ensures 0.0 <= SumOfSquares(a, b)
    ensures a == 0.0 && b == 0.0 ==> SumOfSquares(a, b) == 0.0
    ensures SumOfSquares(c, d) == SumOfSquares(a, b)
  {
    ProductOfNegations(a, a);
    ProductOfNegations(b, b);
  }

  lemma ProductOfNegations(a: real, b: real)
    ensures (-a) * (-b) == a * b
  {
  }

  /** `Math.max(0, 100 - distance * 100)`. */
  function ScoreForDistance(distance: real): (score: real)
    ensures 0.0 <= distance ==> 0.0 <= score <= 100.0
    ensures distance == 0.0 ==> score == 100.0
  {
    MaxReal(0.0, 100.0 - distance * 100.0)
  }

  /** A smaller displacement never scores lower than a larger one. */
  lemma ScoreForDistanceMonotone(d1: real, d2: real)
    requires d1 <= d2
    ensures ScoreForDistance(d2) <= ScoreForDistance(d1)
  {
  }

  /** The score of one keypoint pair: 100 at the same position, falling by
      one point per hundredth of the image, never below 0. */
  function KeypointScore(dist: Distance, kp1: Keypoint, kp2: Keypoint): real
  {
    ScoreForDistance(dist(kp1, kp2))
  }

  lemma KeypointScoreBounds(dist: Distance, kp1: Keypoint, kp2: Keypoint)
    requires IsDistance(dist)
    ensures 0.0 <= KeypointScore(dist, kp1, kp2) <= 100.0
    ensures kp1.x == kp2.x && kp1.y == kp2.y ==> KeypointScore(dist, kp1, kp2) == 100.0
  {
  }

  /** A keypoint 0.1 away from its reference scores 90. */
  lemma KeypointScoreExample(sqrt: real -> real)
    requires sqrt(0.01) == 0.1
    ensures KeypointScore(Euclidean(sqrt), Keypoint(0.5, 0.5, 0.9), Keypoint(0.6, 0.5, 0.9)) == 90.0
  {
    assert (0.5 - 0.6) * (0.5 - 0.6) + (0.5 - 0.5) * (0.5 - 0.5) == 0.01;
  }

  /** Index k is scored when it lies inside both frames and both keypoints
      there are confident enough. */
  predicate Qualifies(refFrame: Frame, userFrame: Frame, k: nat)
  {
    && k < |refFrame.keypoints|
    && k < |userFrame.keypoints|
    && refFrame.keypoints[k].confidence > ConfidenceThreshold
    && userFrame.keypoints[k].confidence > ConfidenceThreshold
  }

  /** The assignment made on visiting the k-th name: one (name, score)
      entry when index k qualifies, none otherwise. */
  function Assignment(dist: Distance, refFrame: Frame, userFrame: Frame, names: seq<string>, k: nat)
    : seq<(string, real)>
    requires k < |names|
  {
    if Qualifies(refFrame, userFrame, k)
    then [(names[k], KeypointScore(dist, refFrame.keypoints[k], userFrame.keypoints[k]))]
    else []
  }

  /** The (name, score) assignments made while visiting the first n names,
      in the order they are made. */
  function Recorded(dist: Distance, refFrame: Frame, userFrame: Frame, names: seq<string>, n: nat)
    : seq<(string, real)>
    requires n <= |names|
  {
    if n == 0 then []
    else Recorded(dist, refFrame, userFrame, names, n - 1) + Assignment(dist, refFrame, userFrame, names, n - 1)
  }

  function Values(pairs: seq<(string, real)>): seq<real>
  {
    seq(|pairs|, i requires 0 <= i < |pairs| => pairs[i].1)
  }

  /** The dictionary left by performing the assignments in order. */
  function ToMap(pairs: seq<(string, real)>): OrderedMap<real>
  {
    if |pairs| == 0 then []
    else Put(ToMap(pairs[..|pairs| - 1]), pairs[|pairs| - 1].0, pairs[|pairs| - 1].1)
  }

  datatype FrameScore = FrameScore(overallScore: real, keyPointScores: OrderedMap<real>)

  /** What `compareFrames` returns: the per-name scores, and their mean as
      the frame's score (0 when no name was scored). */
  function Compared(dist: Distance, refFrame: Frame, userFrame: Frame, names: seq<string>): FrameScore
  {
    var recorded := Recorded(dist, refFrame, userFrame, names, |names|);
    FrameScore(Mean(Values(recorded)), ToMap(recorded))
  }

  // The state of `compareFrames` after visiting the first n names.

  /** The running total `totalScore`. */
  function TotalAfter(dist: Distance, refFrame: Frame, userFrame: Frame, names: seq<string>, n: nat): real
    requires n <= |names|
  {
    if n == 0 then 0.0
    else if Qualifies(refFrame, userFrame, n - 1)
    then TotalAfter(dist, refFrame, userFrame, names, n - 1) +
         KeypointScore(dist, refFrame.keypoints[n - 1], userFrame.keypoints[n - 1])
    else TotalAfter(dist, refFrame, userFrame, names, n - 1)
  }

  /** The count `validKeypoints`. */
  function CountAfter(dist: Distance, refFrame: Frame, userFrame: Frame, names: seq<string>, n: nat): nat
    requires n <= |names|
  {
    if n == 0 then 0
    else if Qualifies(refFrame, userFrame, n - 1)
    then CountAfter(dist, refFrame, userFrame, names, n - 1) + 1
    else CountAfter(dist, refFrame, userFrame, names, n - 1)
  }

  /** The running total is the sum of the scores assigned so far. */
  lemma {:induction false} TotalIsRecorded(dist: Distance, refFrame: Frame, userFrame: Frame, names: seq<string>, n: nat)
    requires n <= |names|
    ensures TotalAfter(dist, refFrame, userFrame, names, n) == Sum(Values(Recorded(dist, refFrame, userFrame, names, n)))
  {
    if n > 0 {
      TotalIsRecorded(dist, refFrame, userFrame, names, n - 1);
      if Qualifies(refFrame, userFrame, n - 1) {
        RecordedStep(dist, refFrame, userFrame, names, n - 1);
        SumValuesAppend(Recorded(dist, refFrame, userFrame, names, n - 1), names[n - 1],
                        KeypointScore(dist, refFrame.keypoints[n - 1], userFrame.keypoints[n - 1]));
      } else {
        RecordedSkip(dist, refFrame, userFrame, names, n - 1);
      }
    }
  }

  /** The count is the number of assignments made so far. */
  lemma {:induction false} CountIsRecorded(dist: Distance, refFrame: Frame, userFrame: Frame, names: seq<string>, n: nat)
    requires n <= |names|
    ensures CountAfter(dist, refFrame, userFrame, names, n) == |Recorded(dist, refFrame, userFrame, names, n)|
  {
    if n > 0 {
      CountIsRecorded(dist, refFrame, userFrame, names, n - 1);
      if Qualifies(refFrame, userFrame, n - 1) {
        RecordedStep(dist, refFrame, userFrame, names, n - 1);
      } else {
        RecordedSkip(dist, refFrame, userFrame, names, n - 1);
      }
    }
  }

  method CompareFrames(dist: Distance, refFrame: Frame, userFrame: Frame, importantKeypoints: seq<string>)
    returns (result: FrameScore)
    ensures result == Compared(dist, refFrame, userFrame, importantKeypoints)
    ensures forall k :: k in Keys(result.keyPointScores) ==> k in importantKeypoints
    ensures IsDistance(dist) ==> 0.0 <= result.overallScore <= 100.0
  {
    var keyPointScores: OrderedMap<real> := [];
    var totalScore := 0.0;
    var validKeypoints := 0;
    var index := 0;
    while index < |importantKeypoints|
      invariant 0 <= index <= |importantKeypoints|
      invariant keyPointScores == ToMap(Recorded(dist, refFrame, userFrame, importantKeypoints, index))
      invariant totalScore == TotalAfter(dist, refFrame, userFrame, importantKeypoints, index)
      invariant validKeypoints == CountAfter(dist, refFrame, userFrame, importantKeypoints, index)
    {
      var keypointName := importantKeypoints[index];
      if index < |refFrame.keypoints| && index < |userFrame.keypoints| {
        var refKeypoint := refFrame.keypoints[index];
        var userKeypoint := userFrame.keypoints[index];
        if refKeypoint.confidence > ConfidenceThreshold && userKeypoint.confidence > ConfidenceThreshold {
          var distance := dist(refKeypoint, userKeypoint);
          var score := MaxReal(0.0, 100.0 - distance * 100.0);
          RecordedMapStep(dist, refFrame, userFrame, importantKeypoints, index + 1, keyPointScores, keypointName, score);
          keyPointScores := Put(keyPointScores, keypointName, score);
          totalScore := totalScore + score;
          validKeypoints := validKeypoints + 1;
        } else {
          RecordedMapSkip(dist, refFrame, userFrame, importantKeypoints, index + 1, keyPointScores);
        }
      } else {
        RecordedMapSkip(dist, refFrame, userFrame, importantKeypoints, index + 1, keyPointScores);
      }
      index := index + 1;
    }
    ComparedFromRecorded(dist, refFrame, userFrame, importantKeypoints);
    result := FrameScore(if validKeypoints > 0 then Average(totalScore, validKeypoints) else 0.0, keyPointScores);
  }

  /** The frame score is the recorded total over the recorded count, and
      what `compareFrames` promises of its result holds of it. */
  lemma ComparedFromRecorded(dist: Distance, refFrame: Frame, userFrame: Frame, names: seq<string>)
    ensures var count := CountAfter(dist, refFrame, userFrame, names, |names|);
      Compared(dist, refFrame, userFrame, names) ==
        FrameScore(if count > 0 then Average(TotalAfter(dist, refFrame, userFrame, names, |names|), count) else 0.0,
                   ToMap(Recorded(dist, refFrame, userFrame, names, |names|)))
    ensures forall k :: k in Keys(Compared(dist, refFrame, userFrame, names).keyPointScores) ==> k in names
    ensures IsDistance(dist) ==> 0.0 <= Compared(dist, refFrame, userFrame, names).overallScore <= 100.0
  {
    var recorded := Recorded(dist, refFrame, userFrame, names, |names|);
    assert |Values(recorded)| == |recorded|;
    TotalIsRecorded(dist, refFrame, userFrame, names, |names|);
    CountIsRecorded(dist, refFrame, userFrame, names, |names|);
    ComparedKeys(dist, refFrame, userFrame, names);
    if IsDistance(dist) {
      ComparedBounds(dist, refFrame, userFrame, names);
    }
  }

  /** Visiting a qualifying index n appends its (name, score) entry. */
  lemma RecordedStep(dist: Distance, refFrame: Frame, userFrame: Frame, names: seq<string>, n: nat)
    requires n < |names| && Qualifies(refFrame, userFrame, n)
    ensures Recorded(dist, refFrame, userFrame, names, n + 1) ==
      Recorded(dist, refFrame, userFrame, names, n) +
      [(names[n], KeypointScore(dist, refFrame.keypoints[n], userFrame.keypoints[n]))]
  {
  }

  /** Visiting an index that does not qualify records nothing. */
  lemma RecordedSkip(dist: Distance, refFrame: Frame, userFrame: Frame, names: seq<string>, n: nat)
    requires n < |names| && !Qualifies(refFrame, userFrame, n)
    ensures Recorded(dist, refFrame, userFrame, names, n + 1) == Recorded(dist, refFrame, userFrame, names, n)
  {
  }

  /** One more assignment is one more Put on the dictionary. */
  lemma ToMapAppend(pairs: seq<(string, real)>, name: string, score: real)
    ensures ToMap(pairs + [(name, score)]) == Put(ToMap(pairs), name, score)
  {
    assert (pairs + [(name, score)])[..|pairs|] == pairs;
  }

  /** Visiting a qualifying index n - 1 puts its score under its name in
      the dictionary left by the earlier indices. */
  lemma RecordedMapStep(dist: Distance, refFrame: Frame, userFrame: Frame, names: seq<string>, n: nat,
                        scores: OrderedMap<real>, name: string, score: real)
    requires 0 < n <= |names| && Qualifies(refFrame, userFrame, n - 1)
    requires scores == ToMap(Recorded(dist, refFrame, userFrame, names, n - 1))
    requires name == names[n - 1]
    requires score == KeypointScore(dist, refFrame.keypoints[n - 1], userFrame.keypoints[n - 1])
    ensures Put(scores, name, score) == ToMap(Recorded(dist, refFrame, userFrame, names, n))
  {
    RecordedStep(dist, refFrame, userFrame, names, n - 1);
    ToMapAppend(Recorded(dist, refFrame, userFrame, names, n - 1), name, score);
  }

  /** Visiting an index n - 1 that does not qualify leaves the dictionary as it was. */
  lemma RecordedMapSkip(dist: Distance, refFrame: Frame, userFrame: Frame, names: seq<string>, n: nat,
                        scores: OrderedMap<real>)
    requires 0 < n <= |names| && !Qualifies(refFrame, userFrame, n - 1)
    requires scores == ToMap(Recorded(dist, refFrame, userFrame, names, n - 1))
    ensures scores == ToMap(Recorded(dist, refFrame, userFrame, names, n))
  {
    RecordedSkip(dist, refFrame, userFrame, names, n - 1);
  }

  /** One more assignment adds its score to the sum of the values. */
  lemma SumValuesAppend(pairs: seq<(string, real)>, name: string, score: real)
    ensures Sum(Values(pairs + [(name, score)])) == Sum(Values(pairs)) + score
  {
    assert Values(pairs + [(name, score)]) == Values(pairs) + [score];
    SumAppend(Values(pairs), score);
  }

  /** Only listed names are ever assigned. */
  lemma {:induction false} RecordedNames(dist: Distance, refFrame: Frame, userFrame: Frame, names: seq<string>, n: nat)
    requires n <= |names|
    ensures forall p :: p in Recorded(dist, refFrame, userFrame, names, n) ==> p.0 in names
  {
    if n > 0 {
      RecordedNames(dist, refFrame, userFrame, names, n - 1);
    }
  }

  /** A dictionary built by assignments has each key once. */
  lemma {:induction false} ToMapDistinct(pairs: seq<(string, real)>)
    ensures NoDuplicates(Keys(ToMap(pairs)))
  {
    if |pairs| > 0 {
      var last := pairs[|pairs| - 1];
      ToMapDistinct(pairs[..|pairs| - 1]);
      PutKeepsKeysDistinct(ToMap(pairs[..|pairs| - 1]), last.0, last.1);
    }
  }

  lemma ComparedKeys(dist: Distance, refFrame: Frame, userFrame: Frame, names: seq<string>)
    ensures forall k :: k in Keys(Compared(dist, refFrame, userFrame, names).keyPointScores) ==> k in names
    ensures NoDuplicates(Keys(Compared(dist, refFrame, userFrame, names).keyPointScores))
  {
    var recorded := Recorded(dist, refFrame, userFrame, names, |names|);
    RecordedNames(dist, refFrame, userFrame, names, |names|);
    ToMapDistinct(recorded);
    forall k | k in Keys(ToMap(recorded))
      ensures k in names
    {
      ToMapValues(recorded, k);
    }
  }

  /** With distinct names, the score under the j-th name is present exactly
      when index j qualifies, and is then that keypoint pair's score. */
  lemma {:induction false} RecordedScoreOf(dist: Distance, refFrame: Frame, userFrame: Frame,
                                           names: seq<string>, n: nat, j: nat)
    requires NoDuplicates(names) && n <= |names| && j < |names|
    ensures Get(ToMap(Recorded(dist, refFrame, userFrame, names, n)), names[j]) ==
      if j < n && Qualifies(refFrame, userFrame, j)
      then Some(KeypointScore(dist, refFrame.keypoints[j], userFrame.keypoints[j]))
      else None
  {
    if n > 0 {
      var m := n - 1;
      var before, after := Recorded(dist, refFrame, userFrame, names, m), Recorded(dist, refFrame, userFrame, names, n);
      RecordedScoreOf(dist, refFrame, userFrame, names, m, j);
      if Qualifies(refFrame, userFrame, m) {
        var score := KeypointScore(dist, refFrame.keypoints[m], userFrame.keypoints[m]);
        RecordedStep(dist, refFrame, userFrame, names, m);
        ToMapAppend(before, names[m], score);
        GetPut(ToMap(before), names[m], score, names[j]);
        if j == m {
          assert Get(ToMap(after), names[j]) == Some(score);
        } else {
          assert names[j] != names[m];
          assert Get(ToMap(after), names[j]) == Get(ToMap(before), names[j]);
        }
      } else {
        RecordedSkip(dist, refFrame, userFrame, names, m);
        assert after == before;
      }
    }
  }

  lemma ComparedScoreOf(dist: Distance, refFrame: Frame, userFrame: Frame, names: seq<string>, j: nat)
    requires NoDuplicates(names) && j < |names|
    ensures Get(Compared(dist, refFrame, userFrame, names).keyPointScores, names[j]) ==
      if Qualifies(refFrame, userFrame, j)
      then Some(KeypointScore(dist, refFrame.keypoints[j], userFrame.keypoints[j]))
      else None
  {
    RecordedScoreOf(dist, refFrame, userFrame, names, |names|, j);
  }

  /** Every assigned score, and so the frame score, lies in [0, 100]. */
  lemma {:induction false} RecordedBounds(dist: Distance, refFrame: Frame, userFrame: Frame, names: seq<string>, n: nat)
    requires IsDistance(dist) && n <= |names|
    ensures forall i :: 0 <= i < |Recorded(dist, refFrame, userFrame, names, n)| ==>
      0.0 <= Recorded(dist, refFrame, userFrame, names, n)[i].1 <= 100.0
  {
    if n > 0 {
      RecordedBounds(dist, refFrame, userFrame, names, n - 1);
    }
  }

  /** Every value left in the dictionary is one of the assigned scores. */
  lemma {:induction false} ToMapValues(pairs: seq<(string, real)>, k: string)
    ensures Get(ToMap(pairs), k).Some? ==> (k, Get(ToMap(pairs), k).value) in pairs
  {
    if |pairs| > 0 {
      var n := |pairs| - 1;
      var prefix, last := pairs[..n], pairs[n];
      GetPut(ToMap(prefix), last.0, last.1, k);
      if k == last.0 {
        assert pairs[n] == (k, last.1);
      } else if Get(ToMap(prefix), k).Some? {
        ToMapValues(prefix, k);
        var i :| 0 <= i < n && prefix[i] == (k, Get(ToMap(prefix), k).value);
        assert pairs[i] == prefix[i];
      }
    }
  }

  lemma ComparedBounds(dist: Distance, refFrame: Frame, userFrame: Frame, names: seq<string>)
    requires IsDistance(dist)
    ensures 0.0 <= Compared(dist, refFrame, userFrame, names).overallScore <= 100.0
    ensures forall k :: Get(Compared(dist, refFrame, userFrame, names).keyPointScores, k).Some? ==>
      0.0 <= Get(Compared(dist, refFrame, userFrame, names).keyPointScores, k).value <= 100.0
  {
    var recorded := Recorded(dist, refFrame, userFrame, names, |names|);
    RecordedBounds(dist, refFrame, userFrame, names, |names|);
    if |recorded| > 0 {
      MeanBounds(Values(recorded), 0.0, 100.0);
    }
    forall k | Get(ToMap(recorded), k).Some?
      ensures 0.0 <= Get(ToMap(recorded), k).value <= 100.0
    {
      ToMapValues(recorded, k);
    }
  }

  /** Some name is scored exactly when some index qualifies. */
  lemma {:induction false} RecordedNonEmpty(dist: Distance, refFrame: Frame, userFrame: Frame, names: seq<string>, n: nat)
    requires n <= |names|
    ensures |Recorded(dist, refFrame, userFrame, names, n)| > 0 <==>
      exists k :: 0 <= k < n && Qualifies(refFrame, userFrame, k)
  {
    if n > 0 {
      RecordedNonEmpty(dist, refFrame, userFrame, names, n - 1);
    }
  }

  /** A frame pair in which no index qualifies scores 0 and records no
      keypoint score. */
  lemma ComparedWithoutQualifying(dist: Distance, refFrame: Frame, userFrame: Frame, names: seq<string>)
    requires forall k :: 0 <= k < |names| ==> !Qualifies(refFrame, userFrame, k)
    ensures Compared(dist, refFrame, userFrame, names).overallScore == 0.0
    ensures Compared(dist, refFrame, userFrame, names).keyPointScores == []
  {
    RecordedNonEmpty(dist, refFrame, userFrame, names, |names|);
  }

  /** A frame compared with itself scores 100 on every scored name, and 100
      overall unless no name qualifies, in which case it scores 0. */
  lemma {:induction false} RecordedAgainstItself(dist: Distance, frame: Frame, names: seq<string>, n: nat)
    requires IsDistance(dist) && n <= |names|
    ensures forall i :: 0 <= i < |Recorded(dist, frame, frame, names, n)| ==>
      Recorded(dist, frame, frame, names, n)[i].1 == 100.0
  {
    if n > 0 {
      RecordedAgainstItself(dist, frame, names, n - 1);
    }
  }

  lemma ComparedAgainstItself(dist: Distance, frame: Frame, names: seq<string>)
    requires IsDistance(dist)
    ensures Compared(dist, frame, frame, names).overallScore ==
      if exists k :: 0 <= k < |names| && Qualifies(frame, frame, k) then 100.0 else 0.0
    ensures forall k :: Get(Compared(dist, frame, frame, names).keyPointScores, k).Some? ==>
      Get(Compared(dist, frame, frame, names).keyPointScores, k).value == 100.0
  {
    var recorded := Recorded(dist, frame, frame, names, |names|);
    RecordedAgainstItself(dist, frame, names, |names|);
    RecordedNonEmpty(dist, frame, frame, names, |names|);
    if |recorded| > 0 {
      MeanBounds(Values(recorded), 100.0, 100.0);
    }
    forall k | Get(ToMap(recorded), k).Some?
      ensures Get(ToMap(recorded), k).value == 100.0
    {
      ToMapValues(recorded, k);
    }
  }
}
