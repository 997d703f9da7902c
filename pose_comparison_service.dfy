/** `comparePoses`: the whole comparison of a user's recording against a
    reference recording of the same shot. Both recordings are decimated to
    at most 60 frames, the first min(n, m) frame pairs are scored against the
    shot's keypoint list, every keypoint's scores are collected across the
    frames where it was scored, and the result carries the weighted overall
    score, each keypoint's mean score, the three detail metrics and the
    feedback and recommendations derived from them. */
module PoseComparisonService {
  import opened Basics
  import opened PoseTypes
  import opened OrderedMaps
  import opened Timeline
  import opened ImportantKeypoints
  import opened FrameComparison
  import opened SequenceScore
  import opened DetailMetrics
  import opened Guidance

  datatype ComparisonResult = ComparisonResult(
    overallScore: real,
    keyPointScores: OrderedMap<real>,
    feedback: seq<FeedbackNote>,
    recommendations: seq<Recommendation>,
    details: Details)

  /** `comparePoses` either throws on an empty recording or returns a result. */
  datatype Outcome = InvalidPoseData | Ok(result: ComparisonResult)

  // ---------------------------------------------------------------------
  // Collecting each keypoint's scores across frames

  /** `keyPointScores[k] ||= []; keyPointScores[k].push(score)`. */
  function Push(streams: OrderedMap<seq<real>>, keyPoint: string, score: real): OrderedMap<seq<real>>
  {
    Put(streams, keyPoint, Get(streams, keyPoint).GetOr([]) + [score])
  }

  /** Pushing one frame's (keypoint, score) entries, in entry order. */
  function Accumulate(streams: OrderedMap<seq<real>>, entries: OrderedMap<real>): OrderedMap<seq<real>>
  {
    if |entries| == 0 then streams
    else
      var last := entries[|entries| - 1];
      Push(Accumulate(streams, entries[..|entries| - 1]), last.0, last.1)
  }

  /** The scores collected over a run of frame results. */
  function Streams(frames: seq<FrameScore>): OrderedMap<seq<real>>
  {
    if |frames| == 0 then []
    else Accumulate(Streams(frames[..|frames| - 1]), frames[|frames| - 1].keyPointScores)
  }

  /** `avg[k] = sum(scores) / scores.length` for each collected keypoint, in
      collection order. */
  function Averages(streams: OrderedMap<seq<real>>): OrderedMap<real>
  {
    if |streams| == 0 then []
    else
      var last := streams[|streams| - 1];
      Put(Averages(streams[..|streams| - 1]), last.0, Mean(last.1))
  }

  /** The result of each of the first min(n, m) frame pairs. */
  function FrameResults(dist: Distance, reference: seq<Frame>, user: seq<Frame>, names: seq<string>)
    : (frames: seq<FrameScore>)
    ensures |frames| == Min(|reference|, |user|)
  {
    seq(Min(|reference|, |user|), i requires 0 <= i < Min(|reference|, |user|) =>
      Compared(dist, reference[i], user[i], names))
  }

  function Overalls(frames: seq<FrameScore>): (scores: seq<real>)
    ensures |scores| == |frames|
  {
    seq(|frames|, i requires 0 <= i < |frames| => frames[i].overallScore)
  }

  /** What `comparePoses` returns. */
  function Comparison(dist: Distance, referencePose: seq<Frame>, userPose: seq<Frame>, shotType: ShotType)
    : Outcome
  {
    if |referencePose| == 0 || |userPose| == 0 then InvalidPoseData
    else
      var normalizedReference := Normalized(referencePose);
      var normalizedUser := Normalized(userPose);
      var frames := FrameResults(dist, normalizedReference, normalizedUser, Important(shotType));
      var averages := Averages(Streams(frames));
      var details := AnalyzedDetails(dist, normalizedReference, normalizedUser);
      Ok(ComparisonResult(
        OverallScore(Overalls(frames)),
        averages,
        Feedback(averages, details),
        Recommendations(averages, details, shotType),
        details))
  }

  method ComparePoses(dist: Distance, referencePose: seq<Frame>, userPose: seq<Frame>, shotType: ShotType)
    returns (outcome: Outcome)
    ensures outcome == Comparison(dist, referencePose, userPose, shotType)
  {
    if |referencePose| == 0 || |userPose| == 0 {
      return InvalidPoseData;
    }
    var normalizedReference := NormalizeTimeline(referencePose);
    var normalizedUser := NormalizeTimeline(userPose);
    var importantKeypoints := Important(shotType);

    var frameScores, keyPointScores := ScoreFrames(dist, normalizedReference, normalizedUser, importantKeypoints);
    var overallScore := CalculateOverallScore(frameScores);
    StreamsNonEmpty(FrameResults(dist, normalizedReference, normalizedUser, importantKeypoints));
    var avgKeyPointScores := AverageStreams(keyPointScores);

    var details := AnalyzeDetails(dist, normalizedReference, normalizedUser, shotType);
    var feedback := GenerateFeedback(avgKeyPointScores, details, shotType);
    var recommendations := GenerateRecommendations(avgKeyPointScores, details, shotType);
    outcome := Ok(ComparisonResult(overallScore, avgKeyPointScores, feedback, recommendations, details));
  }

  /** The frame loop of `comparePoses`: score the first min(n, m) frame
      pairs, keeping each frame's score and collecting each keypoint's
      scores. */
  method ScoreFrames(dist: Distance, reference: seq<Frame>, user: seq<Frame>, names: seq<string>)
    returns (frameScores: seq<real>, keyPointScores: OrderedMap<seq<real>>)
    ensures frameScores == Overalls(FrameResults(dist, reference, user, names))
    ensures keyPointScores == Streams(FrameResults(dist, reference, user, names))
  {
    frameScores := [];
    keyPointScores := [];
    var minLength := Min(|reference|, |user|);
    ghost var frames := FrameResults(dist, reference, user, names);
    var i := 0;
    while i < minLength
      invariant 0 <= i <= minLength
      invariant frameScores == Overalls(frames[..i])
      invariant keyPointScores == Streams(frames[..i])
    {
      var frameScore := CompareFrames(dist, reference[i], user[i], names);
      OverallsStep(frames, i);
      StreamsStep(frames, i);
      frameScores := frameScores + [frameScore.overallScore];
      keyPointScores := PushEntries(keyPointScores, frameScore.keyPointScores);
      i := i + 1;
    }
    assert frames[..i] == frames;
  }

  /** The inner loop of `comparePoses`: push one frame's entries, in entry
      order. */
  method PushEntries(streams: OrderedMap<seq<real>>, entries: OrderedMap<real>)
    returns (keyPointScores: OrderedMap<seq<real>>)
    ensures keyPointScores == Accumulate(streams, entries)
  {
    keyPointScores := streams;
    var j := 0;
    while j < |entries|
      invariant 0 <= j <= |entries|
      invariant keyPointScores == Accumulate(streams, entries[..j])
    {
      var (keyPoint, score) := entries[j];
      AccumulateStep(streams, entries, j);
      PushStep(keyPointScores, keyPoint, score);
      if Get(keyPointScores, keyPoint).None? {
        keyPointScores := Put(keyPointScores, keyPoint, []);
      }
      keyPointScores := Put(keyPointScores, keyPoint, Get(keyPointScores, keyPoint).value + [score]);
      j := j + 1;
    }
    assert entries[..j] == entries;
  }

  /** The averaging loop of `comparePoses`: each collected list becomes its
      mean, in collection order. */
  method AverageStreams(streams: OrderedMap<seq<real>>) returns (averages: OrderedMap<real>)
    requires forall i :: 0 <= i < |streams| ==> |streams[i].1| > 0
    ensures averages == Averages(streams)
  {
    averages := [];
    var k := 0;
    while k < |streams|
      invariant 0 <= k <= |streams|
      invariant averages == Averages(streams[..k])
    {
      var (keyPoint, scores) := streams[k];
      var total := ReduceSum(scores);
      AveragesStep(streams, k);
      averages := Put(averages, keyPoint, Average(total, |scores|));
      k := k + 1;
    }
    assert streams[..k] == streams;
  }

  // ---------------------------------------------------------------------
  // Steps of the loops

  lemma OverallsStep(frames: seq<FrameScore>, i: nat)
    requires i < |frames|
    ensures Overalls(frames[..i + 1]) == Overalls(frames[..i]) + [frames[i].overallScore]
  {
  }

  lemma StreamsStep(frames: seq<FrameScore>, i: nat)
    requires i < |frames|
    ensures Streams(frames[..i + 1]) == Accumulate(Streams(frames[..i]), frames[i].keyPointScores)
  {
    assert frames[..i + 1][..i] == frames[..i];
  }

  lemma AccumulateStep(streams: OrderedMap<seq<real>>, entries: OrderedMap<real>, j: nat)
    requires j < |entries|
    ensures Accumulate(streams, entries[..j + 1]) ==
      Push(Accumulate(streams, entries[..j]), entries[j].0, entries[j].1)
  {
    assert entries[..j + 1][..j] == entries[..j];
  }

  /** Creating the list when it is missing and then pushing onto it is one
      Push. */
  lemma PushStep(streams: OrderedMap<seq<real>>, keyPoint: string, score: real)
    ensures var current := if Get(streams, keyPoint).None? then Put(streams, keyPoint, []) else streams;
      && Get(current, keyPoint).Some?
      && Put(current, keyPoint, Get(current, keyPoint).value + [score]) == Push(streams, keyPoint, score)
  {
    if Get(streams, keyPoint).None? {
      var empty: seq<real> := [];
      GetPut(streams, keyPoint, empty, keyPoint);
      PutPut(streams, keyPoint, empty, [score]);
      assert Get(streams, keyPoint).GetOr(empty) + [score] == [score];
      assert Get(Put(streams, keyPoint, empty), keyPoint).value + [score] == [score];
    }
  }

  lemma AveragesStep(streams: OrderedMap<seq<real>>, k: nat)
    requires k < |streams| && |streams[k].1| > 0
    ensures Averages(streams[..k + 1]) ==
      Put(Averages(streams[..k]), streams[k].0, Average(Sum(streams[k].1), |streams[k].1|))
  {
    assert streams[..k + 1][..k] == streams[..k];
  }

  // ---------------------------------------------------------------------
  // Every collected list is non-empty

  /** Every entry of `m[k] = v` is an entry of m or (k, v). */
  lemma {:induction false} PutEntries<V>(m: OrderedMap<V>, k: string, v: V)
    ensures forall e :: e in Put(m, k, v) ==> e in m || e == (k, v)
  {
    if |m| > 0 && m[0].0 != k {
      PutEntries(m[1..], k, v);
    }
  }

  predicate AllNonEmpty(streams: OrderedMap<seq<real>>)
  {
    forall e :: e in streams ==> |e.1| > 0
  }

  lemma {:induction false} AccumulateNonEmpty(streams: OrderedMap<seq<real>>, entries: OrderedMap<real>)
    requires AllNonEmpty(streams)
    ensures AllNonEmpty(Accumulate(streams, entries))
  {
    if |entries| > 0 {
      var last := entries[|entries| - 1];
      var prefix := Accumulate(streams, entries[..|entries| - 1]);
      AccumulateNonEmpty(streams, entries[..|entries| - 1]);
      PutEntries(prefix, last.0, Get(prefix, last.0).GetOr([]) + [last.1]);
    }
  }

  /** The list collected for a keypoint always holds at least one score, so
      the average never divides by zero. */
  lemma {:induction false} StreamsNonEmpty(frames: seq<FrameScore>)
    ensures forall i :: 0 <= i < |Streams(frames)| ==> |Streams(frames)[i].1| > 0
  {
    if |frames| > 0 {
      StreamsNonEmpty(frames[..|frames| - 1]);
      var prefix := Streams(frames[..|frames| - 1]);
      assert AllNonEmpty(prefix) by {
        forall e | e in prefix
          ensures |e.1| > 0
        {
          var i :| 0 <= i < |prefix| && prefix[i] == e;
        }
      }
      AccumulateNonEmpty(prefix, frames[|frames| - 1].keyPointScores);
    }
  }

  // ---------------------------------------------------------------------
  // What each keypoint's score is

  /** The scores a keypoint received, over the frames that scored it, in
      frame order. */
  function Collected(frames: seq<FrameScore>, keyPoint: string): seq<real>
  {
    if |frames| == 0 then []
    else
      Collected(frames[..|frames| - 1], keyPoint) +
      (match Get(frames[|frames| - 1].keyPointScores, keyPoint)
       case Some(score) => [score]
       case None => [])
  }

  /** The scores index j of the keypoint list receives over the first n
      frame pairs: one per pair in which index j qualifies. */
  function QualifiedScores(dist: Distance, reference: seq<Frame>, user: seq<Frame>, j: nat, n: nat): seq<real>
    requires n <= |reference| && n <= |user|
  {
    if n == 0 then []
    else
      QualifiedScores(dist, reference, user, j, n - 1) +
      (if Qualifies(reference[n - 1], user[n - 1], j)
       then [KeypointScore(dist, reference[n - 1].keypoints[j], user[n - 1].keypoints[j])]
       else [])
  }

  lemma NoDuplicatesPrefix(keys: seq<string>, k: string)
    requires NoDuplicates(keys + [k])
    ensures NoDuplicates(keys) && k !in keys
  {
    var all := keys + [k];
    assert forall i :: 0 <= i < |keys| ==> all[i] == keys[i];
    assert all[|keys|] == k;
    assert forall i :: 0 <= i < |keys| ==> keys[i] != k;
  }

  /** Pushing a frame's entries, each key at most once, adds that frame's
      score to the list of each key it has and leaves the others alone. */
  lemma {:induction false} AccumulateGet(streams: OrderedMap<seq<real>>, entries: OrderedMap<real>, k: string)
    requires NoDuplicates(Keys(entries))
    ensures Get(Accumulate(streams, entries), k) ==
      if Get(entries, k).Some? then Some(Get(streams, k).GetOr([]) + [Get(entries, k).value])
      else Get(streams, k)
  {
    if |entries| > 0 {
      var n := |entries| - 1;
      var prefix, last := entries[..n], entries[n];
      assert entries == prefix + [last];
      KeysAppend(prefix, last.0, last.1);
      NoDuplicatesPrefix(Keys(prefix), last.0);
      GetAppend(prefix, last.0, last.1, k);
      AccumulateGet(streams, prefix, k);
      AccumulateGet(streams, prefix, last.0);
      var before := Accumulate(streams, prefix);
      GetPut(before, last.0, Get(before, last.0).GetOr([]) + [last.1], k);
    }
  }

  /** Every frame's keys are distinct. */
  predicate DistinctKeys(frames: seq<FrameScore>)
  {
    forall i :: 0 <= i < |frames| ==> NoDuplicates(Keys(frames[i].keyPointScores))
  }

  /** The list collected for a keypoint holds exactly its scores, in frame
      order; a keypoint never scored has no list. */
  lemma {:induction false} StreamsGet(frames: seq<FrameScore>, k: string)
    requires DistinctKeys(frames)
    ensures Get(Streams(frames), k) ==
      if |Collected(frames, k)| > 0 then Some(Collected(frames, k)) else None
  {
    if |frames| > 0 {
      var n := |frames| - 1;
      var prefix := frames[..n];
      assert DistinctKeys(prefix) by {
        assert forall i :: 0 <= i < n ==> prefix[i] == frames[i];
      }
      StreamsGet(prefix, k);
      AccumulateGet(Streams(prefix), frames[n].keyPointScores, k);
      var earlier := Collected(prefix, k);
      assert Get(Streams(prefix), k).GetOr([]) == earlier;
      assert Streams(frames) == Accumulate(Streams(prefix), frames[n].keyPointScores);
      match Get(frames[n].keyPointScores, k)
      case Some(score) =>
        assert Collected(frames, k) == earlier + [score];
      case None =>
        assert Collected(frames, k) == earlier;
    }
  }

  lemma {:induction false} AccumulateDistinct(streams: OrderedMap<seq<real>>, entries: OrderedMap<real>)
    requires NoDuplicates(Keys(streams))
    ensures NoDuplicates(Keys(Accumulate(streams, entries)))
  {
    if |entries| > 0 {
      var n := |entries| - 1;
      AccumulateDistinct(streams, entries[..n]);
      var before := Accumulate(streams, entries[..n]);
      PutKeepsKeysDistinct(before, entries[n].0, Get(before, entries[n].0).GetOr([]) + [entries[n].1]);
    }
  }

  lemma {:induction false} StreamsDistinct(frames: seq<FrameScore>)
    ensures NoDuplicates(Keys(Streams(frames)))
  {
    if |frames| > 0 {
      StreamsDistinct(frames[..|frames| - 1]);
      AccumulateDistinct(Streams(frames[..|frames| - 1]), frames[|frames| - 1].keyPointScores);
    }
  }

  /** Each collected keypoint gets the mean of its list. */
  lemma {:induction false} AveragesGet(streams: OrderedMap<seq<real>>, k: string)
    requires NoDuplicates(Keys(streams))
    ensures Get(Averages(streams), k) ==
      if Get(streams, k).Some? then Some(Mean(Get(streams, k).value)) else None
  {
    if |streams| > 0 {
      var n := |streams| - 1;
      var prefix, last := streams[..n], streams[n];
      assert streams == prefix + [last];
      KeysAppend(prefix, last.0, last.1);
      NoDuplicatesPrefix(Keys(prefix), last.0);
      GetAppend(prefix, last.0, last.1, k);
      AveragesGet(prefix, k);
      GetPut(Averages(prefix), last.0, Mean(last.1), k);
    }
  }

  /** A keypoint with scores was scored in some frame. */
  lemma {:induction false} CollectedWitness(frames: seq<FrameScore>, k: string)
    requires |Collected(frames, k)| > 0
    ensures exists i :: 0 <= i < |frames| && Get(frames[i].keyPointScores, k).Some?
  {
    var n := |frames| - 1;
    if Get(frames[n].keyPointScores, k).None? {
      CollectedWitness(frames[..n], k);
      var i :| 0 <= i < n && Get(frames[..n][i].keyPointScores, k).Some?;
      assert frames[..n][i] == frames[i];
    }
  }

  /** Frame scores that all lie in [lo, hi] collect into lists in [lo, hi]. */
  lemma {:induction false} CollectedBounds(frames: seq<FrameScore>, k: string, lo: real, hi: real)
    requires forall i :: 0 <= i < |frames| && Get(frames[i].keyPointScores, k).Some? ==>
      lo <= Get(frames[i].keyPointScores, k).value <= hi
    ensures forall j :: 0 <= j < |Collected(frames, k)| ==> lo <= Collected(frames, k)[j] <= hi
  {
    if |frames| > 0 {
      var n := |frames| - 1;
      assert forall i :: 0 <= i < n ==> frames[..n][i] == frames[i];
      CollectedBounds(frames[..n], k, lo, hi);
    }
  }

  /** With distinct names, the list collected for the j-th name holds one
      score per frame pair in which index j qualifies. */
  lemma {:induction false} CollectedQualified(dist: Distance, reference: seq<Frame>, user: seq<Frame>,
                                              names: seq<string>, j: nat, n: nat)
    requires NoDuplicates(names) && j < |names| && n <= Min(|reference|, |user|)
    ensures Collected(FrameResults(dist, reference, user, names)[..n], names[j]) ==
      QualifiedScores(dist, reference, user, j, n)
  {
    if n > 0 {
      var frames := FrameResults(dist, reference, user, names);
      CollectedQualified(dist, reference, user, names, j, n - 1);
      CollectedStep(frames, names[j], n);
      assert frames[n - 1] == Compared(dist, reference[n - 1], user[n - 1], names);
      ComparedScoreOf(dist, reference[n - 1], user[n - 1], names, j);
    }
  }

  /** One more frame adds its score for the keypoint, if it has one. */
  lemma CollectedStep(frames: seq<FrameScore>, keyPoint: string, n: nat)
    requires 0 < n <= |frames|
    ensures Collected(frames[..n], keyPoint) == Collected(frames[..n - 1], keyPoint) +
      (match Get(frames[n - 1].keyPointScores, keyPoint)
       case Some(score) => [score]
       case None => [])
  {
    assert frames[..n][..n - 1] == frames[..n - 1];
  }

  // ---------------------------------------------------------------------
  // Properties of comparePoses

  /** `comparePoses` throws exactly when a recording is empty. */
  lemma ComparisonRejectsEmpty(dist: Distance, referencePose: seq<Frame>, userPose: seq<Frame>, shotType: ShotType)
    ensures Comparison(dist, referencePose, userPose, shotType).InvalidPoseData? <==>
      |referencePose| == 0 || |userPose| == 0
  {
  }

  lemma FrameResultsDistinct(dist: Distance, reference: seq<Frame>, user: seq<Frame>, names: seq<string>)
    ensures DistinctKeys(FrameResults(dist, reference, user, names))
    ensures forall i, k :: 0 <= i < Min(|reference|, |user|) && k in Keys(FrameResults(dist, reference, user, names)[i].keyPointScores) ==> k in names
  {
    forall i | 0 <= i < Min(|reference|, |user|)
      ensures NoDuplicates(Keys(FrameResults(dist, reference, user, names)[i].keyPointScores))
      ensures forall k :: k in Keys(FrameResults(dist, reference, user, names)[i].keyPointScores) ==> k in names
    {
      ComparedKeys(dist, reference[i], user[i], names);
    }
  }

  /** The score reported for a keypoint is the mean of the scores it got in
      the frames where it was scored; a keypoint scored in no frame is
      absent. */
  lemma KeyScoreIsMean(dist: Distance, referencePose: seq<Frame>, userPose: seq<Frame>, shotType: ShotType, k: string)
    requires |referencePose| > 0 && |userPose| > 0
    ensures var frames := FrameResults(dist, Normalized(referencePose), Normalized(userPose), Important(shotType));
      Get(Comparison(dist, referencePose, userPose, shotType).result.keyPointScores, k) ==
        if |Collected(frames, k)| > 0 then Some(Mean(Collected(frames, k))) else None
  {
    var frames := FrameResults(dist, Normalized(referencePose), Normalized(userPose), Important(shotType));
    FrameResultsDistinct(dist, Normalized(referencePose), Normalized(userPose), Important(shotType));
    KeyAverage(frames, k);
  }

  /** Every reported keypoint is on the shot's list (the smash list for a
      drop or a net shot), and each is reported once. */
  lemma ComparisonKeys(dist: Distance, referencePose: seq<Frame>, userPose: seq<Frame>, shotType: ShotType)
    requires |referencePose| > 0 && |userPose| > 0
    ensures var keys := Keys(Comparison(dist, referencePose, userPose, shotType).result.keyPointScores);
      && (forall k :: k in keys ==> k in Important(shotType))
      && NoDuplicates(keys)
  {
    var reference, user, names := Normalized(referencePose), Normalized(userPose), Important(shotType);
    var frames := FrameResults(dist, reference, user, names);
    var averages := Averages(Streams(frames));
    forall k | k in Keys(averages)
      ensures k in names
    {
      KeyScoreIsMean(dist, referencePose, userPose, shotType, k);
      CollectedWitness(frames, k);
      var i :| 0 <= i < |frames| && Get(frames[i].keyPointScores, k).Some?;
      FrameResultsDistinct(dist, reference, user, names);
    }
    StreamsDistinct(frames);
    AveragesDistinct(Streams(frames));
  }

  lemma {:induction false} AveragesDistinct(streams: OrderedMap<seq<real>>)
    ensures NoDuplicates(Keys(Averages(streams)))
  {
    if |streams| > 0 {
      var n := |streams| - 1;
      AveragesDistinct(streams[..n]);
      PutKeepsKeysDistinct(Averages(streams[..n]), streams[n].0, Mean(streams[n].1));
    }
  }

  /** The score of the j-th keypoint on the shot's list is the mean of its
      scores over the frame pairs in which its index qualifies, and it is
      absent when it qualified in none. */
  lemma KeyScoreOfListedName(dist: Distance, referencePose: seq<Frame>, userPose: seq<Frame>, shotType: ShotType, j: nat)
    requires |referencePose| > 0 && |userPose| > 0 && j < |Important(shotType)|
    ensures var reference, user := Normalized(referencePose), Normalized(userPose);
      var scores := QualifiedScores(dist, reference, user, j, Min(|reference|, |user|));
      Get(Comparison(dist, referencePose, userPose, shotType).result.keyPointScores, Important(shotType)[j]) ==
        if |scores| > 0 then Some(Mean(scores)) else None
  {
    var reference, user, names := Normalized(referencePose), Normalized(userPose), Important(shotType);
    var frames := FrameResults(dist, reference, user, names);
    KeyScoreIsMean(dist, referencePose, userPose, shotType, names[j]);
    CollectedQualified(dist, reference, user, names, j, |frames|);
    assert frames[..|frames|] == frames;
  }

  /** The parts of a successful comparison, by name. */
  lemma ComparisonParts(dist: Distance, referencePose: seq<Frame>, userPose: seq<Frame>, shotType: ShotType)
    requires |referencePose| > 0 && |userPose| > 0
    ensures var reference, user := Normalized(referencePose), Normalized(userPose);
      var frames := FrameResults(dist, reference, user, Important(shotType));
      var r := Comparison(dist, referencePose, userPose, shotType);
      && r.Ok?
      && r.result.overallScore == OverallScore(Overalls(frames))
      && r.result.keyPointScores == Averages(Streams(frames))
      && r.result.details == AnalyzedDetails(dist, reference, user)
      && |reference| > 0 && |user| > 0
  {
  }

  /** The average reported for a keypoint is the mean of the scores it
      collected, and there is none for a keypoint that collected none. */
  lemma KeyAverage(frames: seq<FrameScore>, k: string)
    requires DistinctKeys(frames)
    ensures Get(Averages(Streams(frames)), k) ==
      if |Collected(frames, k)| > 0 then Some(Mean(Collected(frames, k))) else None
  {
    StreamsGet(frames, k);
    StreamsDistinct(frames);
    AveragesGet(Streams(frames), k);
  }

  /** Keypoint scores in [lo, hi] in every frame give an average in [lo, hi]. */
  lemma AverageWithin(frames: seq<FrameScore>, k: string, lo: real, hi: real)
    requires DistinctKeys(frames)
    requires forall i :: 0 <= i < |frames| && Get(frames[i].keyPointScores, k).Some? ==>
      lo <= Get(frames[i].keyPointScores, k).value <= hi
    requires Get(Averages(Streams(frames)), k).Some?
    ensures lo <= Get(Averages(Streams(frames)), k).value <= hi
  {
    KeyAverage(frames, k);
    CollectedBounds(frames, k, lo, hi);
    MeanBounds(Collected(frames, k), lo, hi);
  }

  /** Keypoint scores in [lo, hi] give reported scores in [lo, hi]. */
  lemma AveragesWithin(frames: seq<FrameScore>, lo: real, hi: real)
    requires DistinctKeys(frames)
    requires forall i, k :: 0 <= i < |frames| && Get(frames[i].keyPointScores, k).Some? ==>
      lo <= Get(frames[i].keyPointScores, k).value <= hi
    ensures forall k :: Get(Averages(Streams(frames)), k).Some? ==> lo <= Get(Averages(Streams(frames)), k).value <= hi
  {
    forall k | Get(Averages(Streams(frames)), k).Some?
      ensures lo <= Get(Averages(Streams(frames)), k).value <= hi
    {
      AverageWithin(frames, k, lo, hi);
    }
  }

  /** Every score in the result lies in [0, 100]. */
  lemma ComparisonBounds(dist: Distance, referencePose: seq<Frame>, userPose: seq<Frame>, shotType: ShotType)
    requires IsDistance(dist) && |referencePose| > 0 && |userPose| > 0
    ensures var r := Comparison(dist, referencePose, userPose, shotType).result;
      && 0.0 <= r.overallScore <= 100.0
      && (forall k :: Get(r.keyPointScores, k).Some? ==> 0.0 <= Get(r.keyPointScores, k).value <= 100.0)
      && 0.0 <= r.details.positionAccuracy <= 100.0
      && 0.0 <= r.details.timing <= 100.0
      && 0.0 <= r.details.stability <= 100.0
  {
    var reference, user, names := Normalized(referencePose), Normalized(userPose), Important(shotType);
    var frames := FrameResults(dist, reference, user, names);
    ComparisonParts(dist, referencePose, userPose, shotType);
    FrameOverallsBounds(dist, reference, user, names);
    OverallScoreBetween(Overalls(frames), 0.0, 100.0);
    FrameKeyScoresBounds(dist, reference, user, names);
    FrameResultsDistinct(dist, reference, user, names);
    AveragesWithin(frames, 0.0, 100.0);
    DetailsBounds(dist, reference, user);
  }

  /** Every frame score lies in [0, 100]. */
  lemma FrameOverallsBounds(dist: Distance, reference: seq<Frame>, user: seq<Frame>, names: seq<string>)
    requires IsDistance(dist)
    ensures var scores := Overalls(FrameResults(dist, reference, user, names));
      forall i :: 0 <= i < |scores| ==> 0.0 <= scores[i] <= 100.0
  {
    var frames := FrameResults(dist, reference, user, names);
    forall i | 0 <= i < |frames|
      ensures 0.0 <= Overalls(frames)[i] <= 100.0
    {
      ComparedBounds(dist, reference[i], user[i], names);
    }
  }

  /** Every keypoint score of every frame lies in [0, 100]. */
  lemma FrameKeyScoresBounds(dist: Distance, reference: seq<Frame>, user: seq<Frame>, names: seq<string>)
    requires IsDistance(dist)
    ensures var frames := FrameResults(dist, reference, user, names);
      forall i, k :: 0 <= i < |frames| && Get(frames[i].keyPointScores, k).Some? ==>
        0.0 <= Get(frames[i].keyPointScores, k).value <= 100.0
  {
    var frames := FrameResults(dist, reference, user, names);
    forall i | 0 <= i < |frames|
      ensures forall k :: Get(frames[i].keyPointScores, k).Some? ==> 0.0 <= Get(frames[i].keyPointScores, k).value <= 100.0
    {
      ComparedBounds(dist, reference[i], user[i], names);
    }
  }

  /** A recording compared with itself scores 100 on every reported
      keypoint. */
  lemma KeyScoresAgainstItself(dist: Distance, poses: seq<Frame>, shotType: ShotType)
    requires IsDistance(dist) && |poses| > 0
    ensures var r := Comparison(dist, poses, poses, shotType).result;
      forall k :: Get(r.keyPointScores, k).Some? ==> Get(r.keyPointScores, k).value == 100.0
  {
    var normalized, names := Normalized(poses), Important(shotType);
    var frames := FrameResults(dist, normalized, normalized, names);
    ComparisonParts(dist, poses, poses, shotType);
    FrameResultsDistinct(dist, normalized, normalized, names);
    forall i | 0 <= i < |frames|
      ensures forall k :: Get(frames[i].keyPointScores, k).Some? ==> 100.0 <= Get(frames[i].keyPointScores, k).value <= 100.0
    {
      ComparedAgainstItself(dist, normalized[i], names);
    }
    AveragesWithin(frames, 100.0, 100.0);
  }

  /** A recording compared with itself scores 100 overall when every
      compared frame has a confident keypoint at some position of the
      shot's list. */
  lemma OverallAgainstItself(dist: Distance, poses: seq<Frame>, shotType: ShotType)
    requires IsDistance(dist) && |poses| > 0
    requires forall i :: 0 <= i < |Normalized(poses)| ==>
      exists k :: 0 <= k < |Important(shotType)| && Qualifies(Normalized(poses)[i], Normalized(poses)[i], k)
    ensures Comparison(dist, poses, poses, shotType).result.overallScore == 100.0
  {
    var normalized, names := Normalized(poses), Important(shotType);
    var frames := FrameResults(dist, normalized, normalized, names);
    ComparisonParts(dist, poses, poses, shotType);
    forall i | 0 <= i < |frames|
      ensures Overalls(frames)[i] == 100.0
    {
      ComparedAgainstItself(dist, normalized[i], names);
    }
    OverallScoreConstant(Overalls(frames), 100.0);
  }
}
