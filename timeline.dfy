/** Timeline normalisation: a recording longer than the frame budget is
    decimated to exactly that many frames by picking, for output frame i,
    the source frame floor(i * n / 60). Frames are copied, never blended. */
module Timeline {
  import opened PoseTypes

  const TargetFrames: nat := 60

  /** `Math.floor(i * (n / 60))`, taken over exact reals. */
  function SourceIndex(i: nat, n: nat): nat
  {
    i * n / TargetFrames
  }

  /** For output index i < 60 the picked source index lies inside a
      recording of n frames. */
  lemma SourceIndexInBounds(i: nat, n: nat)
    requires i < TargetFrames && 0 < n
    ensures SourceIndex(i, n) < n
  {
    assert i * n <= (TargetFrames - 1) * n;
    assert i * n < TargetFrames * n;
  }

  /** The picked source index never decreases as the output index grows, and
      the first output frame is the first source frame. */
  lemma SourceIndexMonotone(i: nat, j: nat, n: nat)
    requires i <= j
    ensures SourceIndex(i, n) <= SourceIndex(j, n)
    ensures SourceIndex(0, n) == 0
  {
    assert i * n <= j * n;
  }

  /** What `normalizeTimeline` returns. */
  function Normalized(poseData: seq<Frame>): seq<Frame>
  {
    if |poseData| <= TargetFrames then poseData
    else seq(TargetFrames, i requires 0 <= i < TargetFrames =>
               SourceIndexInBounds(i, |poseData|); poseData[SourceIndex(i, |poseData|)])
  }

  method NormalizeTimeline(poseData: seq<Frame>) returns (normalized: seq<Frame>)
    ensures normalized == Normalized(poseData)
    ensures |poseData| <= TargetFrames ==> normalized == poseData
    ensures |poseData| > TargetFrames ==> |normalized| == TargetFrames
    ensures forall i :: 0 <= i < |normalized| ==> normalized[i] in poseData
  {
    var targetFrames := TargetFrames;
    var sourceFrames := |poseData|;
    if sourceFrames <= targetFrames {
      return poseData;
    }
    normalized := [];
    var i := 0;
    while i < targetFrames
      invariant 0 <= i <= targetFrames
      invariant normalized == Normalized(poseData)[..i]
    {
      var sourceIndex := i * sourceFrames / targetFrames;
      NormalizedStep(poseData, i);
      normalized := normalized + [poseData[sourceIndex]];
      i := i + 1;
    }
    NormalizedFromSource(poseData);
  }

  lemma NormalizedStep(poseData: seq<Frame>, i: nat)
    requires |poseData| > TargetFrames && i < TargetFrames
    ensures SourceIndex(i, |poseData|) < |poseData|
    ensures Normalized(poseData)[..i + 1] == Normalized(poseData)[..i] + [poseData[SourceIndex(i, |poseData|)]]
  {
    SourceIndexInBounds(i, |poseData|);
  }

  /** Every normalised frame is a frame of the recording. */
  lemma NormalizedFromSource(poseData: seq<Frame>)
    ensures forall i :: 0 <= i < |Normalized(poseData)| ==> Normalized(poseData)[i] in poseData
  {
    if |poseData| > TargetFrames {
      forall i | 0 <= i < TargetFrames
        ensures Normalized(poseData)[i] in poseData
      {
        SourceIndexInBounds(i, |poseData|);
      }
    }
  }

  /** Every output frame is the source frame floor(i * n / 60), at an index
      inside the source: no frame is synthesised. */
  lemma NormalizedPicksSourceFrames(poseData: seq<Frame>, i: nat)
    requires |poseData| > TargetFrames && i < TargetFrames
    ensures |Normalized(poseData)| == TargetFrames
    ensures SourceIndex(i, |poseData|) < |poseData|
    ensures Normalized(poseData)[i] == poseData[SourceIndex(i, |poseData|)]
  {
    SourceIndexInBounds(i, |poseData|);
  }

  /** Normalising twice is normalising once. */
  lemma NormalizeIdempotent(poseData: seq<Frame>)
    ensures Normalized(Normalized(poseData)) == Normalized(poseData)
    ensures |Normalized(poseData)| <= TargetFrames
    ensures |Normalized(poseData)| == 0 <==> |poseData| == 0
  {
  }
}
