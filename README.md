# Pose comparison for badminton shots

This project models the analysis core of a badminton coaching app: the
`PoseComparisonService` class. The service compares a user's recording of a
shot (smash, serve, clear, drop or net) with a reference recording. A
recording is a list of frames. Each frame is a list of keypoints: a position
in normalised image coordinates plus the pose detector's confidence in it.

The comparison works in stages:

1. It rejects an empty recording.
2. It decimates each recording to at most 60 frames by picking frame
   `floor(i * n / 60)`.
3. It scores the first `min(n, m)` frame pairs against the shot's list of
   important keypoints. Drop and net have no list of their own, so they use
   the smash list.
4. It combines the frame scores into a midpoint-weighted overall score.
5. It averages each keypoint's scores over the frames in which that keypoint
   was scored.
6. It computes three detail metrics: position accuracy, timing and stability.
7. It derives an ordered list of feedback notes and an ordered list of
   recommendations.

Modules follow the stages:

| module | what it holds |
|---|---|
| `Basics` | option type, min/max/abs, sums and means |
| `OrderedMaps` | a JavaScript object with string keys, modelled as an insertion-ordered list of pairs. This is the order `Object.entries` reports for keys that are not array indices, and the service never uses an index as a key |
| `PoseTypes` | keypoints, frames and shot types |
| `Timeline` | `normalizeTimeline` |
| `ImportantKeypoints` | the per-shot keypoint lists and the smash fallback |
| `FrameComparison` | `calculateKeypointDistance`, `compareFrames` |
| `SequenceScore` | `calculateOverallScore` |
| `DetailMetrics` | `analyzeDetails`, `calculatePositionAccuracy`, `calculateTiming`, `calculateStability`, `calculateFrameVariation` |
| `Guidance` | `getBodyPartKorean`, `generateFeedback`, `generateRecommendations` |
| `PoseComparisonService` | `comparePoses` |

Every operation that loops or accumulates in the source is a `method` with
the same loop. Each is proved equal to a specification function (`Normalized`,
`Compared`, `OverallScore`, `Stability`, `Feedback`, …). The lemmas state what
the service promises about those functions.

Some choices in the model:

- **Numbers.** Coordinates and scores are exact `real`s.
- **Distance.** The frame stages take any keypoint distance `dist` as a
  parameter. The bound and self-comparison lemmas rely only on `IsDistance`:
  the distance is non-negative and 0 between coincident positions.
  `FrameComparison.Euclidean(sqrt)` is the source's
  `calculateKeypointDistance`. `EuclideanIsDistance` proves it satisfies
  `IsDistance` for any `sqrt` that is non-negative and maps 0 to 0.
- **Positional matching.** Keypoints are matched to names by position, as in
  the source. The k-th name of the list is scored from the k-th keypoint of
  each frame, whatever that keypoint is.
- **Messages.** Feedback notes and recommendations are tags (`Excellent`,
  `CheckPosition(bodyPart)`, `RaiseShoulder`, …), not the Korean strings. The
  body-part labels are kept literally.
- **Self-comparison.** One might expect a recording compared with itself to
  score 100 overall and 100 on stability. The code gives less, and the model
  follows the code:
  - stability depends on the user's motion alone. It is 100 for a still pose
    (`StabilityOfStillPose`);
  - the overall score is 100 when every compared frame has a confident
    keypoint at a listed position (`OverallAgainstItself`).

## Model

| member | source | states |
|---|---|---|
| `Timeline.NormalizeTimeline` | src/services/analysis/PoseComparisonService.ts:100-118 | returns `Normalized(poseData)`. A recording of at most 60 frames comes back unchanged; a longer one becomes exactly 60 frames, each of them a frame of the input |
| `Timeline.SourceIndexInBounds` | src/services/analysis/PoseComparisonService.ts:110-114 | for output index i < 60 and n > 0 frames, the picked index `floor(i * n / 60)` is below n |
| `Timeline.SourceIndexMonotone` | src/services/analysis/PoseComparisonService.ts:112-113 | the picked index never decreases as i grows, and output frame 0 is source frame 0 |
| `Timeline.NormalizedPicksSourceFrames` | src/services/analysis/PoseComparisonService.ts:109-117 | above 60 frames, output frame i is exactly `poseData[floor(i * n / 60)]`, at an index inside the recording |
| `Timeline.NormalizeIdempotent` | src/services/analysis/PoseComparisonService.ts:100-118 | normalising twice equals normalising once; the result has at most 60 frames and is empty exactly when the input is |
| `ImportantKeypoints.Important` | src/services/analysis/PoseComparisonService.ts:51 | the selected list has 6 to 10 distinct names, is a prefix of the smash list, and is the smash list for drop and net |
| `FrameComparison.EuclideanIsDistance` | src/services/analysis/PoseComparisonService.ts:151-155 | with a square root that is non-negative and maps 0 to 0, the keypoint distance is non-negative, 0 at coincident positions, and symmetric |
| `FrameComparison.ScoreForDistance` | src/services/analysis/PoseComparisonService.ts:137 | `max(0, 100 - 100 * distance)` lies in [0, 100] for a non-negative distance and is 100 at distance 0 |
| `FrameComparison.KeypointScoreBounds` | src/services/analysis/PoseComparisonService.ts:136-137 | for a genuine distance, a keypoint pair's score lies in [0, 100] and is 100 when the two positions coincide |
| `OrderedMaps.PutKeys` | src/services/analysis/PoseComparisonService.ts:139 | assigning to a key keeps the existing keys in their order and adds the key last only when it is new |
| `FrameComparison.ScoreForDistanceMonotone` | src/services/analysis/PoseComparisonService.ts:137 | a larger distance never scores higher |
| `FrameComparison.KeypointScoreExample` | src/services/analysis/PoseComparisonService.ts:136-137 | a keypoint 0.1 away from its reference scores 90 |
| `FrameComparison.CompareFrames` | src/services/analysis/PoseComparisonService.ts:120-149 | returns `Compared(...)`. Every key is on the given name list, and for a genuine distance the frame score lies in [0, 100] |
| `FrameComparison.ComparedFromRecorded` | src/services/analysis/PoseComparisonService.ts:129-146 | the frame score is the loop's final total divided by its final count (0 for no count) |
| `FrameComparison.RecordedMapStep` | src/services/analysis/PoseComparisonService.ts:135-139 | visiting a qualifying index puts its score under its name into the map left by the earlier indices, giving the map of the assignments made so far |
| `FrameComparison.RecordedMapSkip` | src/services/analysis/PoseComparisonService.ts:130-135 | visiting an index that does not qualify leaves the map of the assignments made so far unchanged |
| `FrameComparison.TotalIsRecorded` | src/services/analysis/PoseComparisonService.ts:140 | after n names, the running total is the sum of the scores assigned so far |
| `FrameComparison.CountIsRecorded` | src/services/analysis/PoseComparisonService.ts:141 | after n names, the running count is the number of scores assigned so far |
| `FrameComparison.ComparedScoreOf` | src/services/analysis/PoseComparisonService.ts:129-142 | with distinct names, the j-th name has a score exactly when index j is inside both frames and both confidences exceed 0.3, and the score is `max(0, 100 - 100 * dist)` of the j-th keypoints |
| `FrameComparison.RecordedScoreOf` | src/services/analysis/PoseComparisonService.ts:129-144 | after visiting n distinct names, the j-th has a score exactly when j < n and index j qualifies |
| `FrameComparison.ComparedKeys` | src/services/analysis/PoseComparisonService.ts:139 | the frame's keys are names from the list, each present once |
| `FrameComparison.ToMapValues` | src/services/analysis/PoseComparisonService.ts:139 | every score in the frame's map is one that was assigned to that name |
| `FrameComparison.ComparedBounds` | src/services/analysis/PoseComparisonService.ts:137-146 | for a genuine distance, the frame score and every keypoint score lie in [0, 100] |
| `FrameComparison.RecordedNonEmpty` | src/services/analysis/PoseComparisonService.ts:146 | some score is recorded exactly when some index qualifies |
| `FrameComparison.ComparedWithoutQualifying` | src/services/analysis/PoseComparisonService.ts:146 | a frame pair in which no listed index qualifies records no keypoint score and scores 0 |
| `FrameComparison.ComparedAgainstItself` | src/services/analysis/PoseComparisonService.ts:120-149 | a frame compared with itself scores 100 on every recorded keypoint, and scores 100 overall if some index qualifies, 0 otherwise |
| `SequenceScore.CalculateOverallScore` | src/services/analysis/PoseComparisonService.ts:157-177 | returns `OverallScore(frameScores)`: 0 for no frames, otherwise the midpoint-weighted sum divided by the total weight |
| `SequenceScore.WeightBounds` | src/services/analysis/PoseComparisonService.ts:164-167 | every weight lies in [0.5, 1] |
| `SequenceScore.TotalWeightPositive` | src/services/analysis/PoseComparisonService.ts:174 | the total weight of n > 0 frames is at least n / 2, so the division is always taken |
| `SequenceScore.WeightedSumBounds` | src/services/analysis/PoseComparisonService.ts:170-172 | with scores in [lo, hi] and non-negative weights, the weighted sum lies between lo and hi times the total weight |
| `SequenceScore.OverallScoreBetween` | src/services/analysis/PoseComparisonService.ts:157-177 | for a non-empty list with every score in [lo, hi], the overall score lies in [lo, hi]; in particular it lies between the minimum and the maximum |
| `SequenceScore.OverallScoreConstant` | src/services/analysis/PoseComparisonService.ts:157-177 | a non-empty list of equal scores c gives c |
| `SequenceScore.OverallScoreSingle` | src/services/analysis/PoseComparisonService.ts:157-177 | a one-frame list gives that frame's score |
| `SequenceScore.OverallScoreRange` | src/services/analysis/PoseComparisonService.ts:158 | scores in [0, 100] give an overall score in [0, 100], and the empty list gives 0 |
| `DetailMetrics.CalculatePositionAccuracy` | src/services/analysis/PoseComparisonService.ts:196-211 | returns the mean smash-list frame score over the first min(n, m) pairs, or 0 when there are none |
| `DetailMetrics.PositionAccuracyBounds` | src/services/analysis/PoseComparisonService.ts:196-211 | position accuracy lies in [0, 100], and is 0 when either recording is empty |
| `DetailMetrics.PositionAccuracyAgainstItself` | src/services/analysis/PoseComparisonService.ts:196-211 | a non-empty recording compared with itself has accuracy 100 when every frame has a confident keypoint among the smash positions |
| `DetailMetrics.TimingBounds` | src/services/analysis/PoseComparisonService.ts:213-224 | timing lies in [0, 100], is positive for two non-empty recordings, and is 100 exactly when the lengths are equal |
| `DetailMetrics.TimingSymmetric` | src/services/analysis/PoseComparisonService.ts:221 | swapping the recordings does not change the timing |
| `DetailMetrics.CalculateFrameVariation` | src/services/analysis/PoseComparisonService.ts:250-271 | returns the mean acceleration over the indices confident in all three frames, or 0 when none is |
| `DetailMetrics.TotalIsSumOfAccelerations` | src/services/analysis/PoseComparisonService.ts:259-266 | after n indices, the running variation total is the sum of the accelerations of the steady indices |
| `DetailMetrics.CountIsNumberOfAccelerations` | src/services/analysis/PoseComparisonService.ts:266 | after n indices, the running count is the number of steady indices |
| `DetailMetrics.AccelerationsNonEmpty` | src/services/analysis/PoseComparisonService.ts:259 | an acceleration is counted exactly when some index is confident in all three frames |
| `DetailMetrics.FrameVariationProperties` | src/services/analysis/PoseComparisonService.ts:250-271 | a frame variation is never negative, and is 0 when no index is confident in all three frames |
| `DetailMetrics.CalculateStability` | src/services/analysis/PoseComparisonService.ts:226-248 | returns 100 for fewer than three frames, otherwise `max(0, 100 - 50 * mean variation)` over the windows of three consecutive frames |
| `DetailMetrics.VariationSumIsSum` | src/services/analysis/PoseComparisonService.ts:233-241 | after n windows, the running total is the sum of the first n window variations |
| `DetailMetrics.StabilityBounds` | src/services/analysis/PoseComparisonService.ts:244-247 | stability lies in [0, 100] |
| `DetailMetrics.StabilityOfStillPose` | src/services/analysis/PoseComparisonService.ts:226-248 | a user holding one pose in every frame has stability 100 |
| `DetailMetrics.AnalyzeDetails` | src/services/analysis/PoseComparisonService.ts:179-194 | returns position accuracy, timing and stability as defined above; the shot type plays no part |
| `DetailMetrics.DetailsBounds` | src/services/analysis/PoseComparisonService.ts:179-194 | all three detail metrics lie in [0, 100] |
| `Guidance.BodyPartLabel` | src/services/analysis/PoseComparisonService.ts:347-362 | a name in the table reads as its Korean label, and the label differs from the name; any other name reads as itself |
| `Guidance.BodyPartLabelExamples` | src/services/analysis/PoseComparisonService.ts:352 | `right_elbow` reads as its label and `nose` as itself |
| `Guidance.GenerateFeedback` | src/services/analysis/PoseComparisonService.ts:273-308 | returns `Feedback(...)`: the tier note, the timing note, the stability note, then one note per low-scoring entry in map order |
| `Guidance.FeedbackShape` | src/services/analysis/PoseComparisonService.ts:278-305 | the feedback opens with exactly one tier note (at least 80, at least 60, below 60). The timing note comes next exactly when timing < 70, then the stability note exactly when stability < 70. Every later note names a body part |
| `Guidance.PositionNotesExactly` | src/services/analysis/PoseComparisonService.ts:300-305 | a body-part note appears exactly when some entry scoring below 60 has that label, and the position notes are all body-part notes |
| `Guidance.FeedbackPositionNotes` | src/services/analysis/PoseComparisonService.ts:300-305 | the whole feedback names a body part exactly when an entry scoring below 60 has that label |
| `Guidance.GenerateRecommendations` | src/services/analysis/PoseComparisonService.ts:310-345 | returns `Recommendations(...)`: the shot-specific lines, then the stability line, then the timing line |
| `Guidance.ShotRecommendationsExactly` | src/services/analysis/PoseComparisonService.ts:318-333 | smash adds the shoulder line and the elbow line each exactly when that score is present, non-zero and below 70. Serve and clear each add their one line. Drop and net add none |
| `Guidance.RecommendationsExactly` | src/services/analysis/PoseComparisonService.ts:318-342 | each of the six lines appears exactly under its condition |
| `Guidance.RecommendationsOrder` | src/services/analysis/PoseComparisonService.ts:318-342 | at most four lines, none repeated. The timing line, when present, is last. Drop and net get only the stability and timing lines |
| `Guidance.ZeroScoreSuppressesRecommendation` | src/services/analysis/PoseComparisonService.ts:320 | a right-shoulder score of exactly 0 gives no shoulder line |
| `PoseComparisonService.ComparePoses` | src/services/analysis/PoseComparisonService.ts:37-98 | returns `Comparison(...)`: `InvalidPoseData` when either recording is empty, otherwise the result assembled from the stages above |
| `PoseComparisonService.ScoreFrames` | src/services/analysis/PoseComparisonService.ts:57-73 | scores exactly the first min(n, m) normalised frame pairs, keeps their frame scores in order, and collects each keypoint's scores across them |
| `PoseComparisonService.PushEntries` | src/services/analysis/PoseComparisonService.ts:67-72 | pushing one frame's entries equals the specification `Accumulate`: create the list if missing, then append |
| `PoseComparisonService.AverageStreams` | src/services/analysis/PoseComparisonService.ts:79-82 | each collected list becomes its mean, keys in collection order |
| `PoseComparisonService.StreamsNonEmpty` | src/services/analysis/PoseComparisonService.ts:68-71 | every collected list holds at least one score, so no average divides by zero |
| `PoseComparisonService.ComparisonRejectsEmpty` | src/services/analysis/PoseComparisonService.ts:42-44 | the comparison fails exactly when either recording is empty |
| `PoseComparisonService.StreamsGet` | src/services/analysis/PoseComparisonService.ts:59-73 | a keypoint's collected list holds exactly its scores from the frames that scored it, in frame order; a keypoint never scored has no list |
| `PoseComparisonService.AveragesGet` | src/services/analysis/PoseComparisonService.ts:79-82 | each collected keypoint is mapped to the mean of its own list, and no other key appears |
| `PoseComparisonService.KeyScoreIsMean` | src/services/analysis/PoseComparisonService.ts:59-82 | the reported score of a keypoint is the mean over only the frames in which it was scored, and it is absent if it was scored in none |
| `PoseComparisonService.KeyScoreOfListedName` | src/services/analysis/PoseComparisonService.ts:51-82 | the score of the j-th name on the shot's list is the mean of the scores of the frame pairs in which index j qualifies |
| `PoseComparisonService.CollectedQualified` | src/services/analysis/PoseComparisonService.ts:59-71 | over the first n frame pairs, the j-th name collects one score per pair in which index j qualifies |
| `PoseComparisonService.ComparisonKeys` | src/services/analysis/PoseComparisonService.ts:51-82 | every reported keypoint is on the shot's list (the smash list for drop and net), and each is reported once |
| `PoseComparisonService.ComparisonBounds` | src/services/analysis/PoseComparisonService.ts:37-98 | for a genuine distance, the overall score, every keypoint score and all three detail metrics lie in [0, 100] |
| `PoseComparisonService.KeyScoresAgainstItself` | src/services/analysis/PoseComparisonService.ts:37-98 | a recording compared with itself scores 100 on every reported keypoint |
| `PoseComparisonService.OverallAgainstItself` | src/services/analysis/PoseComparisonService.ts:37-98 | a recording compared with itself scores 100 overall when every compared frame has a confident keypoint at some position of the shot's list |

## Left out

- Floating point. Every number is an exact real, so IEEE rounding, NaN and
  infinities are not modelled. `Timeline.SourceIndex` computes
  `floor(i * (n / 60))` as the integer quotient `i * n / 60`; in floating
  point the product can round just below an integer.
- `Math.sqrt` is a parameter of `FrameComparison.CalculateKeypointDistance`,
  because its exact value is not computable. The stages above it take any
  distance; their bounds rely only on non-negativity and 0 at coincident
  positions.
- DetailMetrics.CalculateTiming: requires one recording to be non-empty.
  With both empty the source divides 0 by 0 and returns NaN. `comparePoses`
  never calls it that way.
- DetailMetrics.AnalyzeDetails: requires one recording to be non-empty, for
  the timing above.
- PoseComparisonService.AverageStreams: requires every collected list to be
  non-empty. In the source an empty list would average to NaN, and no list
  `comparePoses` builds is empty (`StreamsNonEmpty`).
- OrderedMaps: keys are kept in insertion order only. JavaScript lists
  array-index keys such as `"0"` first, in numeric order. Every key the
  service stores is a keypoint name, and none of them is an index.
- Guidance.GetBodyPartKorean: treats the table as a plain map. In JavaScript
  a name such as `constructor` would find a property inherited from
  `Object.prototype`, which the source does not intend.
- `comparePoses`'s default shot type (`smash`) is not modelled: Dafny has no
  default arguments, so every call passes the shot type.
- The unused `_shotType` parameters of `analyzeDetails` and
  `generateFeedback` are kept, but play no part.
- The frames' `timestamp` and optional `shotType` fields are carried but not
  used, as in the source.
- The message texts are tags, not strings. Emoji and Korean wording are
  presentation.
- Not modelled, because they are not part of the comparison core:
  - the pose producers, which wrap TensorFlow.js and MediaPipe and generate
    simulated keypoints with randomness and timers;
  - the React hooks, components, screens and navigation;
  - the constants file.
