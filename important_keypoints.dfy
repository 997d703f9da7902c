/** The per-shot lists of keypoint names the service scores, and the lookup
    that falls back to the smash list for a shot without its own list. */
module ImportantKeypoints {
  import opened Basics
  import opened PoseTypes
  import opened OrderedMaps

  const SmashKeypoints: seq<string> := [
    "left_shoulder", "right_shoulder",
    "left_elbow", "right_elbow",
    "left_wrist", "right_wrist",
    "left_hip", "right_hip",
    "left_knee", "right_knee"
  ]

  const ServeKeypoints: seq<string> := [
    "left_shoulder", "right_shoulder",
    "left_elbow", "right_elbow",
    "left_wrist", "right_wrist",
    "left_hip", "right_hip"
  ]

  const ClearKeypoints: seq<string> := [
    "left_shoulder", "right_shoulder",
    "left_elbow", "right_elbow",
    "left_wrist", "right_wrist"
  ]

  /** `IMPORTANT_KEYPOINTS[shotType]`: only smash, serve and clear have an
      entry. */
  function ListFor(shot: ShotType): Option<seq<string>>
  {
    match shot
    case Smash => Some(SmashKeypoints)
    case Serve => Some(ServeKeypoints)
    case Clear => Some(ClearKeypoints)
    case Drop => None
    case Net => None
  }

  /** `IMPORTANT_KEYPOINTS[shotType] || IMPORTANT_KEYPOINTS.smash`. */
  function Important(shot: ShotType): (names: seq<string>)
    ensures 6 <= |names| <= 10 && NoDuplicates(names)
    ensures forall k :: 0 <= k < |names| ==> names[k] == SmashKeypoints[k]
    ensures shot == Drop || shot == Net ==> names == SmashKeypoints
  {
    ListFor(shot).GetOr(SmashKeypoints)
  }
}
