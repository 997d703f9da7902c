/** The shapes the comparison consumes: one tracked landmark, the frame of
    landmarks a pose producer emits at one instant, and the shot being
    practised. A frame's keypoints are positional: index k is the k-th point
    of the producer's skeleton template. */
module PoseTypes {
  import opened Basics

  /** Normalised image-plane position of one landmark and the producer's
      confidence in it. */
  datatype Keypoint = Keypoint(x: real, y: real, confidence: real)

  /** `timestamp` is milliseconds since the start of the recording. */
  datatype Frame = Frame(keypoints: seq<Keypoint>, timestamp: real, shotType: Option<ShotType>)

  datatype ShotType = Smash | Serve | Clear | Drop | Net
}
