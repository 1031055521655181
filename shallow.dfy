/** Shallow calibration: `PerspectiveWarper.warp_shallow`. The first frame with
    exactly four anchors fixes one homography; every frame of the video is then
    warped with it. */
module ShallowCalibration {
  import opened WarperTypes
  import opened AnchorOrdering
  import opened TargetCanvas

  /** The index of the lowest frame with exactly four anchors, if any. */
  function FirstAnchoredFrame(vision: Vision, video: seq<Frame>): (r: Option<nat>)
    ensures r.None? <==> forall i :: 0 <= i < |video| ==> !HasFourAnchors(vision, video[i])
    ensures r.Some? ==> r.value < |video| && HasFourAnchors(vision, video[r.value])
    ensures r.Some? ==> forall j :: 0 <= j < r.value ==> !HasFourAnchors(vision, video[j])
  {
    if video == [] then None
    else if HasFourAnchors(vision, video[0]) then Some(0)
    else match FirstAnchoredFrame(vision, video[1..])
      case None => None
      case Some(k) => Some(k + 1)
  }

  /** A frame with four anchors and none before it is the one the search stops at. */
  lemma {:induction false} FirstAnchoredFrameIsLowest(vision: Vision, video: seq<Frame>, k: nat)
    requires k < |video| && HasFourAnchors(vision, video[k])
    requires forall j :: 0 <= j < k ==> !HasFourAnchors(vision, video[j])
    ensures FirstAnchoredFrame(vision, video) == Some(k)
  {
    if k > 0 {
      assert !HasFourAnchors(vision, video[0]);
      forall j | 0 <= j < k - 1 ensures !HasFourAnchors(vision, video[1..][j]) {
        assert video[1..][j] == video[j + 1];
      }
      FirstAnchoredFrameIsLowest(vision, video[1..], k - 1);
    }
  }

  /** The search phase's result: the homography of the first frame with four
      anchors, or none. */
  function CalibrationMatrix(vision: Vision, video: seq<Frame>, frameSize: Size): Option<Matrix> {
    match FirstAnchoredFrame(vision, video)
    case None => None
    case Some(k) => Some(FrameTransform(vision, video[k], frameSize))
  }

  /** Every frame warped with the one matrix `m`, in frame order. */
  function WarpAll(vision: Vision, video: seq<Frame>, m: Matrix, frameSize: Size): seq<Frame> {
    seq(|video|, i requires 0 <= i < |video| => vision.warpPerspective(video[i], m, frameSize))
  }

  /** What one `warp_shallow` run hands to its writer. */
  function ShallowOutcome(vision: Vision, videoExists: bool, video: seq<Frame>, frameSize: Size): (r: WarpOutcome)
    ensures r == PathMissing <==> !videoExists
    ensures r.Written? ==> |r.frames| == |video| && |video| > 0
  {
    if !videoExists then PathMissing
    else match CalibrationMatrix(vision, video, frameSize)
      case None => AnchorsNotFound
      case Some(m) => Written(WarpAll(vision, video, m, frameSize))
  }

  /** A sequence holding, at each index, that frame warped with the homography
      of the first frame with four anchors is what a successful run writes. */
  lemma ShallowOutcomeWritten(vision: Vision, video: seq<Frame>, frameSize: Size, k: nat, written: seq<Frame>)
    requires FirstAnchoredFrame(vision, video) == Some(k)
    requires |written| == |video|
    requires forall j :: 0 <= j < |video| ==>
               written[j] == vision.warpPerspective(video[j], FrameTransform(vision, video[k], frameSize), frameSize)
    ensures ShallowOutcome(vision, true, video, frameSize) == Written(written)
  {
    assert written == WarpAll(vision, video, FrameTransform(vision, video[k], frameSize), frameSize);
  }

  /** `warp_shallow(video_file_path, frame_size)`. The video is the sequence of
      its frames, whether its path exists is a parameter, and the writer is a
      sequence the second loop only appends to. */
  method WarpShallow(vision: Vision, videoExists: bool, video: seq<Frame>, frameSize: Size)
    returns (outcome: WarpOutcome)
    ensures outcome == ShallowOutcome(vision, videoExists, video, frameSize)
  {
    if !videoExists {
      return PathMissing;
    }
    var numFrames := |video|;
    var anchorPointsFound := false;
    var warpingMatrix: Option<Matrix> := None;
    ghost var calibrationIdx := 0;

    // search for the first frame with four anchors
    for frameIdx := 0 to numFrames
      invariant !anchorPointsFound && warpingMatrix.None?
      invariant forall j :: 0 <= j < frameIdx ==> !HasFourAnchors(vision, video[j])
    {
      var anchorPoints := FindAnchorPoints(vision, video[frameIdx]);
      if |anchorPoints| == 4 {
        anchorPointsFound := true;
        var warpedAnchorPoints := DestinationCorners(frameSize);
        warpingMatrix := Some(vision.perspectiveTransform(anchorPoints, warpedAnchorPoints));
        calibrationIdx := frameIdx;
        break;
      }
    }
    if !anchorPointsFound {
      return AnchorsNotFound;
    }
    FirstAnchoredFrameIsLowest(vision, video, calibrationIdx);

    // the video is rewound and every frame is warped with the one matrix
    var videoWriter: seq<Frame> := [];
    for frameIdx := 0 to numFrames
      invariant |videoWriter| == frameIdx
      invariant forall j :: 0 <= j < frameIdx ==>
                  videoWriter[j] == vision.warpPerspective(video[j], warpingMatrix.value, frameSize)
    {
      var frame := vision.warpPerspective(video[frameIdx], warpingMatrix.value, frameSize);
      videoWriter := videoWriter + [frame];
    }
    ShallowOutcomeWritten(vision, video, frameSize, calibrationIdx, videoWriter);
    outcome := Written(videoWriter);
  }

  // ---------------------------------------------------------------------
  // Properties of a run

  /** A missing video path ends the run before anything is opened. */
  lemma ShallowMissingPath(vision: Vision, video: seq<Frame>, frameSize: Size)
    ensures ShallowOutcome(vision, false, video, frameSize) == PathMissing
  {
  }

  /** No writer is created exactly when no frame yields four anchors. */
  lemma ShallowNotFoundIffNoAnchoredFrame(vision: Vision, video: seq<Frame>, frameSize: Size)
    ensures ShallowOutcome(vision, true, video, frameSize) == AnchorsNotFound <==>
            forall i :: 0 <= i < |video| ==> !HasFourAnchors(vision, video[i])
  {
  }

  /** When some frame yields four anchors, every frame is written, in order,
      warped with the homography of the lowest such frame; frames before the
      calibration frame included. */
  lemma ShallowWarpsEveryFrameWithFirstCalibration(vision: Vision, video: seq<Frame>, frameSize: Size, k: nat)
    requires k < |video| && HasFourAnchors(vision, video[k])
    requires forall j :: 0 <= j < k ==> !HasFourAnchors(vision, video[j])
    ensures ShallowOutcome(vision, true, video, frameSize).Written?
    ensures |ShallowOutcome(vision, true, video, frameSize).frames| == |video|
    ensures forall i :: 0 <= i < |video| ==>
              ShallowOutcome(vision, true, video, frameSize).frames[i] ==
              vision.warpPerspective(video[i], FrameTransform(vision, video[k], frameSize), frameSize)
  {
    FirstAnchoredFrameIsLowest(vision, video, k);
  }

  /** Frames after the calibration frame do not influence the homography: any
      video that agrees up to and including that frame calibrates the same. */
  lemma {:induction false} ShallowIgnoresLaterFrames(vision: Vision, video: seq<Frame>, other: seq<Frame>, frameSize: Size, k: nat)
    requires FirstAnchoredFrame(vision, video) == Some(k)
    requires k < |other| && video[..k + 1] == other[..k + 1]
    ensures FirstAnchoredFrame(vision, other) == Some(k)
    ensures CalibrationMatrix(vision, other, frameSize) == CalibrationMatrix(vision, video, frameSize)
  {
    forall j | 0 <= j <= k ensures other[j] == video[j] {
      assert other[j] == other[..k + 1][j];
    }
    FirstAnchoredFrameIsLowest(vision, other, k);
  }
}
