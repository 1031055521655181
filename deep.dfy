/** Deep calibration: `PerspectiveWarper.warp_deep`. Every frame must yield
    exactly four anchors; the whole video is scanned before any writer exists,
    and frame i is then warped with the homography of its own anchors. */
module DeepCalibration {
  import opened WarperTypes
  import opened AnchorOrdering
  import opened TargetCanvas
  import opened ShallowCalibration

  /** Every frame of the video yields exactly four anchors. */
  predicate AllFramesAnchored(vision: Vision, video: seq<Frame>) {
    forall i :: 0 <= i < |video| ==> HasFourAnchors(vision, video[i])
  }

  /** The anchor points of every frame, in frame order: what the scan stores
      in `video_anchor_points`. */
  function VideoAnchorPoints(vision: Vision, video: seq<Frame>): (r: seq<seq<Point>>)
    ensures |r| == |video|
  {
    if video == [] then []
    else [AnchorPoints(vision.detectMarkers(video[0]))] + VideoAnchorPoints(vision, video[1..])
  }

  lemma {:induction false} VideoAnchorPointsAt(vision: Vision, video: seq<Frame>, i: nat)
    requires i < |video|
    ensures VideoAnchorPoints(vision, video)[i] == AnchorPoints(vision.detectMarkers(video[i]))
  {
    if i > 0 {
      VideoAnchorPointsAt(vision, video[1..], i - 1);
    }
  }

  /** Every frame warped with the homography of its own anchors, in frame order. */
  function WarpEach(vision: Vision, video: seq<Frame>, frameSize: Size): seq<Frame> {
    var anchors := VideoAnchorPoints(vision, video);
    seq(|video|, i requires 0 <= i < |video| =>
      vision.warpPerspective(video[i], AnchorTransform(vision, anchors[i], frameSize), frameSize))
  }

  /** A sequence holding, at each index, that frame warped with the homography
      of its own anchors is what a successful run writes. */
  lemma DeepOutcomeWritten(vision: Vision, video: seq<Frame>, frameSize: Size, written: seq<Frame>)
    requires AllFramesAnchored(vision, video)
    requires |written| == |video|
    requires forall j :: 0 <= j < |video| ==>
               written[j] == vision.warpPerspective(video[j],
                 AnchorTransform(vision, VideoAnchorPoints(vision, video)[j], frameSize), frameSize)
    ensures DeepOutcome(vision, true, video, frameSize) == Written(written)
  {
    assert written == WarpEach(vision, video, frameSize);
  }

  /** What one `warp_deep` run hands to its writer. */
  function DeepOutcome(vision: Vision, videoExists: bool, video: seq<Frame>, frameSize: Size): (r: WarpOutcome)
    ensures r == PathMissing <==> !videoExists
    ensures r.Written? <==> videoExists && AllFramesAnchored(vision, video)
    ensures r.Written? ==> |r.frames| == |video|
  {
    if !videoExists then PathMissing
    else if !AllFramesAnchored(vision, video) then AnchorsNotFound
    else Written(WarpEach(vision, video, frameSize))
  }

  /** The scan of `warp_deep`: each frame's anchors are stored at its own
      index of `videoAnchorPoints`, and the scan stops at the first frame that
      does not yield exactly four. */
  method ScanAnchorPoints(vision: Vision, video: seq<Frame>, videoAnchorPoints: array<seq<Point>>)
    returns (anchorPointsFound: bool)
    requires videoAnchorPoints.Length == |video|
    modifies videoAnchorPoints
    ensures anchorPointsFound == AllFramesAnchored(vision, video)
    ensures anchorPointsFound ==> videoAnchorPoints[..] == VideoAnchorPoints(vision, video)
  {
    anchorPointsFound := true;
    ghost var expected := VideoAnchorPoints(vision, video);
    for frameIdx := 0 to |video|
      invariant anchorPointsFound
      invariant forall j :: 0 <= j < frameIdx ==> HasFourAnchors(vision, video[j])
      invariant forall j :: 0 <= j < frameIdx ==> videoAnchorPoints[j] == expected[j]
    {
      var anchorPoints := FindAnchorPoints(vision, video[frameIdx]);
      VideoAnchorPointsAt(vision, video, frameIdx);
      if |anchorPoints| == 4 {
        videoAnchorPoints[frameIdx] := anchorPoints;
      } else {
        anchorPointsFound := false;
        break;
      }
    }
    assert anchorPointsFound ==> videoAnchorPoints[..] == expected;
  }

  /** `warp_deep(video_file_path, frame_size)`. The per-frame anchors are kept
      in an array, as `video_anchor_points` is; the writer is a sequence the
      second loop only appends to, and it exists only once the scan succeeded. */
  method WarpDeep(vision: Vision, videoExists: bool, video: seq<Frame>, frameSize: Size)
    returns (outcome: WarpOutcome)
    ensures outcome == DeepOutcome(vision, videoExists, video, frameSize)
  {
    if !videoExists {
      return PathMissing;
    }
    var numFrames := |video|;
    var videoAnchorPoints := new seq<Point>[numFrames];
    var anchorPointsFound := ScanAnchorPoints(vision, video, videoAnchorPoints);
    if !anchorPointsFound {
      return AnchorsNotFound;
    }

    // the video is rewound and frame i is warped with frame i's own homography
    var videoWriter: seq<Frame> := [];
    for frameIdx := 0 to numFrames
      invariant |videoWriter| == frameIdx
      invariant forall j :: 0 <= j < frameIdx ==>
                  videoWriter[j] == vision.warpPerspective(video[j],
                    AnchorTransform(vision, videoAnchorPoints[j], frameSize), frameSize)
    {
      var warpedAnchorPoints := DestinationCorners(frameSize);
      var warpingMatrix := vision.perspectiveTransform(videoAnchorPoints[frameIdx], warpedAnchorPoints);
      var frame := vision.warpPerspective(video[frameIdx], warpingMatrix, frameSize);
      videoWriter := videoWriter + [frame];
    }
    DeepOutcomeWritten(vision, video, frameSize, videoWriter);
    outcome := Written(videoWriter);
  }

  // ---------------------------------------------------------------------
  // Properties of a run

  /** A missing video path ends the run before anything is opened. */
  lemma DeepMissingPath(vision: Vision, video: seq<Frame>, frameSize: Size)
    ensures DeepOutcome(vision, false, video, frameSize) == PathMissing
  {
  }

  /** All or nothing: no frame at all is written as soon as one frame yields
      a count other than four; otherwise every frame is written, in order,
      warped with the homography of its own anchors. */
  lemma DeepAllOrNothing(vision: Vision, video: seq<Frame>, frameSize: Size)
    ensures (exists i :: 0 <= i < |video| && !HasFourAnchors(vision, video[i])) <==>
            DeepOutcome(vision, true, video, frameSize) == AnchorsNotFound
    ensures DeepOutcome(vision, true, video, frameSize).Written? ==>
              |DeepOutcome(vision, true, video, frameSize).frames| == |video| &&
              forall i :: 0 <= i < |video| ==>
                DeepOutcome(vision, true, video, frameSize).frames[i] ==
                vision.warpPerspective(video[i], FrameTransform(vision, video[i], frameSize), frameSize)
  {
    forall i | 0 <= i < |video| {
      VideoAnchorPointsAt(vision, video, i);
    }
  }

  /** An empty video is the one input the two modes treat differently without
      any frame to look at: the deep scan succeeds vacuously and creates a
      writer that receives no frame, while the shallow search finds nothing. */
  lemma EmptyVideo(vision: Vision, frameSize: Size)
    ensures DeepOutcome(vision, true, [], frameSize) == Written([])
    ensures ShallowOutcome(vision, true, [], frameSize) == AnchorsNotFound
  {
    assert WarpEach(vision, [], frameSize) == [];
  }

  /** On a non-empty video, a deep success implies a shallow success that
      calibrates on frame 0, and the two modes write the same first frame. */
  lemma DeepSuccessImpliesShallowSuccess(vision: Vision, video: seq<Frame>, frameSize: Size)
    requires |video| > 0
    requires DeepOutcome(vision, true, video, frameSize).Written?
    ensures FirstAnchoredFrame(vision, video) == Some(0)
    ensures ShallowOutcome(vision, true, video, frameSize).Written?
    ensures ShallowOutcome(vision, true, video, frameSize).frames[0] ==
            DeepOutcome(vision, true, video, frameSize).frames[0]
  {
    FirstAnchoredFrameIsLowest(vision, video, 0);
  }

  /** When the detector reports the same four markers in every frame of a
      non-empty video, both modes write the same video. */
  lemma {:induction false} StaticMarkersModesAgree(vision: Vision, video: seq<Frame>, frameSize: Size, markers: seq<Marker>)
    requires |video| > 0 && |markers| == 4
    requires forall i :: 0 <= i < |video| ==> vision.detectMarkers(video[i]) == markers
    ensures DeepOutcome(vision, true, video, frameSize) == ShallowOutcome(vision, true, video, frameSize)
  {
    FirstAnchoredFrameIsLowest(vision, video, 0);
    var shallow := ShallowOutcome(vision, true, video, frameSize);
    var deep := DeepOutcome(vision, true, video, frameSize);
    assert deep.Written? && shallow.Written?;
    forall i | 0 <= i < |video| ensures deep.frames[i] == shallow.frames[i] {
      VideoAnchorPointsAt(vision, video, i);
      assert FrameTransform(vision, video[i], frameSize) == FrameTransform(vision, video[0], frameSize);
    }
    assert deep.frames == shallow.frames;
  }
}
