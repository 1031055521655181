# Perspective warper

This project is a Dafny model of `PerspectiveWarper` from SB-Autograder. The
warper rectifies recorded video. It finds four fiducial markers in a frame,
orders their centroids by marker id and builds a homography that sends them
to the corners of a target canvas. It then resamples frames through that
homography.

There are two calibration modes:

- **Shallow** (`warp_shallow`) uses one homography for the whole video. It
  comes from the first frame that shows exactly four markers.
- **Deep** (`warp_deep`) needs every frame to show four markers and warps
  each frame with its own homography.

The model is split into these files:

- `types.dfy` holds frames, points, markers and the run outcome. It also
  holds `Vision`, which bundles the three library calls the warper makes:
  marker detection, homography estimation and resampling. The model keeps
  them as uninterpreted total functions.
- `anchors.dfy` covers `find_anchor_points`. `SortById` is an insertion sort
  that serves as the reference for Python's stable `sorted`. The model proves
  that it sorts, permutes and keeps equal ids in detector order. It also
  proves that any arrangement with those properties equals `SortById`.
- `canvas.dfy` covers the destination corners and the homography built from
  a frame's anchors.
- `shallow.dfy` covers `warp_shallow`. `WarpShallow` is a method with the
  search loop and the writing loop of the source. It is proved equal to the
  specification function `ShallowOutcome`, and `FirstAnchoredFrame` gives the
  calibration frame.
- `deep.dfy` covers `warp_deep`:
  - `ScanAnchorPoints` is the scan loop. It fills an array, as
    `video_anchor_points` is filled.
  - `WarpDeep` is the writing loop, proved equal to `DeepOutcome`.
  - The remaining lemmas relate the two modes.

A run ends in one of three ways:

- `PathMissing` means the path check failed.
- `AnchorsNotFound` means calibration failed and no writer was created.
- `Written(frames)` means a writer was created. It holds the frames written
  to it, in order.

Behaviour of the code worth noting:

- Deep mode finishes its scan before it creates the writer. A frame without
  four markers therefore ends the run before any frame is written, so no
  partial output is left behind (`DeepAllOrNothing`).
- Duplicate marker ids are not rejected. With four markers the stable sort
  keeps equal ids in detector order (`SortByIdIsStable`), and the four points
  are handed to the homography estimator as they are.
- A count other than four is not a rejection inside `find_anchor_points`. The
  centroids come back in detector order, and the callers test the count
  (`AnchorPointsInDetectorOrder`).
- Nothing checks whether the four points can define a homography: the
  estimator is called on whatever four anchors were found.
- An empty video makes deep mode create a writer that receives no frames.
  Shallow mode returns without a writer (`EmptyVideo`).

## Model

| member | source | states |
|---|---|---|
| AnchorOrdering.FindAnchorPoints | src/preprocessing/warper.py:17-29 | the anchors are one centroid per detected marker; with exactly four markers they are sorted by id, otherwise they are in detector order (`AnchorPoints`); the result has four points exactly when the detector reports four markers |
| AnchorOrdering.Centroids | src/preprocessing/warper.py:21-24 | one centroid per marker, in detector order, each being that marker's own centroid |
| AnchorOrdering.SortById | src/preprocessing/warper.py:27 | the sort of the (id, centroid) pairs returns as many markers as it is given; `SortByIdIsStableSort` and `StableSortIsUnique` below show it is the stable ascending-id sort that Python's `sorted` performs |
| AnchorOrdering.HasFourAnchorsIsAnchorCount | src/preprocessing/warper.py:49-50 | the callers' `len(anchor_points) == 4` test on a frame (line 119 in deep mode is the same test) holds exactly when the frame's anchor list has four points, that is when the detector saw four markers |
| AnchorOrdering.AnchorPoints | src/preprocessing/warper.py:21-29 | returns as many anchor points as the detector reported markers |
| AnchorOrdering.AnchorPointsInDetectorOrder | src/preprocessing/warper.py:26-29 | with a marker count other than four, the anchors are the centroids in detector order, unsorted |
| AnchorOrdering.InsertByIdSorts | src/preprocessing/warper.py:27 | inserting a marker into an id-sorted list keeps it sorted, adds exactly that marker, and puts either that marker or the old head first |
| AnchorOrdering.SortByIdSorts | src/preprocessing/warper.py:27 | the id sort returns a permutation of its input in ascending id order |
| AnchorOrdering.FilterIdInsert | src/preprocessing/warper.py:27 | inserting a marker puts it ahead of the markers of the same id already in the list and leaves every id's markers otherwise in their order |
| AnchorOrdering.SortByIdIsStable | src/preprocessing/warper.py:27 | markers with equal ids keep their detector order through the sort, as Python's stable `sorted` keeps them |
| AnchorOrdering.SortByIdIsStableSort | src/preprocessing/warper.py:27 | the id sort is a stable sort: sorted, a permutation, and order-preserving for each id |
| AnchorOrdering.SortedSameFiltersEqual | src/preprocessing/warper.py:27 | two id-sorted lists that hold the same markers in the same order for every id are equal |
| AnchorOrdering.StableSortIsUnique | src/preprocessing/warper.py:27 | every stable id-ordering of the markers equals the model's sort, so the model's sort agrees with Python's `sorted` |
| AnchorOrdering.FourAnchorsInIdOrder | src/preprocessing/warper.py:26-27 | with four markers, the anchors are the centroids of the markers in stable ascending id order, whichever stable sort produced that order |
| AnchorOrdering.CentroidsSort | src/preprocessing/warper.py:27 | sorting the markers permutes their centroids and does not change them |
| AnchorOrdering.AnchorsArePermutedCentroids | src/preprocessing/warper.py:21-27 | the anchor points are a permutation of the detected centroids, whether or not they were sorted |
| AnchorOrdering.LowestIdAnchorFirst | src/preprocessing/warper.py:26-27 | with four markers, the first anchor is the centroid of a marker whose id is the lowest |
| AnchorOrdering.OrderingExample | src/preprocessing/warper.py:21-29 | markers seen in id order 3, 1, 4, 2 give their anchors in id order 1, 2, 3, 4; three markers stay in detector order |
| TargetCanvas.DestinationCorners | src/preprocessing/warper.py:53-61 | the destination point list of shallow mode has exactly four points (its layout is stated by `DestinationCornersLayout`) |
| TargetCanvas.DestinationCornersLayout | src/preprocessing/warper.py:147-155 | the destination points, built the same way in both modes (lines 53-61 and 147-155), are are four corners of the canvas, top-right first; consecutive corners share a side; on a canvas of non-zero width and height they are pairwise distinct |
| TargetCanvas.FrameTransformCorrespondence | src/preprocessing/warper.py:63-66 | for a frame with four anchors, `FrameTransform` (through `AnchorTransform`) is the estimator applied to the frame's centroids in ascending id order as sources and the corners top-right, top-left, bottom-left, bottom-right as destinations, so the lowest-id anchor goes to the top-right corner; the same call is made per frame at lines 157-160 |
| ShallowCalibration.FirstAnchoredFrame | src/preprocessing/warper.py:46-68 | the search finds nothing exactly when no frame has four anchors; otherwise it finds a frame with four anchors, and no earlier frame has four |
| ShallowCalibration.FirstAnchoredFrameIsLowest | src/preprocessing/warper.py:46-68 | a frame with four anchors and none before it is the frame the search stops at |
| ShallowCalibration.WarpShallow | src/preprocessing/warper.py:31-98 | a run returns on a missing path, creates no writer when no frame has four anchors, and otherwise writes every frame warped with the first calibration frame's homography (`ShallowOutcome`) |
| ShallowCalibration.ShallowOutcome | src/preprocessing/warper.py:74-95 | a run ends at the path check exactly when the path is missing, and a written outcome has one frame per video frame and arises only from a non-empty video |
| ShallowCalibration.ShallowOutcomeWritten | src/preprocessing/warper.py:88-95 | bridge for `WarpShallow`: a sequence holding at each index that frame warped with the first calibration frame's homography is the written outcome |
| ShallowCalibration.ShallowMissingPath | src/preprocessing/warper.py:33-35 | a missing video path ends the run before anything is opened |
| ShallowCalibration.ShallowNotFoundIffNoAnchoredFrame | src/preprocessing/warper.py:74-76 | the run stops without a writer exactly when no frame yields four anchors |
| ShallowCalibration.ShallowWarpsEveryFrameWithFirstCalibration | src/preprocessing/warper.py:88-95 | given a first frame with four anchors, every frame of the video is written in order, the frames before it included, warped with that one frame's homography |
| ShallowCalibration.ShallowIgnoresLaterFrames | src/preprocessing/warper.py:46-68 | frames after the calibration frame do not affect the homography |
| DeepCalibration.VideoAnchorPoints | src/preprocessing/warper.py:110-120 | the stored anchor table has one entry per frame of the video |
| DeepCalibration.VideoAnchorPointsAt | src/preprocessing/warper.py:115-120 | the stored anchors at index i are the anchors of frame i |
| DeepCalibration.DeepOutcome | src/preprocessing/warper.py:128-163 | a run ends at the path check exactly when the path is missing, a writer receives frames exactly when every frame has four anchors, and then it receives one frame per video frame |
| DeepCalibration.DeepOutcomeWritten | src/preprocessing/warper.py:144-163 | bridge for `WarpDeep`: when every frame has four anchors, what a successful run writes holds, at each index, that frame warped with its own stored anchors' homography |
| DeepCalibration.ScanAnchorPoints | src/preprocessing/warper.py:110-130 | the scan succeeds exactly when every frame has four anchors, and on success the array holds each frame's anchors at that frame's index |
| DeepCalibration.WarpDeep | src/preprocessing/warper.py:100-167 | a run returns on a missing path, creates no writer unless every frame has four anchors, and otherwise writes every frame warped with its own homography (`DeepOutcome`) |
| DeepCalibration.DeepMissingPath | src/preprocessing/warper.py:102-104 | a missing video path ends the run before anything is opened |
| DeepCalibration.DeepAllOrNothing | src/preprocessing/warper.py:115-163 | a single frame without four anchors means no frame at all is written; otherwise every frame is written in order with its own frame's homography |
| DeepCalibration.EmptyVideo | src/preprocessing/warper.py:111-141 | on an empty video, deep mode writes an empty output while shallow mode creates no writer |
| DeepCalibration.DeepSuccessImpliesShallowSuccess | src/preprocessing/warper.py:46-68 | on a non-empty video, a deep success means shallow mode calibrates on frame 0 and writes the same first frame |
| DeepCalibration.StaticMarkersModesAgree | src/preprocessing/warper.py:144-163 | when the detector reports the same four markers in every frame of a non-empty video, both modes write the same video (on the empty video they differ, see `EmptyVideo`) |

## Left out

- Marker detection (the ArUco 7x7 dictionary and detector parameters) is a parameter, `Vision.detectMarkers`. It reports each marker's id and centroid in detector order.
- The centroid computation (`np.mean` over a marker's four corners) is left out. The detector reports the centroid directly.
- Homography estimation and resampling are uninterpreted functions of their inputs: `Vision.perspectiveTransform` and `Vision.warpPerspective`. Nothing is proved about their numerics or about degenerate point sets.
- Floating point and the conversion of points to 32-bit floats are not modelled. Points have real coordinates and the canvas has integer size.
- Video I/O is not modelled: opening the capture, the frame count and fps, rewinding to frame 0, the codec and output path, and releasing the capture and writer. The video is the sequence of its frames, and the writer is the sequence of frames written to it. Every read is assumed to succeed, with the frame count equal to the number of frames.
- The path check is a boolean parameter. The output folder set-up in the constructor and the module-level script that warps one fixed file are left out.
- Progress bars and console messages are left out. The distinct messages correspond to the distinct outcomes `PathMissing` and `AnchorsNotFound`.
- DeepCalibration.WarpDeep: the scan loop is a separate method, `ScanAnchorPoints`, that fills the array `WarpDeep` allocates; its array frame and postcondition are stated on their own.
