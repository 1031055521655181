/** The destination side of every homography: the target canvas's corners, in
    the fixed order both calibration modes use. */
module TargetCanvas {
  import opened WarperTypes
  import opened AnchorOrdering

  /** `p` is one of the four corners of a `size` canvas. */
  predicate IsCanvasCorner(p: Point, size: Size) {
    (p.x == 0.0 || p.x == size.width as real) && (p.y == 0.0 || p.y == size.height as real)
  }

  /** The warped anchor points: top-right, top-left, bottom-left, bottom-right
      (image y grows downward). */
  function DestinationCorners(size: Size): (c: seq<Point>)
    ensures |c| == 4
  {
    var w, h := size.width as real, size.height as real;
    [Point(w, 0.0), Point(0.0, 0.0), Point(0.0, h), Point(w, h)]
  }

  /** The destination points are corners of the canvas, the first is the
      top-right one (where the lowest-id anchor goes), walking them in order
      traces the canvas border, and on a canvas of non-zero width and height
      they are pairwise distinct, so they are exactly its four corners. */
  lemma DestinationCornersLayout(size: Size)
    ensures DestinationCorners(size)[0] == Point(size.width as real, 0.0)
    ensures forall i :: 0 <= i < 4 ==> IsCanvasCorner(DestinationCorners(size)[i], size)
    ensures forall i :: 0 <= i < 3 ==>
              DestinationCorners(size)[i].x == DestinationCorners(size)[i + 1].x ||
              DestinationCorners(size)[i].y == DestinationCorners(size)[i + 1].y
    ensures size.width != 0 && size.height != 0 ==>
              forall i, j :: 0 <= i < j < 4 ==> DestinationCorners(size)[i] != DestinationCorners(size)[j]
  {
  }

  /** The homography built from one frame's anchor points. */
  function AnchorTransform(vision: Vision, anchors: seq<Point>, size: Size): Matrix {
    vision.perspectiveTransform(anchors, DestinationCorners(size))
  }

  /** The homography a frame with four anchors calibrates to. */
  function FrameTransform(vision: Vision, frame: Frame, size: Size): Matrix {
    AnchorTransform(vision, AnchorPoints(vision.detectMarkers(frame)), size)
  }

  /** A frame with four anchors calibrates by handing the estimator the
      centroids of its markers in ascending id order as source points and the
      canvas corners top-right, top-left, bottom-left, bottom-right as
      destination points, so the lowest-id anchor is sent to the top-right. */
  lemma FrameTransformCorrespondence(vision: Vision, frame: Frame, size: Size)
    requires HasFourAnchors(vision, frame)
    ensures FrameTransform(vision, frame, size) ==
            vision.perspectiveTransform(Centroids(SortById(vision.detectMarkers(frame))),
              [Point(size.width as real, 0.0), Point(0.0, 0.0),
               Point(0.0, size.height as real), Point(size.width as real, size.height as real)])
    ensures |AnchorPoints(vision.detectMarkers(frame))| == 4
  {
  }
}
