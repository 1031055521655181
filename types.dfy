/** Values shared by the perspective warper, and the foreign library calls it
    makes (marker detection, homography estimation, resampling), which the
    model keeps uninterpreted. */
module WarperTypes {

  /** A decoded video frame. The warper never looks at its pixels itself. */
  type Frame

  /** A 3x3 perspective transform as returned by the homography estimator. */
  type Matrix

  /** A pixel position. Centroids come from the detector as they are. */
  datatype Point = Point(x: real, y: real)

  /** The target canvas (`frame_size`): width, then height, in pixels. */
  datatype Size = Size(width: int, height: int)

  /** One detected marker: its identity label and the centroid of its corners. */
  datatype Marker = Marker(id: int, centroid: Point)

  datatype Option<T> = None | Some(value: T)

  /** How one warp run ends. */
  datatype WarpOutcome =
    | PathMissing                // the video path does not exist: nothing is opened
    | AnchorsNotFound            // calibration failed: no writer is ever created
    | Written(frames: seq<Frame>) // a writer was created and received these frames, in order

  /** The foreign capabilities, as total functions of their inputs:
      `detectMarkers` reports the markers of a frame in detector order,
      `perspectiveTransform` maps four source and four destination points to a
      matrix, `warpPerspective` resamples a frame onto a canvas of the given size. */
  datatype Vision = Vision(
    detectMarkers: Frame -> seq<Marker>,
    perspectiveTransform: (seq<Point>, seq<Point>) -> Matrix,
    warpPerspective: (Frame, Matrix, Size) -> Frame)
}
