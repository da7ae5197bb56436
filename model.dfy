/**
 * Values shared by the per-frame analysis and the two monitoring services:
 * the OpenCV geometry the detectors hand back, the three result classes of the
 * model package, and the row written to the suspicious-activity log.
 */
module Model {

  datatype Option<+T> = None | Some(value: T)

  /**
   * The outcome of a call into the image library that may throw: what it found,
   * or the message of the exception it raised.
   */
  datatype Detection<+T> = Found(value: T) | Failed(message: string)

  /** An OpenCV integer rectangle: top-left corner and size, in pixels. */
  datatype Rect = Rect(x: int, y: int, width: int, height: int)

  datatype Point = Point(x: real, y: real)

  /** The cascades never return a rectangle smaller than their minimum size. */
  predicate PositiveSize(r: Rect)
  {
    r.width > 0 && r.height > 0
  }

  /** `Imgproc.contourArea` is never negative. */
  type Area = a: real | a >= 0.0

  /**
   * One external contour of a thresholded eye image: its area and its centroid
   * (M10/M00, M01/M00), in eye-region coordinates.
   */
  datatype Contour = Contour(area: Area, centroid: Point)

  /**
   * One eye found by the eye cascade inside the face region, with its rectangle
   * relative to the face, and the contours that thresholding finds in that eye's
   * region of the frame, or the message of the exception the pupil search raised
   * (grey conversion, blurring, thresholding, contour extraction or moments).
   */
  datatype EyeDetection = EyeDetection(rect: Rect, contours: Detection<seq<Contour>>)

  /**
   * What the OpenCV calls report about one frame: its size, the faces found in it,
   * and the eyes found inside the face region (consulted only when there is
   * exactly one face).
   */
  datatype FrameObservation = FrameObservation(
    width: nat,
    height: nat,
    faces: Detection<seq<Rect>>,
    eyes: Detection<seq<EyeDetection>>)

  /** `Mat.empty()`: the decoded image holds no pixel. */
  predicate IsEmpty(frame: FrameObservation)
  {
    frame.width == 0 || frame.height == 0
  }

  /** Every rectangle the cascades report has a positive size. */
  predicate Conformant(frame: FrameObservation)
  {
    && (frame.faces.Found? ==> forall r <- frame.faces.value :: PositiveSize(r))
    && (frame.eyes.Found? ==> forall e <- frame.eyes.value :: PositiveSize(e.rect))
  }

  /** Head pose in degrees: yaw turns left/right, pitch looks up/down. */
  datatype HeadPoseResult = HeadPoseResult(yaw: real, pitch: real)

  /** Pupil offsets from each eye's centre, each normalised by half the eye's size. */
  datatype EyeGazeResult = EyeGazeResult(
    leftEyeHorizontalGaze: real,
    leftEyeVerticalGaze: real,
    rightEyeHorizontalGaze: real,
    rightEyeVerticalGaze: real)

  /** The gaze a fresh `EyeGazeResult` holds: straight ahead for both eyes. */
  const StraightGaze := EyeGazeResult(0.0, 0.0, 0.0, 0.0)

  /** The verdict on one frame; a `None` field is a Java `null`. */
  datatype FaceDetectionResult = FaceDetectionResult(
    faceCount: nat,
    headPose: Option<HeadPoseResult>,
    eyeGaze: Option<EyeGazeResult>,
    suspiciousActivity: bool,
    description: string,
    evidenceType: Option<string>)

  /** The state a `new FaceDetectionResult()` starts from. */
  const NoResultYet := FaceDetectionResult(0, None, None, false, "No result yet", None)

  /**
   * One suspicious-activity row: who, in which exam, why, and the evidence type
   * that names the saved frame.
   */
  datatype ActivityRecord = ActivityRecord(
    sessionId: string,
    examId: string,
    description: string,
    evidenceType: string)

  function Abs(x: real): real
  {
    if x < 0.0 then -x else x
  }
}
