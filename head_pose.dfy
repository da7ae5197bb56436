/**
 * The closed-form head pose of `MediaPipeFaceDetectionService.estimateHeadPose`:
 * yaw from how far the eyes' midpoint sits from the face's vertical centre line,
 * pitch from how far it sits from the line 0.4 of the face height below the top.
 */
module HeadPose {
  import opened Model

  /**
   * Centre of an eye rectangle, translated from face-relative to frame
   * coordinates: as far from the rectangle's left edge as from its right edge, and
   * from its top edge as from its bottom edge.
   */
  function EyeCenter(face: Rect, eye: Rect): (c: Point)
    ensures c.x - (face.x + eye.x) as real == (face.x + eye.x + eye.width) as real - c.x
    ensures c.y - (face.y + eye.y) as real == (face.y + eye.y + eye.height) as real - c.y
  {
    Point(face.x as real + eye.x as real + eye.width as real / 2.0,
          face.y as real + eye.y as real + eye.height as real / 2.0)
  }

  function Midpoint(a: Point, b: Point): Point
  {
    Point((a.x + b.x) / 2.0, (a.y + b.y) / 2.0)
  }

  /** The face's vertical centre line. */
  function FaceCenterX(face: Rect): real
  {
    face.x as real + face.width as real / 2.0
  }

  /** Where a frontal face's eyes sit: 0.4 of the face height below its top. */
  function NeutralEyeLine(face: Rect): real
  {
    face.y as real + 0.4 * face.height as real
  }

  /**
   * Yaw is zero exactly when the eyes are centred on the face and has the sign of
   * their offset to the right; pitch is zero exactly when the eyes sit on the
   * neutral line and is positive when they sit below it.
   */
  function EstimateHeadPose(leftEye: Point, rightEye: Point, face: Rect): (pose: HeadPoseResult)
    requires PositiveSize(face)
    ensures (pose.yaw == 0.0) == (Midpoint(leftEye, rightEye).x == FaceCenterX(face))
    ensures (pose.yaw > 0.0) == (Midpoint(leftEye, rightEye).x > FaceCenterX(face))
    ensures (pose.pitch == 0.0) == (Midpoint(leftEye, rightEye).y == NeutralEyeLine(face))
    ensures (pose.pitch > 0.0) == (Midpoint(leftEye, rightEye).y > NeutralEyeLine(face))
  {
    var faceCenter := face.x as real + face.width as real / 2.0;
    var eyesMidpointX := (leftEye.x + rightEye.x) / 2.0;
    var eyeOffsetRatio := (eyesMidpointX - faceCenter) / (face.width as real / 2.0);
    var faceTop := face.y as real;
    var faceHeight := face.height as real;
    var eyesMidpointY := (leftEye.y + rightEye.y) / 2.0;
    var eyeVerticalRatio := (eyesMidpointY - faceTop) / faceHeight;
    SignOfQuotient(eyesMidpointX - faceCenter, face.width as real / 2.0);
    SignOfQuotient(eyesMidpointY - faceTop - 0.4 * faceHeight, faceHeight);
    QuotientMinus(eyesMidpointY - faceTop, 0.4, faceHeight);
    HeadPoseResult(eyeOffsetRatio * 45.0, (eyeVerticalRatio - 0.4) * 90.0)
  }

  lemma SignOfQuotient(a: real, b: real)
    requires b > 0.0
    ensures (a / b == 0.0) == (a == 0.0)
    ensures (a / b > 0.0) == (a > 0.0)
  {
    assert a == (a / b) * b;
  }

  lemma QuotientMinus(a: real, c: real, b: real)
    requires b > 0.0
    ensures a / b - c == (a - c * b) / b
  {
    assert (a / b - c) * b == a - c * b;
  }

  /**
   * The pose determines where the eyes' midpoint is: the estimate can be inverted,
   * so no two midpoints share a pose on the same face.
   */
  lemma EyeMidpointFromPose(leftEye: Point, rightEye: Point, face: Rect)
    requires PositiveSize(face)
    ensures Midpoint(leftEye, rightEye).x
            == FaceCenterX(face) + EstimateHeadPose(leftEye, rightEye, face).yaw * face.width as real / 90.0
    ensures Midpoint(leftEye, rightEye).y
            == NeutralEyeLine(face) + EstimateHeadPose(leftEye, rightEye, face).pitch * face.height as real / 90.0
  {
    var pose := EstimateHeadPose(leftEye, rightEye, face);
    var w := face.width as real;
    var h := face.height as real;
    var dx := Midpoint(leftEye, rightEye).x - FaceCenterX(face);
    var dy := Midpoint(leftEye, rightEye).y - face.y as real;
    assert pose.yaw == (dx / (w / 2.0)) * 45.0;
    assert (dx / (w / 2.0)) * (w / 2.0) == dx;
    assert pose.pitch == (dy / h - 0.4) * 90.0;
    assert (dy / h) * h == dy;
  }
}
