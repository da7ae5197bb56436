/**
 * Pupil location and gaze normalisation (`findPupilCenter` and `estimateEyeGaze`
 * of `MediaPipeFaceDetectionService`). The thresholding and contour extraction are
 * OpenCV's; what is left is the choice of the largest contour, the fallback to the
 * region's centre, and the normalisation of the pupil's offset.
 */
module Gaze {
  import opened Model

  /**
   * The index the scan of `findPupilCenter` ends on: the first contour of maximal
   * area, or -1 when there is no contour. Written as the scan itself (a running
   * maximum that starts at -1 and is replaced only by a strictly larger area).
   */
  function LargestContour(contours: seq<Contour>): (k: int)
    ensures -1 <= k < |contours|
    ensures k == -1 <==> contours == []
    ensures k >= 0 ==> forall j :: 0 <= j < |contours| ==> contours[j].area <= contours[k].area
    ensures k >= 0 ==> forall j :: 0 <= j < k ==> contours[j].area < contours[k].area
  {
    if contours == [] then -1
    else
      var k := LargestContour(contours[..|contours| - 1]);
      var maxArea := if k < 0 then -1.0 else contours[k].area;
      if contours[|contours| - 1].area > maxArea then |contours| - 1 else k
  }

  /**
   * The pupil `findPupilCenter` reports for an eye region of `cols` by `rows`
   * pixels: the centroid of a contour of maximal area, the earliest among equals;
   * without a contour, the region's centre, so this never fails.
   */
  function PupilCenter(contours: seq<Contour>, cols: int, rows: int): (p: Point)
    ensures contours == [] ==> p == Point(cols as real / 2.0, rows as real / 2.0)
    ensures contours != [] ==>
            exists k :: (
              && 0 <= k < |contours|
              && p == contours[k].centroid
              && (forall j :: 0 <= j < |contours| ==> contours[j].area <= contours[k].area)
              && (forall j :: 0 <= j < k ==> contours[j].area < contours[k].area))
  {
    var k := LargestContour(contours);
    if k >= 0 then contours[k].centroid else Point(cols as real / 2.0, rows as real / 2.0)
  }

  method FindPupilCenter(contours: seq<Contour>, cols: int, rows: int) returns (p: Point)
    ensures p == PupilCenter(contours, cols, rows)
  {
    var maxArea: real := -1.0;
    var maxAreaIdx := -1;
    for i := 0 to |contours|
      invariant maxAreaIdx == LargestContour(contours[..i])
      invariant maxArea == if maxAreaIdx < 0 then -1.0 else contours[maxAreaIdx].area
    {
      assert contours[..i + 1][..i] == contours[..i];
      var area := contours[i].area;
      if area > maxArea {
        maxArea := area;
        maxAreaIdx := i;
      }
    }
    assert contours[..|contours|] == contours;
    if maxAreaIdx >= 0 {
      p := contours[maxAreaIdx].centroid;
    } else {
      p := Point(cols as real / 2.0, rows as real / 2.0);
    }
  }

  /**
   * A pupil coordinate as an offset from the middle of an extent, in units of half
   * that extent: 0 exactly at the middle, and within [-1, 1] when the pupil lies
   * inside the extent.
   */
  function NormalizedOffset(coordinate: real, extent: int): (n: real)
    requires extent > 0
    ensures (n == 0.0) == (coordinate == extent as real / 2.0)
    ensures 0.0 <= coordinate <= extent as real ==> -1.0 <= n <= 1.0
  {
    var half := extent as real / 2.0;
    var n := (coordinate - half) / half;
    assert n * half == coordinate - half;
    n
  }

  /** The normalisation loses nothing: the pupil coordinate is recovered from it. */
  lemma NormalizedOffsetInverse(coordinate: real, extent: int)
    requires extent > 0
    ensures coordinate == (extent as real / 2.0) * (1.0 + NormalizedOffset(coordinate, extent))
  {
    var half := extent as real / 2.0;
    assert NormalizedOffset(coordinate, extent) * half == coordinate - half;
  }

  /** An eye rectangle translated from face-relative to frame coordinates. */
  function AbsoluteRect(face: Rect, eye: Rect): (r: Rect)
    ensures Rect(r.x - face.x, r.y - face.y, r.width, r.height) == eye
  {
    Rect(face.x + eye.x, face.y + eye.y, eye.width, eye.height)
  }

  /** OpenCV's test before `new Mat(frame, roi)`: the region lies inside the frame. */
  predicate CropsWithin(roi: Rect, width: int, height: int)
  {
    0 <= roi.x && 0 <= roi.width && roi.x + roi.width <= width
    && 0 <= roi.y && 0 <= roi.height && roi.y + roi.height <= height
  }

  /**
   * The gaze `estimateEyeGaze` reports for the two eyes of a face in a frame of
   * the given size. An eye region outside the frame makes OpenCV throw, and so
   * does a failure inside the pupil search; the handler then reports a straight
   * gaze.
   */
  function EyeGaze(width: int, height: int, face: Rect, leftEye: EyeDetection, rightEye: EyeDetection)
    : (g: EyeGazeResult)
    requires PositiveSize(leftEye.rect) && PositiveSize(rightEye.rect)
    ensures !Crops(width, height, face, leftEye, rightEye) ==> g == StraightGaze
    ensures leftEye.contours.Failed? || rightEye.contours.Failed? ==> g == StraightGaze
    ensures Crops(width, height, face, leftEye, rightEye) && leftEye.contours.Found? && rightEye.contours.Found? ==>
            var l := PupilCenter(leftEye.contours.value, leftEye.rect.width, leftEye.rect.height);
            var r := PupilCenter(rightEye.contours.value, rightEye.rect.width, rightEye.rect.height);
            && l == Recovered(g.leftEyeHorizontalGaze, g.leftEyeVerticalGaze, leftEye.rect)
            && r == Recovered(g.rightEyeHorizontalGaze, g.rightEyeVerticalGaze, rightEye.rect)
  {
    var absLeft := AbsoluteRect(face, leftEye.rect);
    var absRight := AbsoluteRect(face, rightEye.rect);
    if !CropsWithin(absLeft, width, height) || !CropsWithin(absRight, width, height) then
      StraightGaze
    else
      match (leftEye.contours, rightEye.contours)
      case (Found(leftContours), Found(rightContours)) =>
        var leftPupil := PupilCenter(leftContours, absLeft.width, absLeft.height);
        var rightPupil := PupilCenter(rightContours, absRight.width, absRight.height);
        NormalizedOffsetInverse(leftPupil.x, leftEye.rect.width);
        NormalizedOffsetInverse(leftPupil.y, leftEye.rect.height);
        NormalizedOffsetInverse(rightPupil.x, rightEye.rect.width);
        NormalizedOffsetInverse(rightPupil.y, rightEye.rect.height);
        EyeGazeResult(
          NormalizedOffset(leftPupil.x, leftEye.rect.width),
          NormalizedOffset(leftPupil.y, leftEye.rect.height),
          NormalizedOffset(rightPupil.x, rightEye.rect.width),
          NormalizedOffset(rightPupil.y, rightEye.rect.height))
      case _ => StraightGaze
  }

  /** Both eye regions can be cropped from the frame. */
  predicate Crops(width: int, height: int, face: Rect, leftEye: EyeDetection, rightEye: EyeDetection)
  {
    CropsWithin(AbsoluteRect(face, leftEye.rect), width, height)
    && CropsWithin(AbsoluteRect(face, rightEye.rect), width, height)
  }

  /** The point in an eye region whose normalised offsets are `h` and `v`. */
  function Recovered(h: real, v: real, eye: Rect): Point
  {
    Point((eye.width as real / 2.0) * (1.0 + h), (eye.height as real / 2.0) * (1.0 + v))
  }

  method EstimateEyeGaze(width: int, height: int, face: Rect, leftEye: EyeDetection, rightEye: EyeDetection)
    returns (gaze: EyeGazeResult)
    requires PositiveSize(leftEye.rect) && PositiveSize(rightEye.rect)
    ensures gaze == EyeGaze(width, height, face, leftEye, rightEye)
  {
    var absLeftEyeRect := AbsoluteRect(face, leftEye.rect);
    var absRightEyeRect := AbsoluteRect(face, rightEye.rect);
    if !CropsWithin(absLeftEyeRect, width, height) || !CropsWithin(absRightEyeRect, width, height) {
      gaze := StraightGaze;
      return;
    }
    if leftEye.contours.Failed? || rightEye.contours.Failed? {
      gaze := StraightGaze;
      return;
    }
    var leftPupil := FindPupilCenter(leftEye.contours.value, absLeftEyeRect.width, absLeftEyeRect.height);
    var rightPupil := FindPupilCenter(rightEye.contours.value, absRightEyeRect.width, absRightEyeRect.height);
    gaze := StraightGaze;
    gaze := gaze.(leftEyeHorizontalGaze := NormalizedOffset(leftPupil.x, leftEye.rect.width));
    gaze := gaze.(leftEyeVerticalGaze := NormalizedOffset(leftPupil.y, leftEye.rect.height));
    gaze := gaze.(rightEyeHorizontalGaze := NormalizedOffset(rightPupil.x, rightEye.rect.width));
    gaze := gaze.(rightEyeVerticalGaze := NormalizedOffset(rightPupil.y, rightEye.rect.height));
  }

  /**
   * An eye whose thresholded region holds no contour looks straight ahead, on both
   * axes, whichever eye it is.
   */
  lemma NoContourLooksStraight(width: int, height: int, face: Rect, leftEye: EyeDetection, rightEye: EyeDetection)
    requires PositiveSize(leftEye.rect) && PositiveSize(rightEye.rect)
    ensures leftEye.contours == Found([]) ==>
      EyeGaze(width, height, face, leftEye, rightEye).leftEyeHorizontalGaze == 0.0
      && EyeGaze(width, height, face, leftEye, rightEye).leftEyeVerticalGaze == 0.0
    ensures rightEye.contours == Found([]) ==>
      EyeGaze(width, height, face, leftEye, rightEye).rightEyeHorizontalGaze == 0.0
      && EyeGaze(width, height, face, leftEye, rightEye).rightEyeVerticalGaze == 0.0
  {
  }

  /** Each reported gaze lies in [-1, 1] when the chosen pupils lie inside their eye regions. */
  lemma GazeWithinUnitRange(width: int, height: int, face: Rect, leftEye: EyeDetection, rightEye: EyeDetection)
    requires PositiveSize(leftEye.rect) && PositiveSize(rightEye.rect)
    requires CentroidsInside(leftEye) && CentroidsInside(rightEye)
    ensures var g := EyeGaze(width, height, face, leftEye, rightEye);
      && -1.0 <= g.leftEyeHorizontalGaze <= 1.0 && -1.0 <= g.leftEyeVerticalGaze <= 1.0
      && -1.0 <= g.rightEyeHorizontalGaze <= 1.0 && -1.0 <= g.rightEyeVerticalGaze <= 1.0
  {
    if leftEye.contours.Found? && rightEye.contours.Found? {
      PupilInside(leftEye.contours.value, leftEye.rect);
      PupilInside(rightEye.contours.value, rightEye.rect);
    }
  }

  /** The point lies in a region the size of `eye`, in region coordinates. */
  predicate Inside(p: Point, eye: Rect)
  {
    0.0 <= p.x <= eye.width as real && 0.0 <= p.y <= eye.height as real
  }

  /** Every contour found in the eye's region, if any were, has its centroid inside it. */
  predicate CentroidsInside(eye: EyeDetection)
  {
    eye.contours.Found? ==> forall c <- eye.contours.value :: Inside(c.centroid, eye.rect)
  }

  lemma PupilInside(contours: seq<Contour>, eye: Rect)
    requires PositiveSize(eye)
    requires forall c <- contours :: Inside(c.centroid, eye)
    ensures Inside(PupilCenter(contours, eye.width, eye.height), eye)
  {
    var k := LargestContour(contours);
    if k >= 0 {
      assert contours[k] in contours;
    }
  }
}
