/**
 * `MediaPipeFaceDetectionService.analyzeWithOpenCV`: one frame in, one
 * `FaceDetectionResult` out. The face count decides the branch; with one face and
 * at least two eyes, the two leftmost eyes give the head pose and the gaze, and
 * the classifier gives the verdict.
 */
module FaceDetection {
  import opened Model
  import opened Decimal
  import opened HeadPose
  import opened Gaze
  import opened Classifier

  const NoFaceDescription := "No face detected - student may be absent"
  const NoEyesDescription := "Eyes not detected clearly - student may be looking away"

  function MultipleFacesDescription(count: nat): string
  {
    "Multiple faces detected (" + NatToString(count) + ") - potential collaboration"
  }

  predicate SortedByX(eyes: seq<EyeDetection>)
  {
    forall i, j :: 0 <= i < j < |eyes| ==> eyes[i].rect.x <= eyes[j].rect.x
  }

  /** Places `eye` before the first eye whose x is not smaller than its own. */
  function InsertByX(eye: EyeDetection, sorted: seq<EyeDetection>): (r: seq<EyeDetection>)
    ensures multiset(r) == multiset(sorted) + multiset{eye}
  {
    if sorted == [] || eye.rect.x <= sorted[0].rect.x then [eye] + sorted
    else
      assert sorted == [sorted[0]] + sorted[1..];
      [sorted[0]] + InsertByX(eye, sorted[1..])
  }

  /**
   * `eyesList.sort(by x)`, as an insertion sort. Java's `List.sort` is stable, and
   * so is this one: `SortSelectsEarliestLeftmost` shows that the sort puts the
   * earliest-reported leftmost eye first and then sorts the others the same way,
   * so `SortKeepsTwoEarliestLeftmost` can say which eyes become the left and the
   * right eye when several share an x.
   */
  function SortEyesByX(eyes: seq<EyeDetection>): (r: seq<EyeDetection>)
    ensures multiset(r) == multiset(eyes)
  {
    if eyes == [] then []
    else
      assert eyes == [eyes[0]] + eyes[1..];
      InsertByX(eyes[0], SortEyesByX(eyes[1..]))
  }

  lemma {:induction false} InsertByXKeepsSorted(eye: EyeDetection, sorted: seq<EyeDetection>)
    requires SortedByX(sorted)
    ensures SortedByX(InsertByX(eye, sorted))
  {
    if sorted == [] || eye.rect.x <= sorted[0].rect.x {
    } else {
      var rest := InsertByX(eye, sorted[1..]);
      InsertByXKeepsSorted(eye, sorted[1..]);
      assert sorted == [sorted[0]] + sorted[1..];
      forall k | 0 <= k < |rest|
        ensures sorted[0].rect.x <= rest[k].rect.x
      {
        assert rest[k] in multiset(rest);
        if rest[k] != eye {
          assert rest[k] in multiset(sorted[1..]);
          var j :| 0 <= j < |sorted[1..]| && sorted[1..][j] == rest[k];
          assert sorted[j + 1] == rest[k];
        }
      }
    }
  }

  /** The sort orders the eyes by ascending x. */
  lemma {:induction false} SortEyesByXIsSorted(eyes: seq<EyeDetection>)
    ensures SortedByX(SortEyesByX(eyes))
  {
    if eyes != [] {
      SortEyesByXIsSorted(eyes[1..]);
      InsertByXKeepsSorted(eyes[0], SortEyesByX(eyes[1..]));
    }
  }

  /** What the exception handler leaves: the result so far, not suspicious, with the message. */
  function AnalysisError(partial: FaceDetectionResult, message: string): (r: FaceDetectionResult)
    ensures !r.suspiciousActivity
    ensures r.description == "Error analyzing frame: " + message
    ensures r.(suspiciousActivity := partial.suspiciousActivity, description := partial.description) == partial
  {
    partial.(suspiciousActivity := false, description := "Error analyzing frame: " + message)
  }

  /** The result `analyzeWithOpenCV` returns for a frame. */
  function Analysis(frame: FrameObservation): (r: FaceDetectionResult)
    requires Conformant(frame)
    ensures r.faceCount == if frame.faces.Found? then |frame.faces.value| else 0
    ensures r.suspiciousActivity ==> r.evidenceType.Some?
    ensures r.headPose.Some? || r.eyeGaze.Some? ==>
            frame.faces.Found? && |frame.faces.value| == 1 && frame.eyes.Found? && |frame.eyes.value| >= 2
  {
    match frame.faces
    case Failed(message) => AnalysisError(NoResultYet, message)
    case Found(faces) =>
      var counted := NoResultYet.(faceCount := |faces|);
      if |faces| == 1 then
        match frame.eyes
        case Failed(message) => AnalysisError(counted, message)
        case Found(eyes) =>
          if |eyes| >= 2 then
            var face := faces[0];
            var sorted := SortEyesByX(eyes);
            var leftEye, rightEye := sorted[0], sorted[1];
            assert leftEye in multiset(sorted) && rightEye in multiset(sorted);
            var pose := EstimateHeadPose(EyeCenter(face, leftEye.rect), EyeCenter(face, rightEye.rect), face);
            var gaze := EyeGaze(frame.width, frame.height, face, leftEye, rightEye);
            var judged := counted.(headPose := Some(pose), eyeGaze := Some(gaze),
                                   suspiciousActivity := DetectSuspiciousActivity(pose, gaze));
            var described := judged.(description := GenerateDescription(judged));
            described.(evidenceType := Some(if described.suspiciousActivity then "suspicious_gaze" else "normal"))
          else
            counted.(suspiciousActivity := true, description := NoEyesDescription, evidenceType := Some("no_eyes"))
      else if |faces| == 0 then
        counted.(suspiciousActivity := true, description := NoFaceDescription, evidenceType := Some("no_face"))
      else
        counted.(suspiciousActivity := true, description := MultipleFacesDescription(|faces|),
                 evidenceType := Some("multiple_faces"))
  }

  method AnalyzeWithOpenCV(frame: FrameObservation) returns (result: FaceDetectionResult)
    requires Conformant(frame)
    ensures result == Analysis(frame)
  {
    result := NoResultYet;
    if frame.faces.Failed? {
      result := AnalysisError(result, frame.faces.message);
      return;
    }
    var facesArray := frame.faces.value;
    result := result.(faceCount := |facesArray|);
    if |facesArray| == 1 {
      var faceRect := facesArray[0];
      if frame.eyes.Failed? {
        result := AnalysisError(result, frame.eyes.message);
        return;
      }
      var eyesArray := frame.eyes.value;
      if |eyesArray| >= 2 {
        var eyesList := SortEyesByX(eyesArray);
        assert eyesList[0] in multiset(eyesList) && eyesList[1] in multiset(eyesList);
        var leftEye, rightEye := eyesList[0], eyesList[1];
        var leftEyeCenter := EyeCenter(faceRect, leftEye.rect);
        var rightEyeCenter := EyeCenter(faceRect, rightEye.rect);
        var headPose := EstimateHeadPose(leftEyeCenter, rightEyeCenter, faceRect);
        result := result.(headPose := Some(headPose));
        var eyeGaze := EstimateEyeGaze(frame.width, frame.height, faceRect, leftEye, rightEye);
        result := result.(eyeGaze := Some(eyeGaze));
        result := result.(suspiciousActivity := DetectSuspiciousActivity(headPose, eyeGaze));
        result := result.(description := GenerateDescription(result));
        result := result.(evidenceType := Some(if result.suspiciousActivity then "suspicious_gaze" else "normal"));
      } else {
        result := result.(suspiciousActivity := true);
        result := result.(description := NoEyesDescription);
        result := result.(evidenceType := Some("no_eyes"));
      }
    } else if |facesArray| == 0 {
      result := result.(suspiciousActivity := true);
      result := result.(description := NoFaceDescription);
      result := result.(evidenceType := Some("no_face"));
    } else {
      result := result.(suspiciousActivity := true);
      result := result.(description := MultipleFacesDescription(|facesArray|));
      result := result.(evidenceType := Some("multiple_faces"));
    }
  }

  /** `eyes[i]` has the smallest x, and every eye before it lies strictly to its right. */
  predicate EarliestLeftmost(eyes: seq<EyeDetection>, i: int)
  {
    && 0 <= i < |eyes|
    && (forall j :: 0 <= j < |eyes| ==> eyes[i].rect.x <= eyes[j].rect.x)
    && (forall j :: 0 <= j < i ==> eyes[i].rect.x < eyes[j].rect.x)
  }

  /**
   * The first sorted eye is a leftmost detection, and no detection the cascade
   * reported before it is as far left.
   */
  lemma {:induction false} SortKeepsEarliestLeftmost(eyes: seq<EyeDetection>)
    requires eyes != []
    ensures exists i :: EarliestLeftmost(eyes, i) && SortEyesByX(eyes)[0] == eyes[i]
  {
    var tail := eyes[1..];
    var rest := SortEyesByX(tail);
    assert SortEyesByX(eyes) == InsertByX(eyes[0], rest);
    InsertByXHead(eyes[0], rest);
    if tail == [] {
      assert EarliestLeftmost(eyes, 0);
    } else {
      SortKeepsEarliestLeftmost(tail);
      var k :| EarliestLeftmost(tail, k) && rest[0] == tail[k];
      if eyes[0].rect.x <= rest[0].rect.x {
        LeftmostStaysFirst(eyes, k);
      } else {
        LeftmostOfTailComesFirst(eyes, k);
      }
    }
  }

  lemma InsertByXHead(eye: EyeDetection, sorted: seq<EyeDetection>)
    ensures |InsertByX(eye, sorted)| == |sorted| + 1
    ensures InsertByX(eye, sorted)[0]
            == if sorted == [] || eye.rect.x <= sorted[0].rect.x then eye else sorted[0]
  {
    assert |multiset(InsertByX(eye, sorted))| == |multiset(sorted)| + 1;
  }

  lemma LeftmostStaysFirst(eyes: seq<EyeDetection>, k: int)
    requires |eyes| >= 2 && EarliestLeftmost(eyes[1..], k)
    requires eyes[0].rect.x <= eyes[1..][k].rect.x
    ensures EarliestLeftmost(eyes, 0)
  {
    forall j | 0 < j < |eyes|
      ensures eyes[0].rect.x <= eyes[j].rect.x
    {
      assert eyes[j] == eyes[1..][j - 1];
    }
  }

  lemma LeftmostOfTailComesFirst(eyes: seq<EyeDetection>, k: int)
    requires |eyes| >= 2 && EarliestLeftmost(eyes[1..], k)
    requires eyes[1..][k].rect.x < eyes[0].rect.x
    ensures EarliestLeftmost(eyes, k + 1)
  {
    forall j | 0 < j < |eyes|
      ensures eyes[k + 1].rect.x <= eyes[j].rect.x
    {
      assert eyes[j] == eyes[1..][j - 1];
    }
    forall j | 0 < j < k + 1
      ensures eyes[k + 1].rect.x < eyes[j].rect.x
    {
      assert eyes[j] == eyes[1..][j - 1];
    }
  }

  /** The eyes other than `eyes[i]`, in the order the cascade reported them. */
  function Without(eyes: seq<EyeDetection>, i: int): (rest: seq<EyeDetection>)
    requires 0 <= i < |eyes|
    ensures |rest| == |eyes| - 1
    ensures multiset(rest) == multiset(eyes) - multiset{eyes[i]}
  {
    assert eyes == eyes[..i] + [eyes[i]] + eyes[i + 1..];
    eyes[..i] + eyes[i + 1..]
  }

  /**
   * Stability: the sort takes the earliest-reported leftmost eye first and then
   * sorts the remaining eyes, kept in the order they were reported.
   */
  lemma {:induction false} SortSelectsEarliestLeftmost(eyes: seq<EyeDetection>, i: int)
    requires EarliestLeftmost(eyes, i)
    ensures SortEyesByX(eyes) == [eyes[i]] + SortEyesByX(Without(eyes, i))
  {
    var tail := eyes[1..];
    SortCons(eyes[0], tail);
    assert eyes == [eyes[0]] + tail;
    if i == 0 {
      assert Without(eyes, 0) == tail;
      LeftmostBelowRest(eyes);
      InsertSmallestFirst(eyes[0], SortEyesByX(tail));
    } else {
      TailKeepsEarliestLeftmost(eyes, i);
      SortSelectsEarliestLeftmost(tail, i - 1);
      var others := Without(tail, i - 1);
      InsertAfterSmaller(eyes[0], eyes[i], SortEyesByX(others));
      SortCons(eyes[0], others);
      WithoutOfTail(eyes, i);
    }
  }

  lemma WithoutOfTail(eyes: seq<EyeDetection>, i: int)
    requires 0 < i < |eyes|
    ensures Without(eyes, i) == [eyes[0]] + Without(eyes[1..], i - 1)
  {
    assert eyes[..i] == [eyes[0]] + eyes[1..][..i - 1];
    assert eyes[i + 1..] == eyes[1..][i..];
  }

  lemma SortCons(eye: EyeDetection, eyes: seq<EyeDetection>)
    ensures SortEyesByX([eye] + eyes) == InsertByX(eye, SortEyesByX(eyes))
  {
    assert ([eye] + eyes)[1..] == eyes;
  }

  lemma InsertAfterSmaller(eye: EyeDetection, first: EyeDetection, sorted: seq<EyeDetection>)
    requires first.rect.x < eye.rect.x
    ensures InsertByX(eye, [first] + sorted) == [first] + InsertByX(eye, sorted)
  {
    assert ([first] + sorted)[1..] == sorted;
  }

  lemma InsertSmallestFirst(eye: EyeDetection, sorted: seq<EyeDetection>)
    requires forall e <- sorted :: eye.rect.x <= e.rect.x
    ensures InsertByX(eye, sorted) == [eye] + sorted
  {
    if sorted != [] {
      assert sorted[0] in sorted;
    }
  }

  lemma LeftmostBelowRest(eyes: seq<EyeDetection>)
    requires EarliestLeftmost(eyes, 0)
    ensures forall e <- SortEyesByX(eyes[1..]) :: eyes[0].rect.x <= e.rect.x
  {
    var tail := eyes[1..];
    forall e | e in SortEyesByX(tail)
      ensures eyes[0].rect.x <= e.rect.x
    {
      assert e in multiset(SortEyesByX(tail));
      assert e in multiset(tail);
      var j :| 0 <= j < |tail| && tail[j] == e;
      assert tail[j] == eyes[j + 1];
    }
  }

  lemma TailKeepsEarliestLeftmost(eyes: seq<EyeDetection>, i: int)
    requires EarliestLeftmost(eyes, i) && i > 0
    ensures EarliestLeftmost(eyes[1..], i - 1) && eyes[1..][i - 1] == eyes[i]
    ensures eyes[i].rect.x < eyes[0].rect.x
  {
    forall j | 0 <= j < |eyes[1..]|
      ensures eyes[i].rect.x <= eyes[1..][j].rect.x
    {
      assert eyes[1..][j] == eyes[j + 1];
    }
    forall j | 0 <= j < i - 1
      ensures eyes[i].rect.x < eyes[1..][j].rect.x
    {
      assert eyes[1..][j] == eyes[j + 1];
    }
  }

  /**
   * The left eye is the earliest-reported leftmost detection, and the right eye
   * is the earliest-reported leftmost of the other detections.
   */
  lemma SortKeepsTwoEarliestLeftmost(eyes: seq<EyeDetection>)
    requires |eyes| >= 2
    ensures exists i, j :: (
              && EarliestLeftmost(eyes, i) && SortEyesByX(eyes)[0] == eyes[i]
              && EarliestLeftmost(Without(eyes, i), j) && SortEyesByX(eyes)[1] == Without(eyes, i)[j])
  {
    SortKeepsEarliestLeftmost(eyes);
    var i :| EarliestLeftmost(eyes, i) && SortEyesByX(eyes)[0] == eyes[i];
    var others := Without(eyes, i);
    SecondIsFirstOfOthers(eyes, i);
    SortKeepsEarliestLeftmost(others);
    var j :| EarliestLeftmost(others, j) && SortEyesByX(others)[0] == others[j];
    assert EarliestLeftmost(others, j) && SortEyesByX(eyes)[1] == others[j];
  }

  lemma SecondIsFirstOfOthers(eyes: seq<EyeDetection>, i: int)
    requires |eyes| >= 2 && EarliestLeftmost(eyes, i)
    ensures |SortEyesByX(Without(eyes, i))| >= 1
    ensures SortEyesByX(eyes)[1] == SortEyesByX(Without(eyes, i))[0]
  {
    var others := Without(eyes, i);
    SortSelectsEarliestLeftmost(eyes, i);
    assert |multiset(SortEyesByX(others))| == |multiset(others)|;
  }

  /**
   * No face, or more than one, is suspicious whatever else the frame shows; the
   * multiple-faces sentence carries the count in decimal.
   */
  lemma FaceCountOtherThanOneIsSuspicious(frame: FrameObservation)
    requires Conformant(frame) && frame.faces.Found? && |frame.faces.value| != 1
    ensures var r, n := Analysis(frame), |frame.faces.value|;
            && r.suspiciousActivity && r.faceCount == n
            && (n == 0 ==> r.evidenceType == Some("no_face") && r.description == NoFaceDescription)
            && (n > 1 ==> r.evidenceType == Some("multiple_faces")
                          && exists digits :: (
                               && AllDigits(digits) && ParseNat(digits) == n
                               && r.description == "Multiple faces detected (" + digits + ") - potential collaboration"))
  {
    var n := |frame.faces.value|;
    ParseNatToString(n);
    var digits := NatToString(n);
    assert AllDigits(digits) && ParseNat(digits) == n;
  }

  /** One face with fewer than two eyes found is suspicious, and says the eyes were not seen clearly. */
  lemma MissingEyesAreSuspicious(frame: FrameObservation)
    requires Conformant(frame) && frame.faces.Found? && |frame.faces.value| == 1
    requires frame.eyes.Found? && |frame.eyes.value| < 2
    ensures Analysis(frame).suspiciousActivity
    ensures Analysis(frame).evidenceType == Some("no_eyes")
    ensures Analysis(frame).description == NoEyesDescription
    ensures Analysis(frame).faceCount == 1
  {
  }

  /**
   * The eyes taken as left and right are the leftmost detection and the leftmost
   * of the others, and both are among the detections.
   */
  lemma TwoLeftmostEyes(eyes: seq<EyeDetection>)
    requires |eyes| >= 2
    ensures var sorted := SortEyesByX(eyes);
            && sorted[0].rect.x <= sorted[1].rect.x
            && multiset{sorted[0], sorted[1]} <= multiset(eyes)
            && (forall e <- eyes :: sorted[0].rect.x <= e.rect.x)
            && (forall e <- multiset(eyes) - multiset{sorted[0]} :: sorted[1].rect.x <= e.rect.x)
  {
    var sorted := SortEyesByX(eyes);
    SortEyesByXIsSorted(eyes);
    FirstTwoAreDetections(sorted, eyes);
    FirstIsLeftmost(sorted, eyes);
    SecondIsLeftmostOfRest(sorted, eyes);
  }

  lemma FirstTwoAreDetections(sorted: seq<EyeDetection>, eyes: seq<EyeDetection>)
    requires multiset(sorted) == multiset(eyes) && |sorted| >= 2
    ensures multiset{sorted[0], sorted[1]} <= multiset(eyes)
  {
    var rest := sorted[1..];
    assert sorted == [sorted[0]] + rest;
    assert rest == [sorted[1]] + rest[1..];
  }

  lemma FirstIsLeftmost(sorted: seq<EyeDetection>, eyes: seq<EyeDetection>)
    requires SortedByX(sorted) && multiset(sorted) == multiset(eyes) && sorted != []
    ensures forall e <- eyes :: sorted[0].rect.x <= e.rect.x
  {
    SmallestFirst(sorted);
    forall e | e in eyes
      ensures sorted[0].rect.x <= e.rect.x
    {
      assert e in multiset(sorted);
    }
  }

  lemma SecondIsLeftmostOfRest(sorted: seq<EyeDetection>, eyes: seq<EyeDetection>)
    requires SortedByX(sorted) && multiset(sorted) == multiset(eyes) && |sorted| >= 2
    ensures forall e <- multiset(eyes) - multiset{sorted[0]} :: sorted[1].rect.x <= e.rect.x
  {
    var rest := sorted[1..];
    assert sorted == [sorted[0]] + rest;
    assert multiset(rest) == multiset(eyes) - multiset{sorted[0]};
    SmallestFirst(rest);
    forall e | e in multiset(eyes) - multiset{sorted[0]}
      ensures sorted[1].rect.x <= e.rect.x
    {
      assert e in rest;
    }
  }

  lemma SmallestFirst(sorted: seq<EyeDetection>)
    requires SortedByX(sorted) && sorted != []
    ensures forall e <- sorted :: sorted[0].rect.x <= e.rect.x
  {
  }

  /**
   * One face with two or more eyes: pose and gaze come from the two leftmost eyes
   * (left first); the verdict is the classifier's, the evidence type says
   * "suspicious_gaze" exactly when it is suspicious, and the sentence is the one
   * the classifier gives for that pose and gaze (so `HeadReasonsComeFirst` and
   * `GazeReasonsInOrder` describe it), which for a frame that is not suspicious
   * says so.
   */
  lemma TwoEyesAreJudgedByPoseAndGaze(frame: FrameObservation)
    requires Conformant(frame) && frame.faces.Found? && |frame.faces.value| == 1
    requires frame.eyes.Found? && |frame.eyes.value| >= 2
    ensures var sorted := SortEyesByX(frame.eyes.value);
            assert sorted[0] in multiset(sorted) && sorted[1] in multiset(sorted);
            var face, r := frame.faces.value[0], Analysis(frame);
            && r.faceCount == 1
            && r.headPose == Some(EstimateHeadPose(EyeCenter(face, sorted[0].rect), EyeCenter(face, sorted[1].rect), face))
            && r.eyeGaze == Some(EyeGaze(frame.width, frame.height, face, sorted[0], sorted[1]))
            && r.suspiciousActivity == DetectSuspiciousActivity(r.headPose.value, r.eyeGaze.value)
            && r.evidenceType == Some(if r.suspiciousActivity then "suspicious_gaze" else "normal")
            && r.description == GenerateDescription(Judged(r.headPose.value, r.eyeGaze.value))
            && (!r.suspiciousActivity ==> r.description == NothingSuspicious)
  {
    var sorted := SortEyesByX(frame.eyes.value);
    assert sorted[0] in multiset(sorted) && sorted[1] in multiset(sorted);
    var face := frame.faces.value[0];
    var pose := EstimateHeadPose(EyeCenter(face, sorted[0].rect), EyeCenter(face, sorted[1].rect), face);
    var gaze := EyeGaze(frame.width, frame.height, face, sorted[0], sorted[1]);
    var judged := NoResultYet.(faceCount := 1, headPose := Some(pose), eyeGaze := Some(gaze),
                               suspiciousActivity := DetectSuspiciousActivity(pose, gaze));
    var d := GenerateDescription(judged);
    assert Analysis(frame) == judged.(description := d, evidenceType := Some(
      if judged.suspiciousActivity then "suspicious_gaze" else "normal"));
  }

  /**
   * An exception from the detectors leaves a verdict of "not suspicious" with no
   * evidence type; when it comes from the face cascade, the result keeps the
   * constructor's face count of 0 and has no pose or gaze.
   */
  lemma DetectorFailureIsNotSuspicious(frame: FrameObservation)
    requires Conformant(frame)
    requires frame.faces.Failed? || (|frame.faces.value| == 1 && frame.eyes.Failed?)
    ensures !Analysis(frame).suspiciousActivity && Analysis(frame).evidenceType == None
    ensures frame.faces.Failed? ==>
            Analysis(frame) == NoResultYet.(description := "Error analyzing frame: " + frame.faces.message)
  {
  }

  /** Every suspicious result names its evidence type. */
  lemma SuspiciousResultHasEvidenceType(frame: FrameObservation)
    requires Conformant(frame)
    ensures Analysis(frame).suspiciousActivity ==> Analysis(frame).evidenceType.Some?
    ensures Analysis(frame).evidenceType.Some? ==>
            Analysis(frame).evidenceType.value in {"no_face", "multiple_faces", "no_eyes", "suspicious_gaze", "normal"}
  {
  }
}
