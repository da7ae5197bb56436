/**
 * The rule-based verdict on one face whose pose and gaze were estimated
 * (`detectSuspiciousActivity`) and the sentence that explains it
 * (`generateDescription`). The thresholds are exact: every comparison is strict.
 */
module Classifier {
  import opened Model

  const NothingSuspicious := "No suspicious activity detected"

  /** The head is turned (|yaw| > 30) or tilted (|pitch| > 20). */
  predicate HeadAway(pose: HeadPoseResult)
  {
    Abs(pose.yaw) > 30.0 || Abs(pose.pitch) > 20.0
  }

  /** Either eye looks more than 0.3 to the side. */
  predicate EyesAway(gaze: EyeGazeResult)
  {
    Abs(gaze.leftEyeHorizontalGaze) > 0.3 || Abs(gaze.rightEyeHorizontalGaze) > 0.3
  }

  /** The head turns right (yaw > 15) with both eyes right of 0.2. */
  predicate HeadAndEyesRight(pose: HeadPoseResult, gaze: EyeGazeResult)
  {
    pose.yaw > 15.0 && gaze.leftEyeHorizontalGaze > 0.2 && gaze.rightEyeHorizontalGaze > 0.2
  }

  /** The head turns left (yaw < -15) with both eyes left of -0.2. */
  predicate HeadAndEyesLeft(pose: HeadPoseResult, gaze: EyeGazeResult)
  {
    pose.yaw < -15.0 && gaze.leftEyeHorizontalGaze < -0.2 && gaze.rightEyeHorizontalGaze < -0.2
  }

  predicate HeadAndEyesAway(pose: HeadPoseResult, gaze: EyeGazeResult)
  {
    HeadAndEyesRight(pose, gaze) || HeadAndEyesLeft(pose, gaze)
  }

  /** The head is straight (|yaw| < 10) and an eye looks more than 0.4 to the side. */
  predicate StraightHeadEyesAway(pose: HeadPoseResult, gaze: EyeGazeResult)
  {
    Abs(pose.yaw) < 10.0
    && (Abs(gaze.leftEyeHorizontalGaze) > 0.4 || Abs(gaze.rightEyeHorizontalGaze) > 0.4)
  }

  /**
   * The verdict on a pose and a gaze. The straight-head rule never decides it: any
   * eye beyond 0.4 is already beyond 0.3, so the verdict is the head rule, the eye
   * rule and the two same-side rules alone.
   */
  function DetectSuspiciousActivity(pose: HeadPoseResult, gaze: EyeGazeResult): (suspicious: bool)
    ensures suspicious == (HeadAway(pose) || EyesAway(gaze) || HeadAndEyesAway(pose, gaze))
  {
    var suspiciousHeadPose := HeadAway(pose);
    var suspiciousEyeGaze := EyesAway(gaze);
    var combinedSuspicious := HeadAndEyesAway(pose, gaze) || StraightHeadEyesAway(pose, gaze);
    suspiciousHeadPose || suspiciousEyeGaze || combinedSuspicious
  }

  /**
   * The head rule's bounds are strict: a yaw of exactly 30 (or a pitch of exactly
   * 20) with the eyes centred is not suspicious, anything beyond is.
   */
  lemma HeadRuleBoundary(yaw: real, pitch: real)
    ensures !DetectSuspiciousActivity(HeadPoseResult(30.0, 0.0), StraightGaze)
    ensures !DetectSuspiciousActivity(HeadPoseResult(-30.0, 0.0), StraightGaze)
    ensures !DetectSuspiciousActivity(HeadPoseResult(0.0, 20.0), StraightGaze)
    ensures !DetectSuspiciousActivity(HeadPoseResult(0.0, -20.0), StraightGaze)
    ensures Abs(yaw) > 30.0 || Abs(pitch) > 20.0 ==>
            forall gaze :: DetectSuspiciousActivity(HeadPoseResult(yaw, pitch), gaze)
  {
  }

  /** A calm head with both eyes within 0.3 of centre and no same-side pair passes. */
  lemma CalmFrameIsNotSuspicious(pose: HeadPoseResult, gaze: EyeGazeResult)
    requires Abs(pose.yaw) <= 30.0 && Abs(pose.pitch) <= 20.0
    requires Abs(gaze.leftEyeHorizontalGaze) <= 0.2 || Abs(gaze.rightEyeHorizontalGaze) <= 0.2
    requires Abs(gaze.leftEyeHorizontalGaze) <= 0.3 && Abs(gaze.rightEyeHorizontalGaze) <= 0.3
    ensures !DetectSuspiciousActivity(pose, gaze)
  {
  }

  /** The pose and gaze seen in a mirror: left and right swap, up and down stay. */
  function MirrorPose(pose: HeadPoseResult): HeadPoseResult
  {
    pose.(yaw := -pose.yaw)
  }

  function MirrorGaze(gaze: EyeGazeResult): EyeGazeResult
  {
    gaze.(leftEyeHorizontalGaze := -gaze.leftEyeHorizontalGaze,
          rightEyeHorizontalGaze := -gaze.rightEyeHorizontalGaze)
  }

  /** The rules favour neither side: a frame and its mirror image get the same verdict. */
  lemma VerdictIsMirrorSymmetric(pose: HeadPoseResult, gaze: EyeGazeResult)
    ensures DetectSuspiciousActivity(MirrorPose(pose), MirrorGaze(gaze))
            == DetectSuspiciousActivity(pose, gaze)
  {
  }

  /** Both eyes look more than 0.3 to the same side: the sentence's eye rule. */
  predicate BothEyesAway(gaze: EyeGazeResult)
  {
    var l, r := gaze.leftEyeHorizontalGaze, gaze.rightEyeHorizontalGaze;
    (l > 0.3 && r > 0.3) || (l < -0.3 && r < -0.3)
  }

  function HeadTurnedSentence(side: string): string
  {
    "Head turned " + side + " - student may be looking away"
  }

  function HeadTiltedSentence(side: string): string
  {
    "Head tilted " + side + " - student may be looking at notes"
  }

  function EyesLookingSentence(side: string): string
  {
    "Eyes looking " + side + " - student may be viewing other materials"
  }

  const HeadAndEyesRightSentence := "Head and eyes turned right - likely looking at unauthorized materials"
  const HeadAndEyesLeftSentence := "Head and eyes turned left - likely looking at unauthorized materials"
  const StraightHeadSentence := "Eyes looking to the side while head is straight - likely attempting to cheat"

  /**
   * The sentence for a frame. A result with other than one face keeps the
   * description it already holds; for one face the first matching reason wins, in
   * the order head turned, head tilted, both eyes to one side, head and eyes to one
   * side, eyes aside with the head straight. Whenever the verdict is "not
   * suspicious" the sentence says so.
   */
  function GenerateDescription(result: FaceDetectionResult): (d: string)
    requires result.faceCount == 1 ==> result.headPose.Some? && result.eyeGaze.Some?
    ensures result.faceCount != 1 ==> d == result.description
    ensures result.faceCount == 1
            && !DetectSuspiciousActivity(result.headPose.value, result.eyeGaze.value)
            ==> d == NothingSuspicious
  {
    if result.faceCount != 1 then result.description
    else
      var headPose := result.headPose.value;
      var leftGaze := result.eyeGaze.value.leftEyeHorizontalGaze;
      var rightGaze := result.eyeGaze.value.rightEyeHorizontalGaze;
      if Abs(headPose.yaw) > 30.0 then
        HeadTurnedSentence(if headPose.yaw > 0.0 then "right" else "left")
      else if Abs(headPose.pitch) > 20.0 then
        HeadTiltedSentence(if headPose.pitch > 0.0 then "up" else "down")
      else if (leftGaze > 0.3 && rightGaze > 0.3) || (leftGaze < -0.3 && rightGaze < -0.3) then
        EyesLookingSentence(if leftGaze > 0.0 then "right" else "left")
      else if headPose.yaw > 15.0 && leftGaze > 0.2 && rightGaze > 0.2 then
        HeadAndEyesRightSentence
      else if headPose.yaw < -15.0 && leftGaze < -0.2 && rightGaze < -0.2 then
        HeadAndEyesLeftSentence
      else if Abs(headPose.yaw) < 10.0 && (Abs(leftGaze) > 0.4 || Abs(rightGaze) > 0.4) then
        StraightHeadSentence
      else
        NothingSuspicious
  }

  /** A one-face result holding the given pose and gaze, as the analysis builds it. */
  function Judged(pose: HeadPoseResult, gaze: EyeGazeResult): FaceDetectionResult
  {
    FaceDetectionResult(1, Some(pose), Some(gaze), DetectSuspiciousActivity(pose, gaze),
                        "No result yet", None)
  }

  /**
   * The verdict and the sentence disagree: one eye at 0.35 with the other centred
   * and a yaw of 20 is suspicious (the single-eye rule fires), but the sentence
   * asks both eyes to pass 0.3, so it reads "No suspicious activity detected".
   */
  lemma SuspiciousButDescribedAsNothing()
    ensures var pose, gaze := HeadPoseResult(20.0, 0.0), EyeGazeResult(0.35, 0.0, 0.0, 0.0);
            && DetectSuspiciousActivity(pose, gaze)
            && GenerateDescription(Judged(pose, gaze)) == NothingSuspicious
  {
  }

  /**
   * The head reasons come first: a head turned beyond 30, or else tilted beyond
   * 20, is given as the reason whatever the eyes do, with the side from the sign,
   * and the verdict holds.
   */
  lemma HeadReasonsComeFirst(pose: HeadPoseResult, gaze: EyeGazeResult)
    ensures Abs(pose.yaw) > 30.0 ==>
            && GenerateDescription(Judged(pose, gaze))
               == HeadTurnedSentence(if pose.yaw > 0.0 then "right" else "left")
            && DetectSuspiciousActivity(pose, gaze)
    ensures Abs(pose.yaw) <= 30.0 && Abs(pose.pitch) > 20.0 ==>
            && GenerateDescription(Judged(pose, gaze))
               == HeadTiltedSentence(if pose.pitch > 0.0 then "up" else "down")
            && DetectSuspiciousActivity(pose, gaze)
  {
  }

  /**
   * Below the head reasons the sentence follows the gaze rules in the order they
   * are checked: both eyes beyond 0.3 on one side; then head and both eyes to the
   * right; then to the left; then an eye beyond 0.4 with the head straight; and
   * otherwise nothing. Each reason given is a reason the verdict holds.
   */
  lemma GazeReasonsInOrder(pose: HeadPoseResult, gaze: EyeGazeResult)
    requires Abs(pose.yaw) <= 30.0 && Abs(pose.pitch) <= 20.0
    ensures BothEyesAway(gaze) ==>
            GenerateDescription(Judged(pose, gaze))
            == EyesLookingSentence(if gaze.leftEyeHorizontalGaze > 0.0 then "right" else "left")
    ensures !BothEyesAway(gaze) && HeadAndEyesRight(pose, gaze) ==>
            GenerateDescription(Judged(pose, gaze)) == HeadAndEyesRightSentence
    ensures !BothEyesAway(gaze) && HeadAndEyesLeft(pose, gaze) ==>
            GenerateDescription(Judged(pose, gaze)) == HeadAndEyesLeftSentence
    ensures !BothEyesAway(gaze) && !HeadAndEyesAway(pose, gaze) && StraightHeadEyesAway(pose, gaze) ==>
            GenerateDescription(Judged(pose, gaze)) == StraightHeadSentence
    ensures !BothEyesAway(gaze) && !HeadAndEyesAway(pose, gaze) && !StraightHeadEyesAway(pose, gaze) ==>
            GenerateDescription(Judged(pose, gaze)) == NothingSuspicious
    ensures GenerateDescription(Judged(pose, gaze)) != NothingSuspicious ==>
            DetectSuspiciousActivity(pose, gaze)
  {
  }
}
