/**
 * `CheatingDetectionService`: pull-mode monitoring. Each session owns a webcam
 * handle and a task that captures and classifies one frame every 5000 ms. The
 * webcam and the scheduler are opaque: the model keeps the handles in the two
 * maps and records, in order, the tasks scheduled and cancelled and the webcams
 * released. Opening a webcam and setting its frame size are not recorded.
 */
module PullMonitoring {
  import opened Model
  import Gaze

  /** Milliseconds between two captures of one session. */
  const CaptureInterval: nat := 5000

  /** The webcam a session opens: device 0, asked for 640x480 frames. */
  datatype VideoCapture = VideoCapture(device: nat, frameWidth: nat, frameHeight: nat)

  const Webcam := VideoCapture(0, 640, 480)

  /** The recurring capture task of one session, as handed to the scheduler. */
  datatype MonitoringTask = MonitoringTask(sessionId: string, examId: string, initialDelay: nat, period: nat)

  /** A request made to the scheduler or to a webcam. */
  datatype Effect =
    | Scheduled(task: MonitoringTask)
    | Cancelled(sessionId: string)
    | Released(sessionId: string)

  /**
   * What one capture yields: no frame, or a frame of `width` by `height` pixels
   * with the faces the cascade finds on its half-scale copy and the number of eyes
   * it finds in the (full-scale) face region.
   */
  datatype CapturedFrame =
    | ReadFailed
    | Captured(width: nat, height: nat, smallFaces: Detection<seq<Rect>>, eyeCount: Detection<nat>)

  /** The three locals the tick fills in; `None` is Java's `null`. */
  datatype TickVerdict = TickVerdict(suspicious: bool, description: Option<string>, evidenceType: Option<string>)

  const NotSuspicious := TickVerdict(false, None, None)

  /** How one tick ends. Only `Analyzed` reaches the log, and only with a record when suspicious. */
  datatype TickOutcome =
    | WebcamUnavailable
    | EmptyFrame
    | TickFailed(message: string)
    | Analyzed(verdict: TickVerdict, logged: Option<ActivityRecord>)

  /** A face rectangle from the half-scale image, in full-scale coordinates. */
  function Doubled(r: Rect): (full: Rect)
    ensures Rect(full.x / 2, full.y / 2, full.width / 2, full.height / 2) == r
    ensures full.x % 2 == 0 && full.y % 2 == 0 && full.width % 2 == 0 && full.height % 2 == 0
  {
    Rect(r.x * 2, r.y * 2, r.width * 2, r.height * 2)
  }

  /** Scaling back keeps the number of faces and each face's place in the list. */
  function FullScale(smallFaces: seq<Rect>): (faces: seq<Rect>)
    ensures |faces| == |smallFaces|
    ensures forall i :: 0 <= i < |faces| ==> faces[i] == Doubled(smallFaces[i])
  {
    seq(|smallFaces|, i requires 0 <= i < |smallFaces| => Doubled(smallFaces[i]))
  }

  /**
   * Scaling back loses nothing the tick decides on: the doubled face passes the
   * bounds test in a frame of twice the size exactly when the half-scale face
   * passes it in the half-scale frame, and it is off centre exactly when the
   * half-scale face is.
   */
  lemma ScaleBackKeepsJudgement(small: Rect, width: nat, height: nat)
    ensures InBounds(Doubled(small), 2 * width, 2 * height) == InBounds(small, width, height)
    ensures OffCenter(Doubled(small), 2 * width) == OffCenter(small, width)
  {
  }

  /**
   * The tick's test before cropping the face: strict on the far edges, so a face
   * that passes it (with a non-negative size) can always be cropped.
   */
  predicate InBounds(face: Rect, width: int, height: int): (inside: bool)
    ensures inside && face.width >= 0 && face.height >= 0 ==> Gaze.CropsWithin(face, width, height)
  {
    face.x >= 0 && face.y >= 0 && face.x + face.width < width && face.y + face.height < height
  }

  /**
   * The face's centre is more than 20% of the frame width from the frame's
   * centre, that is, outside the middle 60% of the width.
   */
  predicate OffCenter(face: Rect, width: nat): (off: bool)
    ensures var faceCenter := face.x as real + face.width as real / 2.0;
            off <==> faceCenter < 0.3 * width as real || faceCenter > 0.7 * width as real
  {
    var frameCenter := width as real / 2.0;
    var faceCenter := face.x as real + face.width as real / 2.0;
    Abs(frameCenter - faceCenter) > width as real * 0.2
  }

  /**
   * The verdict on the full-scale faces of a frame, or the message of the
   * exception the eye cascade raised. A verdict carries a description and an
   * evidence type exactly when it is suspicious.
   */
  function Classify(width: nat, height: nat, faces: seq<Rect>, eyeCount: Detection<nat>): (v: Detection<TickVerdict>)
    ensures v.Found? ==> (v.value.suspicious <==> v.value.description.Some?)
    ensures v.Found? ==> (v.value.suspicious <==> v.value.evidenceType.Some?)
  {
    if |faces| == 0 then
      Found(TickVerdict(true, Some("No face detected - student may be absent"), Some("no_face")))
    else if |faces| > 1 then
      Found(TickVerdict(true, Some("Multiple faces detected - potential collaboration"), Some("multiple_faces")))
    else if !InBounds(faces[0], width, height) then
      Found(NotSuspicious)
    else
      match eyeCount
      case Failed(message) => Failed(message)
      case Found(n) =>
        if n == 0 then
          Found(TickVerdict(true, Some("No eyes detected - student may be looking away"), Some("no_eyes")))
        else if OffCenter(faces[0], width) then
          Found(TickVerdict(true, Some("Face not centered - student may be looking to the side"), Some("face_off_center")))
        else
          Found(NotSuspicious)
  }

  /** What `captureAndAnalyze` does for a session, given the registered webcams and the frame read. */
  function Tick(captures: map<string, VideoCapture>, sessionId: string, examId: string, frame: CapturedFrame)
    : (outcome: TickOutcome)
    ensures outcome.Analyzed? ==>
            && sessionId in captures
            && frame.Captured? && frame.width > 0 && frame.height > 0 && frame.smallFaces.Found?
    ensures outcome.Analyzed? && outcome.verdict.suspicious ==>
            outcome.logged.Some? && outcome.logged.value.sessionId == sessionId
  {
    if sessionId !in captures then WebcamUnavailable
    else
      match frame
      case ReadFailed => EmptyFrame
      case Captured(width, height, smallFaces, eyeCount) =>
        if width == 0 || height == 0 then EmptyFrame
        else
          match smallFaces
          case Failed(message) => TickFailed(message)
          case Found(small) =>
            match Classify(width, height, FullScale(small), eyeCount)
            case Failed(message) => TickFailed(message)
            case Found(v) =>
              Analyzed(v, if v.suspicious
                          then Some(ActivityRecord(sessionId, examId, v.description.value, v.evidenceType.value))
                          else None)
  }

  class CheatingDetectionService {
    var studentCaptures: map<string, VideoCapture>
    var monitoringTasks: map<string, MonitoringTask>
    var effects: seq<Effect>

    /** Every session holds both a webcam and its own task, repeating every 5000 ms. */
    ghost predicate Valid()
      reads this
    {
      && studentCaptures.Keys == monitoringTasks.Keys
      && forall id <- monitoringTasks ::
           monitoringTasks[id].sessionId == id && monitoringTasks[id].period == CaptureInterval
    }

    constructor ()
      ensures Valid()
      ensures studentCaptures == map[] && monitoringTasks == map[] && effects == []
    {
      studentCaptures := map[];
      monitoringTasks := map[];
      effects := [];
    }

    /**
     * Starts capturing for a session. A session already monitored is left as it
     * is; a webcam that does not open fails the call and registers nothing;
     * otherwise the webcam and a task starting now and repeating every 5000 ms are
     * registered under the session id.
     */
    method StartMonitoring(sessionId: string, examId: string, webcamOpens: bool) returns (error: Option<string>)
      requires Valid()
      modifies this
      ensures Valid()
      ensures sessionId in old(studentCaptures) ==>
              && error == None
              && studentCaptures == old(studentCaptures) && monitoringTasks == old(monitoringTasks)
              && effects == old(effects)
      ensures sessionId !in old(studentCaptures) && !webcamOpens ==>
              && error == Some("Error starting webcam monitoring")
              && studentCaptures == old(studentCaptures) && monitoringTasks == old(monitoringTasks)
              && effects == old(effects)
      ensures sessionId !in old(studentCaptures) && webcamOpens ==>
              && error == None
              && studentCaptures == old(studentCaptures)[sessionId := Webcam]
              && monitoringTasks == old(monitoringTasks)[sessionId := MonitoringTask(sessionId, examId, 0, CaptureInterval)]
              && effects == old(effects) + [Scheduled(MonitoringTask(sessionId, examId, 0, CaptureInterval))]
    {
      if sessionId in studentCaptures {
        return None;
      }
      if !webcamOpens {
        return Some("Error starting webcam monitoring");
      }
      studentCaptures := studentCaptures[sessionId := Webcam];
      var task := MonitoringTask(sessionId, examId, 0, CaptureInterval);
      effects := effects + [Scheduled(task)];
      monitoringTasks := monitoringTasks[sessionId := task];
      error := None;
    }

    /**
     * Stops a session: its task is removed and cancelled first, then its webcam is
     * removed and released. An unknown session id changes nothing.
     */
    method StopMonitoring(sessionId: string)
      requires Valid()
      modifies this
      ensures Valid()
      ensures studentCaptures == old(studentCaptures) - {sessionId}
      ensures monitoringTasks == old(monitoringTasks) - {sessionId}
      ensures effects == old(effects)
                         + (if sessionId in old(monitoringTasks) then [Cancelled(sessionId), Released(sessionId)] else [])
    {
      var hadTask := sessionId in monitoringTasks;
      monitoringTasks := monitoringTasks - {sessionId};
      if hadTask {
        effects := effects + [Cancelled(sessionId)];
      }
      var hadCapture := sessionId in studentCaptures;
      studentCaptures := studentCaptures - {sessionId};
      if hadCapture {
        effects := effects + [Released(sessionId)];
      }
    }

    /**
     * One tick of a session's task: the faces found on the half-scale image are
     * scaled back in place, then the locals are filled in rule by rule, and a
     * suspicious verdict is handed to the evidence store and the log.
     */
    method CaptureAndAnalyze(sessionId: string, examId: string, frame: CapturedFrame) returns (outcome: TickOutcome)
      ensures outcome == Tick(studentCaptures, sessionId, examId, frame)
    {
      if sessionId !in studentCaptures {
        return WebcamUnavailable;
      }
      if frame.ReadFailed? || frame.width == 0 || frame.height == 0 {
        return EmptyFrame;
      }
      if frame.smallFaces.Failed? {
        return TickFailed(frame.smallFaces.message);
      }
      var small := frame.smallFaces.value;
      var facesArray := new Rect[|small|](i requires 0 <= i < |small| => small[i]);
      for i := 0 to facesArray.Length
        invariant forall k :: 0 <= k < i ==> facesArray[k] == Doubled(small[k])
        invariant forall k :: i <= k < facesArray.Length ==> facesArray[k] == small[k]
      {
        var rect := facesArray[i];
        rect := rect.(x := rect.x * 2);
        rect := rect.(y := rect.y * 2);
        rect := rect.(width := rect.width * 2);
        rect := rect.(height := rect.height * 2);
        facesArray[i] := rect;
      }
      assert facesArray[..] == FullScale(small);

      var suspiciousActivity := false;
      var description: Option<string> := None;
      var evidenceType: Option<string> := None;
      if facesArray.Length == 0 {
        description := Some("No face detected - student may be absent");
        evidenceType := Some("no_face");
        suspiciousActivity := true;
      } else if facesArray.Length > 1 {
        description := Some("Multiple faces detected - potential collaboration");
        evidenceType := Some("multiple_faces");
        suspiciousActivity := true;
      } else {
        var faceRect := facesArray[0];
        if faceRect.x >= 0 && faceRect.y >= 0
           && faceRect.x + faceRect.width < frame.width
           && faceRect.y + faceRect.height < frame.height
        {
          if frame.eyeCount.Failed? {
            return TickFailed(frame.eyeCount.message);
          }
          if frame.eyeCount.value == 0 {
            description := Some("No eyes detected - student may be looking away");
            evidenceType := Some("no_eyes");
            suspiciousActivity := true;
          } else {
            var frameCenter := frame.width as real / 2.0;
            var faceCenter := faceRect.x as real + faceRect.width as real / 2.0;
            if Abs(frameCenter - faceCenter) > frame.width as real * 0.2 {
              description := Some("Face not centered - student may be looking to the side");
              evidenceType := Some("face_off_center");
              suspiciousActivity := true;
            }
          }
        }
      }

      var logged: Option<ActivityRecord> := None;
      if suspiciousActivity {
        logged := Some(ActivityRecord(sessionId, examId, description.value, evidenceType.value));
      }
      outcome := Analyzed(TickVerdict(suspiciousActivity, description, evidenceType), logged);
    }
  }

  /** A tick for a session without a registered webcam produces nothing. */
  lemma TickNeedsWebcam(captures: map<string, VideoCapture>, sessionId: string, examId: string, frame: CapturedFrame)
    requires sessionId !in captures
    ensures Tick(captures, sessionId, examId, frame) == WebcamUnavailable
  {
  }

  /**
   * The face count comes first: no face, or several, is suspicious whatever the
   * frame's size and the eye cascade's answer.
   */
  lemma FaceCountOtherThanOneIsSuspicious(width: nat, height: nat, faces: seq<Rect>, eyeCount: Detection<nat>)
    requires |faces| != 1
    ensures var v := Classify(width, height, faces, eyeCount);
            && v.Found? && v.value.suspicious
            && v.value.evidenceType == Some(if |faces| == 0 then "no_face" else "multiple_faces")
  {
  }

  /** A single face that fails the bounds check is ignored: the tick is not suspicious. */
  lemma OutOfBoundsFaceIsIgnored(width: nat, height: nat, face: Rect, eyeCount: Detection<nat>)
    requires !InBounds(face, width, height)
    ensures Classify(width, height, [face], eyeCount) == Found(NotSuspicious)
  {
  }

  /**
   * The far-edge test is strict: a face found on the half-scale image of a 640x480
   * frame whose scaled rectangle ends exactly on the right edge is ignored, even
   * with no eye in it.
   */
  lemma FaceOnRightEdgeIsIgnored(captures: map<string, VideoCapture>, sessionId: string, examId: string)
    requires sessionId in captures
    ensures Tick(captures, sessionId, examId, Captured(640, 480, Found([Rect(220, 50, 100, 100)]), Found(0)))
            == Analyzed(NotSuspicious, None)
  {
    assert FullScale([Rect(220, 50, 100, 100)]) == [Rect(440, 100, 200, 200)];
  }

  /**
   * For a single in-bounds face with at least one eye, the tick is suspicious
   * exactly when the face's centre lies outside the middle 60% of the frame
   * width, and it then reports "face_off_center".
   */
  lemma OffCenterIsOutsideMiddleBand(width: nat, height: nat, face: Rect, eyes: nat)
    requires InBounds(face, width, height) && eyes > 0
    ensures var faceCenter := face.x as real + face.width as real / 2.0;
            var v := Classify(width, height, [face], Found(eyes));
            && v.Found?
            && (v.value.suspicious <==> faceCenter < 0.3 * width as real || faceCenter > 0.7 * width as real)
            && (v.value.suspicious ==> v.value.evidenceType == Some("face_off_center"))
  {
  }

  /** A single in-bounds face with no eye found is suspicious as "no_eyes". */
  lemma NoEyesIsSuspicious(width: nat, height: nat, face: Rect)
    requires InBounds(face, width, height)
    ensures Classify(width, height, [face], Found(0))
            == Found(TickVerdict(true, Some("No eyes detected - student may be looking away"), Some("no_eyes")))
  {
  }

  /**
   * Evidence is saved and logged exactly when the tick is suspicious, with the
   * tick's description and evidence type.
   */
  lemma LoggedExactlyWhenSuspicious(captures: map<string, VideoCapture>, sessionId: string, examId: string, frame: CapturedFrame)
    ensures var outcome := Tick(captures, sessionId, examId, frame);
            outcome.Analyzed? ==>
              && (outcome.logged.Some? <==> outcome.verdict.suspicious)
              && (outcome.logged.Some? ==>
                    && outcome.logged.value.sessionId == sessionId && outcome.logged.value.examId == examId
                    && Some(outcome.logged.value.description) == outcome.verdict.description
                    && Some(outcome.logged.value.evidenceType) == outcome.verdict.evidenceType)
  {
  }
}
