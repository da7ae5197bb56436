/**
 * `ClientCheatingDetectionService`: push-mode monitoring. The browser sends
 * frames; the service keeps only the set of active sessions and, for a frame of
 * an active session, runs the frame analysis and logs what it finds suspicious.
 */
module PushMonitoring {
  import opened Model
  import FaceDetection

  class ClientCheatingDetectionService {
    var activeMonitoringSessions: map<string, bool>

    /** A session is only ever registered as active. */
    ghost predicate Valid()
      reads this
    {
      forall id <- activeMonitoringSessions :: activeMonitoringSessions[id]
    }

    constructor ()
      ensures Valid() && activeMonitoringSessions == map[]
    {
      activeMonitoringSessions := map[];
    }

    /** Marks a session active; a session already active is left as it is. */
    method StartMonitoring(sessionId: string, examId: string)
      requires Valid()
      modifies this
      ensures Valid()
      ensures sessionId in activeMonitoringSessions
      ensures activeMonitoringSessions == old(activeMonitoringSessions)[sessionId := true]
    {
      if sessionId in activeMonitoringSessions {
        return;
      }
      activeMonitoringSessions := activeMonitoringSessions[sessionId := true];
    }

    /** Forgets a session; an unknown id changes nothing. */
    method StopMonitoring(sessionId: string)
      requires Valid()
      modifies this
      ensures Valid()
      ensures activeMonitoringSessions == old(activeMonitoringSessions) - {sessionId}
    {
      activeMonitoringSessions := activeMonitoringSessions - {sessionId};
    }

    /**
     * Judges one frame sent for a session. `image` is what decoding the bytes
     * yields; a failed decode is an empty image. Frames of inactive sessions and
     * empty images are not suspicious and log nothing. Otherwise the answer is the
     * frame analysis' verdict, and a suspicious frame is logged with the analysis'
     * description and evidence type, which a suspicious result always has, so the
     * "suspicious" fallback for a missing type is never taken.
     */
    method AnalyzeFrame(sessionId: string, examId: string, image: FrameObservation)
      returns (suspicious: bool, logged: Option<ActivityRecord>)
      requires Conformant(image)
      ensures logged.Some? <==> suspicious
      ensures sessionId !in activeMonitoringSessions || IsEmpty(image) ==> !suspicious
      ensures sessionId in activeMonitoringSessions && !IsEmpty(image) ==>
              suspicious == FaceDetection.Analysis(image).suspiciousActivity
      ensures logged.Some? ==>
              && logged.value.sessionId == sessionId && logged.value.examId == examId
              && logged.value.description == FaceDetection.Analysis(image).description
              && Some(logged.value.evidenceType) == FaceDetection.Analysis(image).evidenceType
              && logged.value.evidenceType != "suspicious"
    {
      if sessionId !in activeMonitoringSessions {
        return false, None;
      }
      if IsEmpty(image) {
        return false, None;
      }
      var result := FaceDetection.AnalyzeWithOpenCV(image);
      if result.suspiciousActivity {
        FaceDetection.SuspiciousResultHasEvidenceType(image);
        var evidenceType := if result.evidenceType.Some? then result.evidenceType.value else "suspicious";
        return true, Some(ActivityRecord(sessionId, examId, result.description, evidenceType));
      }
      return false, None;
    }
  }
}
