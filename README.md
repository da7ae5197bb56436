# Cheating exam detection: frame classifier and monitoring sessions

This project models the core of a Spring service that watches exam takers
through a webcam and flags suspicious frames. It has three parts.

- **Frame classifier** (`MediaPipeFaceDetectionService.analyzeWithOpenCV` and its helpers).
  It counts the faces in a frame. For a single face with at least two eyes, it:
  - sorts the eyes by x;
  - estimates a head pose (yaw, pitch) from where the two leftmost eyes sit on the face;
  - estimates the horizontal and vertical gaze of each eye, from the largest dark
    contour inside the eye region;
  - applies fixed rules to reach a verdict and a sentence that explains it.
- **Pull-mode registry** (`CheatingDetectionService`). For each session the server
  opens the webcam and schedules a task every 5000 ms. Each tick captures a frame,
  detects faces on a half-scale copy and judges the face count, the eyes and
  whether the face is centred.
- **Push-mode gate** (`ClientCheatingDetectionService`). The browser sends frames.
  The service keeps only the set of active sessions. It runs the frame classifier
  on frames of active sessions and logs what is suspicious.

OpenCV's detectors, decoders and contour extraction are opaque. The model takes
their outputs as input:
- `Model.FrameObservation` holds the frame size, the face rectangles or the
  exception the face cascade raised, and the eye rectangles or the eye cascade's
  exception. Each eye rectangle carries the contours found in its thresholded region,
  or the exception the pupil search raised on it.
- `PullMonitoring.CapturedFrame` plays the same role for one webcam read.

Detectors report rectangles of positive size, so `Model.Conformant` asks this of
every rectangle; the divisions by face and eye sizes rely on it. Java `double`s are
modelled as exact reals.

The services' side effects are part of the results:
- the pull registry's `effects` trace records, in call order, the tasks scheduled
  and cancelled and the webcams released; opening a webcam, setting its frame
  size and asking whether it is open are not recorded;
- the evidence-and-log write is the `Model.ActivityRecord` a tick or a pushed frame
  returns.

Modules: `Model` (data), `Decimal` (the face count written in decimal), `HeadPose`,
`Gaze`, `Classifier`, `FaceDetection` (the whole frame analysis), `PullMonitoring`,
`PushMonitoring`.

The two paths judge a frame differently:
- The pull tick's eye rule fires only when no eye is found; the push path's fires
  when fewer than two are found.
- The pull tick checks that the face is centred whenever at least one eye is found.
- The evidence types are the strings the code writes: `no_face`, `multiple_faces`,
  `no_eyes`, `face_off_center`, `suspicious_gaze` and `normal`.

## Model

| member | source | states |
|---|---|---|
| Decimal.NatToString | src/main/java/com/lms/cheating_detection/service/MediaPipeFaceDetectionService.java:205 | The face count written into the multiple-faces sentence is a non-empty string of decimal digits with no leading zero, one digit exactly when the count is below 10 |
| Decimal.DigitChar | src/main/java/com/lms/cheating_detection/service/MediaPipeFaceDetectionService.java:205 | Each digit of the count is the character of that digit's value |
| Decimal.ParseNatToString | src/main/java/com/lms/cheating_detection/service/MediaPipeFaceDetectionService.java:205 | Reading the written count back gives the count: the decimal form is lossless |
| HeadPose.EstimateHeadPose | src/main/java/com/lms/cheating_detection/service/MediaPipeFaceDetectionService.java:224-253 | Yaw is zero exactly when the eyes' midpoint is on the face's vertical centre line and positive exactly when it is to the right of it; pitch is zero exactly when the midpoint is 0.4 of the face height below the top and positive exactly when it is lower |
| HeadPose.EyeCenter | src/main/java/com/lms/cheating_detection/service/MediaPipeFaceDetectionService.java:172-175 | An eye centre in frame coordinates lies as far from the eye rectangle's left edge as from its right edge, and from its top as from its bottom |
| HeadPose.EyeMidpointFromPose | src/main/java/com/lms/cheating_detection/service/MediaPipeFaceDetectionService.java:238-250 | The pose is invertible: the eyes' midpoint equals the face centre plus yaw·width/90, and the neutral eye line plus pitch·height/90 |
| Gaze.LargestContour | src/main/java/com/lms/cheating_detection/service/MediaPipeFaceDetectionService.java:338-346 | The scan ends on -1 exactly when there is no contour; otherwise on a contour of maximal area that is strictly larger than every earlier one, i.e. the first maximum |
| Gaze.PupilCenter | src/main/java/com/lms/cheating_detection/service/MediaPipeFaceDetectionService.java:337-371 | With no contour the pupil is the centre of the eye region, so this path never fails; otherwise it is the centroid of a contour of maximal area, the earliest among equals |
| Gaze.FindPupilCenter | src/main/java/com/lms/cheating_detection/service/MediaPipeFaceDetectionService.java:315-376 | The loop over the contours returns the pupil the specification function picks: the centroid of the first largest contour, or the region's centre |
| Gaze.NormalizedOffset | src/main/java/com/lms/cheating_detection/service/MediaPipeFaceDetectionService.java:282-287 | A normalised pupil coordinate is 0 exactly at the middle of the eye, and lies in [-1, 1] when the pupil is inside the eye |
| Gaze.NormalizedOffsetInverse | src/main/java/com/lms/cheating_detection/service/MediaPipeFaceDetectionService.java:283-287 | The pupil coordinate is recovered from its normalised value, so the normalisation loses nothing |
| Gaze.AbsoluteRect | src/main/java/com/lms/cheating_detection/service/MediaPipeFaceDetectionService.java:260-272 | Translating an eye rectangle to frame coordinates keeps its size, and translating back by the face origin gives the eye rectangle again |
| Gaze.CropsWithin | src/main/java/com/lms/cheating_detection/service/MediaPipeFaceDetectionService.java:275-276 | Defines the region test OpenCV applies before cutting an eye region out of the frame (inclusive on the far edges); `PullMonitoring.InBounds` proves the pull tick's strict test implies it |
| Gaze.EyeGaze | src/main/java/com/lms/cheating_detection/service/MediaPipeFaceDetectionService.java:255-313 | When an eye region falls outside the frame, or the pupil search of either eye throws, the gaze is all zeros; otherwise each eye's pupil is recovered from its two gaze values, so the gaze records exactly where the pupil is |
| Gaze.EstimateEyeGaze | src/main/java/com/lms/cheating_detection/service/MediaPipeFaceDetectionService.java:255-313 | The gaze built field by field equals the specification: all zeros when an eye region falls outside the frame or a pupil search throws (the handler's defaults), otherwise the normalised pupil offsets of each eye |
| Gaze.NoContourLooksStraight | src/main/java/com/lms/cheating_detection/service/MediaPipeFaceDetectionService.java:362-371 | An eye whose region holds no contour is reported as looking straight ahead on both axes |
| Gaze.GazeWithinUnitRange | src/main/java/com/lms/cheating_detection/service/MediaPipeFaceDetectionService.java:282-293 | When every contour centroid lies inside its eye region, all four reported gaze values lie in [-1, 1] |
| Gaze.PupilInside | src/main/java/com/lms/cheating_detection/service/MediaPipeFaceDetectionService.java:349-371 | The chosen pupil lies inside its eye region when every contour centroid does |
| Classifier.DetectSuspiciousActivity | src/main/java/com/lms/cheating_detection/service/MediaPipeFaceDetectionService.java:378-406 | The verdict on a pose and a gaze; the straight-head rule (eye beyond 0.4 with yaw under 10) never changes a verdict: the verdict equals the head rule or the single-eye rule or the two same-side rules |
| Classifier.HeadRuleBoundary | src/main/java/com/lms/cheating_detection/service/MediaPipeFaceDetectionService.java:380 | Yaw of exactly ±30 or pitch of exactly ±20 with centred eyes is not suspicious; any yaw beyond 30 or pitch beyond 20 is suspicious whatever the gaze |
| Classifier.CalmFrameIsNotSuspicious | src/main/java/com/lms/cheating_detection/service/MediaPipeFaceDetectionService.java:378-406 | Head within the bounds, both eyes within 0.3 and one eye within 0.2 is not suspicious |
| Classifier.VerdictIsMirrorSymmetric | src/main/java/com/lms/cheating_detection/service/MediaPipeFaceDetectionService.java:378-406 | Negating the yaw and both horizontal gazes never changes the verdict: the rules favour no side |
| Classifier.GenerateDescription | src/main/java/com/lms/cheating_detection/service/MediaPipeFaceDetectionService.java:408-449 | A result with other than one face keeps its description; a one-face result the verdict clears is described as "No suspicious activity detected" |
| Classifier.SuspiciousButDescribedAsNothing | src/main/java/com/lms/cheating_detection/service/MediaPipeFaceDetectionService.java:383-384 | Yaw 20 with one eye at 0.35 and the other centred is suspicious, yet its sentence is "No suspicious activity detected", because the sentence asks both eyes to pass 0.3 |
| Classifier.HeadReasonsComeFirst | src/main/java/com/lms/cheating_detection/service/MediaPipeFaceDetectionService.java:417-424 | A head turned beyond 30 is described as turned, else one tilted beyond 20 as tilted, whatever the eyes do, with the side from the sign, and the verdict is suspicious |
| Classifier.GazeReasonsInOrder | src/main/java/com/lms/cheating_detection/service/MediaPipeFaceDetectionService.java:426-448 | Within the head bounds the sentence follows the order of checks: both eyes beyond 0.3 to one side gives "Eyes looking" and that side; else head and both eyes to the right, else to the left; else an eye beyond 0.4 with the head straight; else "No suspicious activity detected"; any other sentence means the verdict is suspicious |
| FaceDetection.InsertByX | src/main/java/com/lms/cheating_detection/service/MediaPipeFaceDetectionService.java:164-165 | Inserting an eye into the sorted list adds exactly that eye |
| FaceDetection.SortEyesByX | src/main/java/com/lms/cheating_detection/service/MediaPipeFaceDetectionService.java:164-165 | Sorting the eyes is a permutation of the detected eyes |
| FaceDetection.InsertByXKeepsSorted | src/main/java/com/lms/cheating_detection/service/MediaPipeFaceDetectionService.java:165 | Inserting into a list ordered by x keeps it ordered |
| FaceDetection.SortEyesByXIsSorted | src/main/java/com/lms/cheating_detection/service/MediaPipeFaceDetectionService.java:165 | The sorted eyes are in ascending x |
| FaceDetection.SortKeepsEarliestLeftmost | src/main/java/com/lms/cheating_detection/service/MediaPipeFaceDetectionService.java:164-168 | The eye taken as left is a leftmost detection, and no detection reported before it is as far left: ties keep the cascade's order, as Java's stable sort does |
| FaceDetection.SortSelectsEarliestLeftmost | src/main/java/com/lms/cheating_detection/service/MediaPipeFaceDetectionService.java:164-165 | Stability: the sort puts the earliest-reported leftmost eye first, followed by the sort of the other eyes kept in the order they were reported |
| FaceDetection.SortKeepsTwoEarliestLeftmost | src/main/java/com/lms/cheating_detection/service/MediaPipeFaceDetectionService.java:164-169 | On ties too the chosen eyes are fixed: the left eye is the earliest-reported leftmost detection, and the right eye the earliest-reported leftmost of the other detections |
| FaceDetection.AnalyzeWithOpenCV | src/main/java/com/lms/cheating_detection/service/MediaPipeFaceDetectionService.java:117-220 | The result built step by step equals the specification of the analysis, branch by branch, including both exception handlers |
| FaceDetection.FaceCountOtherThanOneIsSuspicious | src/main/java/com/lms/cheating_detection/service/MediaPipeFaceDetectionService.java:199-207 | No face, or several, is suspicious with type no_face or multiple_faces; the count is recorded, and the multiple-faces sentence holds the count in decimal digits |
| FaceDetection.MissingEyesAreSuspicious | src/main/java/com/lms/cheating_detection/service/MediaPipeFaceDetectionService.java:189-193 | One face with fewer than two eyes is suspicious with type no_eyes and the eyes-not-detected sentence |
| FaceDetection.TwoLeftmostEyes | src/main/java/com/lms/cheating_detection/service/MediaPipeFaceDetectionService.java:164-169 | The eyes taken as left and right are detections; the left one is leftmost of all, and the right one is leftmost of the remaining ones |
| FaceDetection.FirstTwoAreDetections | src/main/java/com/lms/cheating_detection/service/MediaPipeFaceDetectionService.java:168-169 | The first two eyes of a permutation of the detections are two of the detections |
| FaceDetection.FirstIsLeftmost | src/main/java/com/lms/cheating_detection/service/MediaPipeFaceDetectionService.java:168 | The first eye of a sorted permutation has the smallest x of all detections |
| FaceDetection.SecondIsLeftmostOfRest | src/main/java/com/lms/cheating_detection/service/MediaPipeFaceDetectionService.java:169 | The second eye of a sorted permutation has the smallest x of the detections other than the first |
| FaceDetection.SmallestFirst | src/main/java/com/lms/cheating_detection/service/MediaPipeFaceDetectionService.java:165 | A list sorted by x starts with its smallest x |
| FaceDetection.AnalysisError | src/main/java/com/lms/cheating_detection/service/MediaPipeFaceDetectionService.java:213-217 | The exception handler leaves the result built so far, marked not suspicious, with "Error analyzing frame: " and the message as its description; nothing else changes |
| FaceDetection.Analysis | src/main/java/com/lms/cheating_detection/service/MediaPipeFaceDetectionService.java:117-220 | The face count recorded is the number of faces found (0 when the face cascade throws); every suspicious result has an evidence type; a pose or gaze is present only for one face with at least two eyes |
| FaceDetection.TwoEyesAreJudgedByPoseAndGaze | src/main/java/com/lms/cheating_detection/service/MediaPipeFaceDetectionService.java:161-188 | One face with two or more eyes has the pose and gaze of the two leftmost eyes, the classifier's verdict, the type suspicious_gaze exactly when suspicious (normal otherwise), and the classifier's sentence for that pose and gaze, which is the nothing-suspicious sentence when not suspicious |
| FaceDetection.DetectorFailureIsNotSuspicious | src/main/java/com/lms/cheating_detection/service/MediaPipeFaceDetectionService.java:213-217 | An exception from a detector yields a result that is not suspicious and has no evidence type; after a face-cascade failure the result is the constructor's with the error message |
| FaceDetection.SuspiciousResultHasEvidenceType | src/main/java/com/lms/cheating_detection/service/MediaPipeFaceDetectionService.java:188-206 | Every suspicious result names its evidence type, which is one of the five the analysis writes |
| PullMonitoring.Classify | src/main/java/com/lms/cheating_detection/service/CheatingDetectionService.java:203-266 | A tick's verdict carries a description exactly when it is suspicious, and an evidence type exactly when it is suspicious |
| PullMonitoring.Doubled | src/main/java/com/lms/cheating_detection/service/CheatingDetectionService.java:193-198 | A face rectangle scaled back to full size has even coordinates and sizes, and halving them gives the half-scale rectangle |
| PullMonitoring.FullScale | src/main/java/com/lms/cheating_detection/service/CheatingDetectionService.java:190-198 | Scaling back keeps the number of faces and each face's place in the list |
| PullMonitoring.ScaleBackKeepsJudgement | src/main/java/com/lms/cheating_detection/service/CheatingDetectionService.java:175-198 | The doubled face passes the bounds test in the full frame exactly when the half-scale face passes it in the half-scale frame, and is off centre exactly when that face is |
| PullMonitoring.InBounds | src/main/java/com/lms/cheating_detection/service/CheatingDetectionService.java:220-222 | A face that passes the tick's strict bounds test can always be cut out of the frame (it meets OpenCV's region test) |
| PullMonitoring.OffCenter | src/main/java/com/lms/cheating_detection/service/CheatingDetectionService.java:250-254 | A face is off centre, more than 20% of the width from the frame's centre, exactly when its centre lies outside the middle 60% of the width |
| PullMonitoring.Tick | src/main/java/com/lms/cheating_detection/service/CheatingDetectionService.java:151-290 | A tick is analysed only for a registered session with a non-empty frame whose face detection succeeded; a suspicious verdict always produces a record for that session |
| PullMonitoring.CheatingDetectionService.constructor | src/main/java/com/lms/cheating_detection/service/CheatingDetectionService.java:39-40 | The registry starts empty and consistent, with nothing scheduled |
| PullMonitoring.CheatingDetectionService.StartMonitoring | src/main/java/com/lms/cheating_detection/service/CheatingDetectionService.java:104-135 | Keeps the registry consistent. A session already monitored is untouched. A webcam that does not open fails with "Error starting webcam monitoring" and changes nothing. Otherwise the 640x480 webcam and a task starting now and repeating every 5000 ms are registered, and the task is scheduled |
| PullMonitoring.CheatingDetectionService.StopMonitoring | src/main/java/com/lms/cheating_detection/service/CheatingDetectionService.java:137-149 | Keeps the registry consistent. The session leaves both maps. A registered session has both a task and a webcam (the registry invariant), so its task is cancelled and then its webcam released; an unknown id records nothing |
| PullMonitoring.CheatingDetectionService.CaptureAndAnalyze | src/main/java/com/lms/cheating_detection/service/CheatingDetectionService.java:151-290 | The tick that doubles the half-scale rectangles in place and fills in its locals rule by rule returns what the specification of a tick gives |
| PullMonitoring.TickNeedsWebcam | src/main/java/com/lms/cheating_detection/service/CheatingDetectionService.java:151-156 | A session without a registered webcam produces nothing on a tick |
| PullMonitoring.FaceCountOtherThanOneIsSuspicious | src/main/java/com/lms/cheating_detection/service/CheatingDetectionService.java:204-214 | No face or several faces on a tick is suspicious with type no_face or multiple_faces, whatever the eye cascade says |
| PullMonitoring.OutOfBoundsFaceIsIgnored | src/main/java/com/lms/cheating_detection/service/CheatingDetectionService.java:215-222 | A single face that fails the bounds check gives a verdict that is not suspicious |
| PullMonitoring.FaceOnRightEdgeIsIgnored | src/main/java/com/lms/cheating_detection/service/CheatingDetectionService.java:190-222 | A face whose doubled rectangle ends exactly on the right edge of a 640x480 frame is ignored even with no eye found, because the far-edge test is strict |
| PullMonitoring.OffCenterIsOutsideMiddleBand | src/main/java/com/lms/cheating_detection/service/CheatingDetectionService.java:248-258 | With one in-bounds face and an eye, the tick is suspicious exactly when the face's centre lies outside the middle 60% of the width, and then with type face_off_center |
| PullMonitoring.NoEyesIsSuspicious | src/main/java/com/lms/cheating_detection/service/CheatingDetectionService.java:243-247 | One in-bounds face with no eye found is suspicious with type no_eyes and its sentence |
| PullMonitoring.LoggedExactlyWhenSuspicious | src/main/java/com/lms/cheating_detection/service/CheatingDetectionService.java:268-279 | A tick logs exactly when it is suspicious, under its session and exam, with the tick's description and evidence type |
| PushMonitoring.ClientCheatingDetectionService.constructor | src/main/java/com/lms/cheating_detection/service/ClientCheatingDetectionService.java:28 | No session is active at first |
| PushMonitoring.ClientCheatingDetectionService.StartMonitoring | src/main/java/com/lms/cheating_detection/service/ClientCheatingDetectionService.java:55-63 | The session is active afterwards; an already active session is left as it is; every entry stays true |
| PushMonitoring.ClientCheatingDetectionService.StopMonitoring | src/main/java/com/lms/cheating_detection/service/ClientCheatingDetectionService.java:65-68 | The session, and only it, is no longer active |
| PushMonitoring.ClientCheatingDetectionService.AnalyzeFrame | src/main/java/com/lms/cheating_detection/service/ClientCheatingDetectionService.java:70-105 | Inactive sessions and undecodable images answer false and log nothing. Otherwise the answer is the analysis' verdict. A suspicious frame is logged, and only then, with the analysis' description and evidence type; the "suspicious" fallback type is never reached |

## Left out

- Roll (`atan2`, `MediaPipeFaceDetectionService.java:232-235`) and the pupil deviations (`sqrt`, lines 295-297) are not modelled: the model has no transcendental functions and no later code reads them.
- Floating point: doubles are exact reals, so rounding at the thresholds is not modelled.
- OpenCV is opaque. Colour conversion, histogram equalisation, resizing, cascade detection, image decoding, thresholding, contour extraction and image moments become inputs. A throw from a conversion or a cascade is a `Failed` detection of the frame's faces or eyes; a throw inside the pupil search (grey conversion, blurring, thresholding, contour extraction or moments) is a `Failed` contour list of that eye, which the gaze handler turns into a straight gaze. `Mat` release is not modelled.
- `Model.Conformant`: the model takes for granted that detectors return rectangles of positive size. It has no failure path for `submat` on the detected face (`MediaPipeFaceDetectionService.java:145`), so a face rectangle outside its image is not modelled.
- Gaze.FindPupilCenter: a largest contour of area 0 is not modelled. In the source it beats the initial -1, its moments have M00 = 0, and the centroid is NaN; that eye's gaze is NaN and passes none of the gaze tests, so the verdict rests on the head rule and the other eye. The model instead uses the given centroid as a number.
- Evidence files and the database: `saveFrame`, `logSuspiciousActivity` and the timestamped file names are not modelled. A write is the returned `ActivityRecord`, with the evidence type where the source writes a path derived from it.
- `analyzeWithMediaPipe` and the `useMediaPipe` switch are not modelled: that branch only delegates to `analyzeWithOpenCV`.
- Cascade loading, `init`, the model download service, the controllers, the repository and `getSuspiciousActivities` are outside the modelled core.
- Scheduling and concurrency: the worker pool, the timing of ticks and the concurrent maps are not modelled. A task is a recorded request, and a tick is a call the caller makes.
- PullMonitoring.CheatingDetectionService.StartMonitoring: does not model the scheduler refusing the task after the webcam is registered. That path would leave a webcam without a task.
- PullMonitoring.CheatingDetectionService.CaptureAndAnalyze: does not model a webcam that is registered but has since stopped being open; such a webcam would answer like a missing one.
- PullMonitoring.CheatingDetectionService.StopMonitoring: releases every registered webcam; the source releases one only if it is still open (`CheatingDetectionService.java:144`), and the model has no closed webcam.
- PushMonitoring.ClientCheatingDetectionService.AnalyzeFrame: a failed decode is modelled as the empty image OpenCV returns for it; an exception while saving or logging evidence is not modelled.
