# Push-up repetition counter

A Dafny model of `PushUpDetector` from `src/pose-detection.ts`: the component that turns
the body keypoints a pose model estimates for each video frame into a count of completed
push-ups. One call of `detectPose` is one step of the model, in three parts.

- **Keypoint extraction** (`keypoints.dfy`, module `Keypoints`). The keypoints of the
  first pose that have both a name and a score (`isDefinedPoint`) are sorted by name into
  a partial ten-slot record: left/right elbow, shoulder, wrist, hip and knee. Other names
  are dropped, and a later keypoint overwrites an earlier one with the same name. The
  `for` loop is the method `CollectPoints`, proved against the function `Collected`.
  `isAllPointsDetected` only asks for a non-empty record, because a slot is only ever
  assigned a defined keypoint. A record it accepts may still lack slots. The first read
  of a missing slot's `y` then throws, and `FirstMissing` gives that slot, in the order
  the averages are read.
- **Classification** (`classifier.dfy`, module `Classifier`). The y-coordinates of each
  landmark pair are averaged, with y growing downward. With `upperBodyHeight = hip -
  shoulder`, the down threshold is `shoulder + 0.4 h` and the up threshold is `shoulder +
  0.1 h`. The frame counts as a plank when `|hip - knee| < 0.1 h` and `|shoulder - wrist|
  < 0.3 h`. The frame is a down observation when the elbows are below the down threshold
  in a plank. It is an up observation when they are above the up threshold in a plank.
  Otherwise it shows nothing. Coordinates are `real`, so the factors are exact.
- **Counter** (`classifier.dfy` and `pose_detection.dfy`). A down observation sets
  `isDown`. An up observation while `isDown` clears it, increments `pushUpCount` and calls
  `onPushUpDetected` with the new count. `Transition` states one step, and `Run` and
  `Notifications` state a sequence of steps. The class `PoseDetection.PushUpDetector`
  holds the fields. Its `DetectPose` method is proved equal to the function `Evaluate`,
  and `ResetCounter` restores the initial state.

The pose model is external. Its estimate for the frame is the parameter `poses` of
`DetectPose`, and whether it has been loaded is the field `detectorLoaded`, set by
`Init`. The callback is modelled as a flag `listening`, a ghost log `notified` of the
counts it received, and the count returned in `Evaluated(_, Some(count))`.
`scenario.dfy` is a client. It feeds two down frames and then two up frames to a
detector and proves that exactly one push-up is counted.

Facts about the code that the model keeps:
- The code has no confidence floor. A keypoint only needs a defined score.
- The code uses ten landmarks, and ankles are not among them.
- The code's up test is strict (`elbow < upThreshold`), so an elbow exactly at the
  threshold shows nothing.
- The code's gate accepts records with missing slots. Such a frame rejects with a read
  of `undefined` instead of being skipped. The counter is unchanged either way.
- The early return at line 104 and every thrown error skip the `setTimeout` that
  schedules the next frame, so they end the frame loop (`SchedulesNextFrame`).

## Model

| member | source | states |
|---|---|---|
| Keypoints.IsDefinedPoint | src/pose-detection.ts:40-42 | a keypoint is defined when both its name and its score are defined, with no confidence floor |
| Keypoints.Store | src/pose-detection.ts:66-98 | one loop iteration: a selected keypoint overwrites its slot, any other keypoint leaves the record as it was |
| Keypoints.Collected | src/pose-detection.ts:63-100 | the record built from the keypoints processed first to last, starting empty |
| Keypoints.IsAllPointsDetected | src/pose-detection.ts:35-38 | the gate: the record is non-empty (its stored values are never undefined) |
| Classifier.AveragesOf | src/pose-detection.ts:109-113 | the mean y of each left/right pair of a complete record |
| Classifier.UpperBodyHeight | src/pose-detection.ts:116 | hip height minus shoulder height |
| Classifier.DownThreshold | src/pose-detection.ts:117 | shoulder height plus 40% of the upper body height |
| Classifier.UpThreshold | src/pose-detection.ts:118 | shoulder height plus 10% of the upper body height |
| Classifier.InPlank | src/pose-detection.ts:120-126 | hips within 10% and wrists within 30% of the upper body height of knees and shoulders, strictly |
| Classifier.Classify | src/pose-detection.ts:128-133 | down when the elbows are past the down threshold in a plank, else up when they are above the up threshold in a plank, else nothing |
| Classifier.Transition | src/pose-detection.ts:129-142 | down sets `isDown`; up while down clears it, increments the count and reports the new count; anything else changes nothing |
| PoseDetection.Evaluate | src/pose-detection.ts:53-142 | one call of `detectPose`: no model, no pose, the gate, a missing slot, then classification and transition |
| PoseDetection.SchedulesNextFrame | src/pose-detection.ts:145-147 | the call reaches the `setTimeout` only after no pose or after a classified frame |
| PoseDetection.NextFrameScheduledIff | src/pose-detection.ts:103-105 | the next frame is scheduled exactly when the model is loaded and the frame has no pose or is classified; the early return and every error end the loop |
| Keypoints.LandmarkOf | src/pose-detection.ts:67-98 | a name selects a slot only when it is that slot's name; any other name selects none |
| Keypoints.LandmarkNameRoundTrip | src/pose-detection.ts:67-98 | every slot's own name selects that slot |
| Keypoints.SlotOf | src/pose-detection.ts:40-42 | a keypoint is given a slot exactly when its name and score are both defined and the name is that slot's name |
| Keypoints.CollectPoints | src/pose-detection.ts:63-100 | the sorting loop builds exactly `Collected` of the keypoints, and every stored keypoint is defined and carries its slot's name |
| Keypoints.StoredPointsAreDefined | src/pose-detection.ts:65-100 | a stored keypoint is one of the pose's keypoints, is defined, and its name selects the slot |
| Keypoints.AbsentIffNeverSelected | src/pose-detection.ts:65-100 | a slot is empty exactly when no keypoint of the pose selects it |
| Keypoints.LastOccurrenceWins | src/pose-detection.ts:65-100 | for a repeated name the slot holds the last keypoint carrying it |
| Keypoints.AllPointsDetectedIff | src/pose-detection.ts:35-38 | the gate passes exactly when at least one keypoint of the pose selected a slot |
| Keypoints.GateAcceptsOneLandmark | src/pose-detection.ts:35-38 | a single recognised keypoint passes the gate with the other nine slots empty |
| Keypoints.FirstMissing | src/pose-detection.ts:107-113 | the first slot read that is absent, with every earlier read present; none exactly when all reads succeed |
| Keypoints.CompleteIffNothingMissing | src/pose-detection.ts:107-113 | no read of `y` fails exactly when all ten slots are filled |
| Classifier.ThresholdsOrdered | src/pose-detection.ts:116-118 | with a positive upper body height the up threshold is above the down threshold |
| Classifier.HysteresisBand | src/pose-detection.ts:116-133 | an elbow height between the two thresholds, bounds included, observes nothing |
| Classifier.NoObservationWithoutUpperBody | src/pose-detection.ts:116-133 | when the hips are not below the shoulders no alignment check holds and nothing is observed |
| Classifier.ClassifyCharacterised | src/pose-detection.ts:128-133 | down exactly when the elbows pass the down threshold in a plank, up exactly when they pass the up threshold in a plank |
| Classifier.ClassifyScaleInvariant | src/pose-detection.ts:115-126 | scaling and shifting every height (another distance or resolution) never changes the observation |
| Classifier.TransitionCounts | src/pose-detection.ts:128-142 | the count rises by at most one, exactly on up while down, which leaves the detector up and reports the new count; down sets `isDown` only |
| Classifier.NotificationsAreConsecutive | src/pose-detection.ts:133-141 | over any observations the count never falls and the callback receives each new count once, in order |
| Classifier.EveryPushUpNeedsADown | src/pose-detection.ts:128-142 | the count gained never exceeds the down observations (plus one if already down) |
| Classifier.DownsKeepCount | src/pose-detection.ts:129-132 | a run of down observations keeps the count and leaves the detector down, with no callback |
| Classifier.DownsThenUpCountOnce | src/pose-detection.ts:128-142 | any number of down observations then one up count exactly one push-up, reported once |
| Classifier.UpsNeverCount | src/pose-detection.ts:133-142 | a detector that is up stays unchanged under any run of up observations |
| PoseDetection.UnobservableFrameChangesNothing | src/pose-detection.ts:53-113 | a frame is classified exactly when the model is loaded, found a pose and all ten slots are filled; any other frame leaves count and phase alone; no model rejects with "Detector not initialized"; a gated but incomplete record rejects on a missing slot |
| PoseDetection.FrameIsTransition | src/pose-detection.ts:107-142 | a frame acts on the counter exactly as the transition of its observation |
| PoseDetection.FrameCounts | src/pose-detection.ts:128-142 | one frame raises the count by at most one, exactly on an up frame while down, which leaves the detector up and reports the new count |
| PoseDetection.OneLandmarkFrameRejects | src/pose-detection.ts:103-113 | a pose with one recognised keypoint passes the gate, then rejects and changes nothing |
| PoseDetection.FramesFollowObservations | src/pose-detection.ts:53-142 | a sequence of frames drives the counter exactly as its sequence of observations |
| PoseDetection.FramesNeverLowerTheCount | src/pose-detection.ts:128-142 | over any sequence of frames the count never decreases |
| PoseDetection.PushUpDetector.constructor | src/pose-detection.ts:44-47 | a new detector has count 0, is not down, has no model and no callback |
| PoseDetection.PushUpDetector.Init | src/pose-detection.ts:49-51 | after initialisation the detector has its pose model |
| PoseDetection.PushUpDetector.SetOnPushUpDetected | src/pose-detection.ts:47 | after assignment the callback is set |
| PoseDetection.PushUpDetector.DetectPose | src/pose-detection.ts:53-148 | new count, phase and result are those of `Evaluate` on the old state; the callback log grows by the new count exactly when a push-up is counted and the callback is set |
| PoseDetection.PushUpDetector.ResetCounter | src/pose-detection.ts:150-153 | count 0 and not down from any state, so a second reset changes nothing |

## Left out

- Loading the pose model (`initDetector`, TensorFlow and MoveNet) is left out. Only its successful completion is modelled, by `Init`. A load failure is not modelled.
- `estimatePoses` is a call into the pose model. Its result is a parameter.
- A rejection of `estimatePoses` itself (line 58) is not modelled: `FrameResult` has no case for it. It would leave the counter unchanged and end the frame loop, as the other errors do.
- The 33 ms `setTimeout` loop and asynchronous scheduling are left out. The model only says whether a call reaches the rescheduling.
- `console.log` is left out.
- IEEE floating point (NaN, infinities, rounding) is not modelled. Coordinates are reals.
- The x-coordinate, the pose's own score and any other pose fields are never read by the core. They are kept only as data or dropped.
- The body of `onPushUpDetected` (src/main.ts) is UI. The model records only the counts it is called with.
- src/main.ts, server.cjs, src/AudioController.ts and src/camera.ts are not part of this model. They hold rendering, recording, sharing, the bot server, audio and camera access.
- The fixtures of src/pose-detection.test.ts are not modelled. They feed four landmarks, which this code rejects at line 111, and they follow earlier thresholds.
