/**
  `PushUpDetector` of src/pose-detection.ts: one call of `detectPose` is one
  step over the poses the model estimated for the current video frame.
 */
module PoseDetection {
  import opened Wrappers
  import opened Keypoints
  import opened Classifier

  /** Why a call of `detectPose` rejects. */
  datatype FrameError =
    | NotInitialized                      // "Detector not initialized"
    | MissingLandmark(landmark: Landmark) // reading `.y` of a slot left undefined

  /** How a call of `detectPose` ends. */
  datatype FrameResult =
    | Failed(error: FrameError)
    | NoPose       // the model found nobody
    | NoLandmarks  // the gate at line 103 failed: early return
    | Evaluated(observation: Observation, pushUpDetected: Option<nat>)

  /** Whether the call reaches the `setTimeout` that schedules the next frame:
      an error and the early return at line 104 both end the frame loop. */
  predicate SchedulesNextFrame(r: FrameResult) {
    r.NoPose? || r.Evaluated?
  }

  datatype FrameStep = FrameStep(next: CounterState, result: FrameResult)

  /** One call of `detectPose` on state `s`, with `loaded` telling whether the
      pose model was loaded and `poses` what it estimated for the frame. */
  function Evaluate(loaded: bool, s: CounterState, poses: seq<Pose>): FrameStep {
    if !loaded then FrameStep(s, Failed(NotInitialized))
    else if |poses| == 0 then FrameStep(s, NoPose)
    else
      var points := Collected(poses[0].keypoints);
      if !IsAllPointsDetected(points) then FrameStep(s, NoLandmarks)
      else match FirstMissing(ReadOrder, points)
        case Some(l) => FrameStep(s, Failed(MissingLandmark(l)))
        case None =>
          CompleteIffNothingMissing(points);
          var o := Classify(AveragesOf(points));
          var t := Transition(s, o);
          FrameStep(t.next, Evaluated(o, t.pushUpDetected))
  }

  /** The frame reaches classification exactly when the model is loaded, found a pose
      and that pose filled all ten slots. */
  predicate Observable(loaded: bool, poses: seq<Pose>) {
    loaded && |poses| > 0 && IsComplete(Collected(poses[0].keypoints))
  }

  /** What a frame shows, independent of the detector's state. */
  function Observe(loaded: bool, poses: seq<Pose>): Observation {
    if Observable(loaded, poses) then Classify(AveragesOf(Collected(poses[0].keypoints)))
    else Indeterminate
  }

  /** Only an observable frame is evaluated; every other frame, whether it is turned
      away by the missing model, the missing pose, the gate or a failing read,
      changes neither `pushUpCount` nor `isDown`. A record the gate accepts that
      still lacks a slot rejects with the first slot read. */
  lemma UnobservableFrameChangesNothing(loaded: bool, s: CounterState, poses: seq<Pose>)
    ensures Evaluate(loaded, s, poses).result.Evaluated? <==> Observable(loaded, poses)
    ensures !Observable(loaded, poses) ==> Evaluate(loaded, s, poses).next == s
    ensures !loaded ==> Evaluate(loaded, s, poses).result == Failed(NotInitialized)
    ensures loaded && |poses| > 0 && IsAllPointsDetected(Collected(poses[0].keypoints)) &&
            !IsComplete(Collected(poses[0].keypoints)) ==>
              Evaluate(loaded, s, poses).result.Failed? &&
              Evaluate(loaded, s, poses).result.error.MissingLandmark? &&
              Evaluate(loaded, s, poses).result.error.landmark !in Collected(poses[0].keypoints)
  {
    if loaded && |poses| > 0 {
      var points := Collected(poses[0].keypoints);
      CompleteIffNothingMissing(points);
      if IsComplete(points) {
        assert IsAllPointsDetected(points) by {
          assert LeftElbow in points;
        }
      }
    }
  }

  /** The next frame is scheduled exactly when the model is loaded and the frame
      either shows no pose or is classified. */
  lemma NextFrameScheduledIff(loaded: bool, s: CounterState, poses: seq<Pose>)
    ensures SchedulesNextFrame(Evaluate(loaded, s, poses).result) <==>
              loaded && (|poses| == 0 || Observable(loaded, poses))
  {
    UnobservableFrameChangesNothing(loaded, s, poses);
  }

  /** A frame acts on the counter exactly as its observation does. */
  lemma FrameIsTransition(loaded: bool, s: CounterState, poses: seq<Pose>)
    ensures Evaluate(loaded, s, poses).next == Transition(s, Observe(loaded, poses)).next
    ensures Evaluate(loaded, s, poses).result.Evaluated? ==>
              Evaluate(loaded, s, poses).result ==
                Evaluated(Observe(loaded, poses), Transition(s, Observe(loaded, poses)).pushUpDetected)
  {
    UnobservableFrameChangesNothing(loaded, s, poses);
  }

  /** A frame raises the count by at most one and never lowers it; it raises it exactly
      when the detector was down and the frame is an up observation, which leaves the
      detector up and reports the new count; a down observation only sets `isDown`. */
  lemma FrameCounts(loaded: bool, s: CounterState, poses: seq<Pose>)
    ensures var f := Evaluate(loaded, s, poses);
      && s.pushUpCount <= f.next.pushUpCount <= s.pushUpCount + 1
      && (f.next.pushUpCount == s.pushUpCount + 1 <==>
            s.isDown && f.result.Evaluated? && f.result.observation == Up)
      && (f.next.pushUpCount == s.pushUpCount + 1 ==>
            !f.next.isDown && f.result.pushUpDetected == Some(f.next.pushUpCount))
      && (f.result.Evaluated? && f.result.pushUpDetected.Some? ==>
            f.next.pushUpCount == s.pushUpCount + 1)
      && (f.result.Evaluated? && f.result.observation == Down ==>
            f.next == CounterState(s.pushUpCount, true))
  {
  }

  /** A pose with only one recognised keypoint passes the gate yet rejects, untouched. */
  lemma OneLandmarkFrameRejects(s: CounterState, k: Keypoint)
    requires SlotOf(k).Some?
    ensures Evaluate(true, s, [Pose([k])]).result.Failed?
    ensures Evaluate(true, s, [Pose([k])]).next == s
  {
    GateAcceptsOneLandmark(k);
    var points := Collected([k]);
    var other := if SlotOf(k).value == LeftElbow then RightElbow else LeftElbow;
    assert [k][..0] == [];
    assert other !in points;
    UnobservableFrameChangesNothing(true, s, [Pose([k])]);
  }

  /** The state after a sequence of frames, each evaluated in turn. */
  function EvaluateAll(loaded: bool, s: CounterState, frames: seq<seq<Pose>>): CounterState
    decreases |frames|
  {
    if frames == [] then s else EvaluateAll(loaded, Evaluate(loaded, s, frames[0]).next, frames[1..])
  }

  /** What each frame of a sequence shows. */
  function ObserveAll(loaded: bool, frames: seq<seq<Pose>>): seq<Observation> {
    seq(|frames|, i requires 0 <= i < |frames| => Observe(loaded, frames[i]))
  }

  /** A sequence of frames drives the counter exactly as its sequence of observations,
      so every property of `Run` holds of frames too. */
  lemma {:induction false} FramesFollowObservations(loaded: bool, s: CounterState, frames: seq<seq<Pose>>)
    ensures EvaluateAll(loaded, s, frames) == Run(s, ObserveAll(loaded, frames))
    decreases |frames|
  {
    if frames != [] {
      FrameIsTransition(loaded, s, frames[0]);
      assert ObserveAll(loaded, frames)[1..] == ObserveAll(loaded, frames[1..]);
      FramesFollowObservations(loaded, Evaluate(loaded, s, frames[0]).next, frames[1..]);
    }
  }

  /** Over any sequence of frames the count never decreases. */
  lemma FramesNeverLowerTheCount(loaded: bool, s: CounterState, frames: seq<seq<Pose>>)
    ensures EvaluateAll(loaded, s, frames).pushUpCount >= s.pushUpCount
  {
    FramesFollowObservations(loaded, s, frames);
    NotificationsAreConsecutive(s, ObserveAll(loaded, frames));
  }

  class PushUpDetector {
    /** Whether `initDetector` has set `detector`. */
    var detectorLoaded: bool
    var pushUpCount: nat
    var isDown: bool
    /** Whether `onPushUpDetected` is set. */
    var listening: bool
    /** The counts `onPushUpDetected` has been called with, in order. */
    ghost var notified: seq<nat>

    function State(): CounterState
      reads this
    {
      CounterState(pushUpCount, isDown)
    }

    /** A new detector: count 0, not down, no model loaded, no callback. */
    constructor ()
      ensures State() == Initial
      ensures !detectorLoaded && !listening && notified == []
    {
      detectorLoaded := false;
      pushUpCount := 0;
      isDown := false;
      listening := false;
      notified := [];
    }

    /** `init`: the pose model has been loaded and is now the `detector`. */
    method Init()
      modifies this`detectorLoaded
      ensures detectorLoaded
    {
      detectorLoaded := true;
    }

    /** Assigning `onPushUpDetected`. */
    method SetOnPushUpDetected()
      modifies this`listening
      ensures listening
    {
      listening := true;
    }

    /** `detectPose`, with `poses` the model's estimate for the current frame. */
    method DetectPose(poses: seq<Pose>) returns (result: FrameResult)
      modifies this`pushUpCount, this`isDown, this`notified
      ensures FrameStep(State(), result) == Evaluate(detectorLoaded, old(State()), poses)
      ensures notified == old(notified) +
        (if listening && result.Evaluated? && result.pushUpDetected.Some?
         then [result.pushUpDetected.value] else [])
    {
      if !detectorLoaded {
        return Failed(NotInitialized);
      }
      if |poses| == 0 {
        return NoPose;
      }
      var points := CollectPoints(poses[0].keypoints);
      if !IsAllPointsDetected(points) {
        return NoLandmarks;
      }
      var missing := FirstMissing(ReadOrder, points);
      if missing.Some? {
        return Failed(MissingLandmark(missing.value));
      }
      CompleteIffNothingMissing(points);
      var avg := AveragesOf(points);
      var aligned := InPlank(avg);
      if avg.elbow > DownThreshold(avg) && aligned {
        if !isDown {
          isDown := true;
        }
        result := Evaluated(Down, None);
      } else if avg.elbow < UpThreshold(avg) && aligned {
        var detected := None;
        if isDown {
          isDown := false;
          pushUpCount := pushUpCount + 1;
          if listening {
            notified := notified + [pushUpCount];
          }
          detected := Some(pushUpCount);
        }
        result := Evaluated(Up, detected);
      } else {
        result := Evaluated(Indeterminate, None);
      }
    }

    /** `resetCounter`: back to the initial count and phase from any state;
        a second reset therefore changes nothing. */
    method ResetCounter()
      modifies this`pushUpCount, this`isDown
      ensures State() == Initial
    {
      pushUpCount := 0;
      isDown := false;
    }
  }
}
