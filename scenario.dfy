/** A client of the detector: down frames followed by an up frame count one push-up. */
module Scenario {
  import opened Wrappers
  import opened Keypoints
  import opened Classifier
  import opened PoseDetection

  /** The height of a landmark in a frame whose landmark pairs sit at the given averages. */
  function HeightOf(l: Landmark, a: Averages): real {
    match l
    case LeftElbow | RightElbow => a.elbow
    case LeftShoulder | RightShoulder => a.shoulder
    case LeftWrist | RightWrist => a.wrist
    case LeftHip | RightHip => a.hip
    case LeftKnee | RightKnee => a.knee
  }

  /** One pose reporting all ten landmarks, both of a pair at the same height. */
  function Frame(a: Averages): seq<Pose> {
    [Pose(seq(|ReadOrder|, j requires 0 <= j < |ReadOrder| =>
      Keypoint(0.0, HeightOf(ReadOrder[j], a), Some(0.9), Some(LandmarkName(ReadOrder[j])))))]
  }

  lemma ReadOrderDistinct()
    ensures forall i, j :: 0 <= i < j < |ReadOrder| ==> ReadOrder[i] != ReadOrder[j]
  {
  }

  /** Each keypoint of the frame lands in its own slot. */
  lemma FrameSlots(a: Averages, i: nat)
    requires i < |ReadOrder|
    ensures ReadOrder[i] in Collected(Frame(a)[0].keypoints)
    ensures Collected(Frame(a)[0].keypoints)[ReadOrder[i]].y == HeightOf(ReadOrder[i], a)
  {
    var ks := Frame(a)[0].keypoints;
    var l := ReadOrder[i];
    LandmarkNameRoundTrip(l);
    assert SlotOf(ks[i]) == Some(l);
    forall j | i < j < |ks| ensures SlotOf(ks[j]) != Some(l) {
      LandmarkNameRoundTrip(ReadOrder[j]);
      assert SlotOf(ks[j]) == Some(ReadOrder[j]);
      ReadOrderDistinct();
    }
    LastOccurrenceWins(ks, i, l);
  }

  lemma FrameIsComplete(a: Averages)
    ensures Observable(true, Frame(a))
    ensures AveragesOf(Collected(Frame(a)[0].keypoints)) == a
  {
    var points := Collected(Frame(a)[0].keypoints);
    forall i | 0 <= i < |ReadOrder| ensures ReadOrder[i] in points {
      FrameSlots(a, i);
    }
    CompleteIffNothingMissing(points);
    FrameSlots(a, 0);
    FrameSlots(a, 1);
    FrameSlots(a, 2);
    FrameSlots(a, 3);
    FrameSlots(a, 4);
    FrameSlots(a, 5);
    FrameSlots(a, 6);
    FrameSlots(a, 7);
    FrameSlots(a, 8);
    FrameSlots(a, 9);
  }

  method DownThenUp() {
    var detector := new PushUpDetector();
    detector.Init();
    // Shoulders at 50, hips and knees level at 250, wrists at 100: the down
    // threshold is 130 and the up threshold 70.
    var down := Averages(50.0, 150.0, 250.0, 250.0, 100.0);
    var up := Averages(50.0, 45.0, 250.0, 250.0, 100.0);
    FrameIsComplete(down);
    FrameIsComplete(up);
    var r := detector.DetectPose(Frame(down));
    assert r == Evaluated(Down, None);
    assert detector.isDown && detector.pushUpCount == 0;
    r := detector.DetectPose(Frame(down));
    assert detector.isDown && detector.pushUpCount == 0;
    r := detector.DetectPose(Frame(up));
    assert r == Evaluated(Up, Some(1));
    assert !detector.isDown && detector.pushUpCount == 1;
    r := detector.DetectPose(Frame(up));
    assert r == Evaluated(Up, None) && detector.pushUpCount == 1;
    detector.ResetCounter();
    assert detector.State() == Initial;
  }
}
