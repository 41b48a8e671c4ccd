/**
  Keypoint extraction of `PushUpDetector.detectPose` (src/pose-detection.ts):
  the keypoints of the first pose are filtered by `isDefinedPoint` and sorted
  by name into a partial ten-slot record, which `isAllPointsDetected` gates.
 */
module Keypoints {
  import opened Wrappers

  /** The ten slots of the `PushUpPoints` record. */
  datatype Landmark =
    | LeftElbow | RightElbow
    | LeftShoulder | RightShoulder
    | LeftWrist | RightWrist
    | LeftHip | RightHip
    | LeftKnee | RightKnee

  /** A keypoint as the pose model reports it; `name` and `score` may be undefined.
      Coordinates are reals, with y growing downward in image space. */
  datatype Keypoint = Keypoint(x: real, y: real, score: Option<real>, name: Option<string>)

  /** One estimated pose; only its keypoints are read. */
  datatype Pose = Pose(keypoints: seq<Keypoint>)

  /** `Partial<PushUpPoints>`: a slot is present exactly when it was assigned. */
  type Points = map<Landmark, Keypoint>

  /** `isDefinedPoint`: both the name and the score are defined (no confidence floor). */
  predicate IsDefinedPoint(k: Keypoint) {
    k.name.Some? && k.score.Some?
  }

  /** The name the pose model uses for each slot (the `case` labels of the switch). */
  function LandmarkName(l: Landmark): string {
    match l
    case LeftElbow => "left_elbow"
    case RightElbow => "right_elbow"
    case LeftShoulder => "left_shoulder"
    case RightShoulder => "right_shoulder"
    case LeftWrist => "left_wrist"
    case RightWrist => "right_wrist"
    case LeftHip => "left_hip"
    case RightHip => "right_hip"
    case LeftKnee => "left_knee"
    case RightKnee => "right_knee"
  }

  /** The switch on `keypoint.name`: the slot a name selects, or None for any other name. */
  function LandmarkOf(name: string): (r: Option<Landmark>)
    ensures r.Some? ==> LandmarkName(r.value) == name
    ensures r.None? ==> forall l: Landmark :: LandmarkName(l) != name
  {
    if name == "left_elbow" then Some(LeftElbow)
    else if name == "right_elbow" then Some(RightElbow)
    else if name == "left_shoulder" then Some(LeftShoulder)
    else if name == "right_shoulder" then Some(RightShoulder)
    else if name == "left_wrist" then Some(LeftWrist)
    else if name == "right_wrist" then Some(RightWrist)
    else if name == "left_hip" then Some(LeftHip)
    else if name == "right_hip" then Some(RightHip)
    else if name == "left_knee" then Some(LeftKnee)
    else if name == "right_knee" then Some(RightKnee)
    else None
  }

  /** Every slot's name selects that slot again. */
  lemma LandmarkNameRoundTrip(l: Landmark)
    ensures LandmarkOf(LandmarkName(l)) == Some(l)
  {
  }

  /** The slot a keypoint is stored in, if any: it must be defined and carry a known name. */
  function SlotOf(k: Keypoint): (r: Option<Landmark>)
    ensures forall l: Landmark :: r == Some(l) <==> IsDefinedPoint(k) && k.name.value == LandmarkName(l)
  {
    if IsDefinedPoint(k) then LandmarkOf(k.name.value) else None
  }

  /** One iteration of the sorting loop: store `k` in its slot, overwriting, or drop it. */
  function Store(points: Points, k: Keypoint): Points {
    match SlotOf(k)
    case Some(l) => points[l := k]
    case None => points
  }

  /** The record the sorting loop builds from `ks`, processed first to last. */
  function Collected(ks: seq<Keypoint>): Points
    decreases |ks|
  {
    if ks == [] then map[] else Store(Collected(ks[..|ks| - 1]), ks[|ks| - 1])
  }

  /** The `for ... of pose.keypoints` loop of `detectPose`, filling the record in place. */
  method CollectPoints(ks: seq<Keypoint>) returns (points: Points)
    ensures points == Collected(ks)
    ensures forall l :: l in points ==> IsDefinedPoint(points[l]) && points[l].name == Some(LandmarkName(l))
  {
    points := map[];
    for i := 0 to |ks|
      invariant points == Collected(ks[..i])
      invariant forall l :: l in points ==> IsDefinedPoint(points[l]) && points[l].name == Some(LandmarkName(l))
    {
      var k := ks[i];
      if IsDefinedPoint(k) {
        var slot := LandmarkOf(k.name.value);
        if slot.Some? {
          points := points[slot.value := k];
        }
      }
      assert ks[..i + 1][..i] == ks[..i];
    }
    assert ks[..|ks|] == ks;
  }

  /** Only defined keypoints whose name selects the slot are ever stored there. */
  lemma {:induction false} StoredPointsAreDefined(ks: seq<Keypoint>, l: Landmark)
    requires l in Collected(ks)
    ensures IsDefinedPoint(Collected(ks)[l])
    ensures LandmarkOf(Collected(ks)[l].name.value) == Some(l)
    ensures Collected(ks)[l] in ks
    decreases |ks|
  {
    var init := ks[..|ks| - 1];
    if SlotOf(ks[|ks| - 1]) != Some(l) {
      StoredPointsAreDefined(init, l);
      assert init[|init| - 1] == ks[|ks| - 2];
      assert Collected(init)[l] in init;
    }
    LandmarkNameRoundTrip(l);
  }

  /** A slot is empty exactly when no keypoint of `ks` selects it. */
  lemma {:induction false} AbsentIffNeverSelected(ks: seq<Keypoint>, l: Landmark)
    ensures l !in Collected(ks) <==> forall i :: 0 <= i < |ks| ==> SlotOf(ks[i]) != Some(l)
    decreases |ks|
  {
    if ks != [] {
      var init := ks[..|ks| - 1];
      AbsentIffNeverSelected(init, l);
      assert forall i :: 0 <= i < |init| ==> init[i] == ks[i];
    }
  }

  /** For a repeated name the last keypoint carrying it wins. */
  lemma {:induction false} LastOccurrenceWins(ks: seq<Keypoint>, i: nat, l: Landmark)
    requires i < |ks| && SlotOf(ks[i]) == Some(l)
    requires forall j :: i < j < |ks| ==> SlotOf(ks[j]) != Some(l)
    ensures l in Collected(ks) && Collected(ks)[l] == ks[i]
    decreases |ks|
  {
    if i < |ks| - 1 {
      var init := ks[..|ks| - 1];
      LastOccurrenceWins(init, i, l);
    }
  }

  /** `isAllPointsDetected`. Every stored value is a defined keypoint, so the
      `every(point => point !== undefined)` part never fails and the gate only
      asks for a non-empty record. */
  predicate IsAllPointsDetected(points: Points) {
    |points| > 0
  }

  /** The gate passes exactly when some keypoint of the pose selected a slot. */
  lemma {:induction false} AllPointsDetectedIff(ks: seq<Keypoint>)
    ensures IsAllPointsDetected(Collected(ks)) <==> exists i :: 0 <= i < |ks| && SlotOf(ks[i]).Some?
  {
    if i :| 0 <= i < |ks| && SlotOf(ks[i]).Some? {
      AbsentIffNeverSelected(ks, SlotOf(ks[i]).value);
    } else if IsAllPointsDetected(Collected(ks)) {
      var l :| l in Collected(ks);
      AbsentIffNeverSelected(ks, l);
    }
  }

  /** A single recognised keypoint already passes the gate, with nine slots empty. */
  lemma GateAcceptsOneLandmark(k: Keypoint)
    requires SlotOf(k).Some?
    ensures IsAllPointsDetected(Collected([k]))
    ensures |Collected([k])| == 1
  {
  }

  /** The order in which line 109 onwards reads the `y` of each slot. */
  const ReadOrder: seq<Landmark> :=
    [LeftShoulder, RightShoulder, LeftElbow, RightElbow, LeftHip,
     RightHip, LeftKnee, RightKnee, LeftWrist, RightWrist]

  /** The first slot in `order` that is absent from `points`: the read that throws. */
  function FirstMissing(order: seq<Landmark>, points: Points): (r: Option<Landmark>)
    ensures r.None? <==> forall i :: 0 <= i < |order| ==> order[i] in points
    ensures r.Some? ==> exists i :: 0 <= i < |order| && order[i] == r.value && r.value !in points &&
                          forall j :: 0 <= j < i ==> order[j] in points
  {
    if order == [] then None
    else if order[0] !in points then Some(order[0])
    else
      var r := FirstMissing(order[1..], points);
      if r.Some? then
        ghost var i :| 0 <= i < |order[1..]| && order[1..][i] == r.value && r.value !in points &&
                       forall j :: 0 <= j < i ==> order[1..][j] in points;
        assert order[i + 1] == r.value;
        r
      else r
  }

  /** A record is complete when all ten slots are present. */
  predicate IsComplete(points: Points) {
    forall l: Landmark :: l in points
  }

  /** No read throws exactly when the record is complete. */
  lemma CompleteIffNothingMissing(points: Points)
    ensures FirstMissing(ReadOrder, points).None? <==> IsComplete(points)
  {
    if FirstMissing(ReadOrder, points).None? {
      forall l: Landmark ensures l in points {
        var i := match l
          case LeftShoulder => 0 case RightShoulder => 1
          case LeftElbow => 2 case RightElbow => 3
          case LeftHip => 4 case RightHip => 5
          case LeftKnee => 6 case RightKnee => 7
          case LeftWrist => 8 case RightWrist => 9;
        assert ReadOrder[i] == l;
      }
    }
  }
}
