/**
  Classification and the two-state counter of `PushUpDetector.detectPose`
  (src/pose-detection.ts): averages of the landmarks' y-coordinates, the
  body-relative thresholds, the plank alignment checks, the down/up
  observation and the `isDown`/`pushUpCount` transition.
 */
module Classifier {
  import opened Wrappers
  import opened Keypoints

  /** The averaged y-coordinates of the five landmark pairs (lines 109-113). */
  datatype Averages = Averages(shoulder: real, elbow: real, hip: real, knee: real, wrist: real)

  function Mean(a: real, b: real): real {
    (a + b) / 2.0
  }

  function Abs(x: real): real {
    if x < 0.0 then -x else x
  }

  /** The averages of a complete record. */
  function AveragesOf(points: Points): Averages
    requires IsComplete(points)
  {
    Averages(
      Mean(points[LeftShoulder].y, points[RightShoulder].y),
      Mean(points[LeftElbow].y, points[RightElbow].y),
      Mean(points[LeftHip].y, points[RightHip].y),
      Mean(points[LeftKnee].y, points[RightKnee].y),
      Mean(points[LeftWrist].y, points[RightWrist].y))
  }

  /** `upperBodyHeight`: the hip line below the shoulder line. */
  function UpperBodyHeight(a: Averages): real {
    a.hip - a.shoulder
  }

  /** `downThreshold`: 40% of the upper body below the shoulders. */
  function DownThreshold(a: Averages): real {
    a.shoulder + UpperBodyHeight(a) * 0.4
  }

  /** `upThreshold`: 10% of the upper body below the shoulders. */
  function UpThreshold(a: Averages): real {
    a.shoulder + UpperBodyHeight(a) * 0.1
  }

  /** Both alignment checks: hips level with knees within 10% of the upper body,
      wrists level with shoulders within 30% of it. */
  predicate InPlank(a: Averages) {
    Abs(a.hip - a.knee) < UpperBodyHeight(a) * 0.1 &&
    Abs(a.shoulder - a.wrist) < UpperBodyHeight(a) * 0.3
  }

  /** What one frame shows: the `if` / `else if` of lines 129 and 133, or neither. */
  datatype Observation = Down | Up | Indeterminate

  function Classify(a: Averages): Observation {
    if a.elbow > DownThreshold(a) && InPlank(a) then Down
    else if a.elbow < UpThreshold(a) && InPlank(a) then Up
    else Indeterminate
  }

  /** With a positive upper body the up threshold lies above (is smaller than) the down threshold. */
  lemma ThresholdsOrdered(a: Averages)
    requires UpperBodyHeight(a) > 0.0
    ensures UpThreshold(a) < DownThreshold(a)
  {
  }

  /** The hysteresis band: an elbow height between the two thresholds observes nothing. */
  lemma HysteresisBand(a: Averages)
    requires UpThreshold(a) <= a.elbow <= DownThreshold(a)
    ensures Classify(a) == Indeterminate
  {
  }

  /** With the hips not below the shoulders both tolerances are non-positive, so no observation fires. */
  lemma NoObservationWithoutUpperBody(a: Averages)
    requires UpperBodyHeight(a) <= 0.0
    ensures !InPlank(a)
    ensures Classify(a) == Indeterminate
  {
  }

  /** Down and up are each characterised by their own test alone: the tests exclude each other. */
  lemma ClassifyCharacterised(a: Averages)
    ensures Classify(a) == Down <==> a.elbow > DownThreshold(a) && InPlank(a)
    ensures Classify(a) == Up <==> a.elbow < UpThreshold(a) && InPlank(a)
  {
  }

  /** The same frame seen at another scale or offset: y becomes k * y + d. */
  function Rescaled(a: Averages, k: real, d: real): Averages {
    Averages(k * a.shoulder + d, k * a.elbow + d, k * a.hip + d, k * a.knee + d, k * a.wrist + d)
  }

  /** A positive factor keeps the sign of a number. */
  lemma PositiveFactorKeepsSign(k: real, x: real)
    requires k > 0.0
    ensures k * x > 0.0 <==> x > 0.0
    ensures k * x < 0.0 <==> x < 0.0
  {
    if x > 0.0 {
      assert k * x > 0.0;
    } else if x < 0.0 {
      assert k * -x > 0.0;
      assert k * x == -(k * -x);
    } else {
      assert k * x == 0.0;
    }
  }

  /** A positive factor keeps the order of two numbers. */
  lemma PositiveFactorKeepsOrder(k: real, x: real, y: real)
    requires k > 0.0
    ensures k * x < k * y <==> x < y
  {
    assert k * y - k * x == k * (y - x);
    PositiveFactorKeepsSign(k, y - x);
  }

  /** Rescaling stretches the difference of two heights by the factor. */
  lemma RescaledDifference(x: real, y: real, k: real, d: real)
    ensures (k * x + d) - (k * y + d) == k * (x - y)
  {
    assert (k * x + d) - (k * y + d) == k * x - k * y;
  }

  /** A threshold placed a fraction `c` of the upper body below the shoulders moves
      with the body: the elbow's distance to it is stretched by the factor. */
  lemma RescaledThresholdDistance(s: real, e: real, h: real, c: real, k: real, d: real)
    ensures (k * e + d) - ((k * s + d) + ((k * h + d) - (k * s + d)) * c)
            == k * (e - (s + (h - s) * c))
  {
    RescaledDifference(h, s, k, d);
    assert ((k * h + d) - (k * s + d)) * c == (k * (h - s)) * c;
    assert (k * (h - s)) * c == k * ((h - s) * c);
    assert (k * e + d) - ((k * s + d) + k * ((h - s) * c)) == k * e - k * s - k * ((h - s) * c);
    assert k * e - k * s - k * ((h - s) * c) == k * (e - s - (h - s) * c);
  }

  /** The absolute value of a stretched number is the stretched absolute value. */
  lemma AbsScale(k: real, x: real)
    requires k > 0.0
    ensures Abs(k * x) == k * Abs(x)
  {
    PositiveFactorKeepsSign(k, x);
    if x < 0.0 {
      assert -(k * x) == k * -x;
    }
  }

  /** One alignment test with tolerance `f` of the upper body is unchanged by rescaling. */
  lemma AlignmentScaleInvariant(diff: real, height: real, f: real, k: real)
    requires k > 0.0
    ensures Abs(k * diff) < (k * height) * f <==> Abs(diff) < height * f
  {
    AbsScale(k, diff);
    assert (k * height) * f == k * (height * f);
    PositiveFactorKeepsOrder(k, Abs(diff), height * f);
  }

  /** The down test compares the elbow with a threshold that moves with the body. */
  lemma DownTestScaleInvariant(a: Averages, k: real, d: real)
    requires k > 0.0
    ensures var b := Rescaled(a, k, d); b.elbow > DownThreshold(b) <==> a.elbow > DownThreshold(a)
  {
    var b := Rescaled(a, k, d);
    RescaledThresholdDistance(a.shoulder, a.elbow, a.hip, 0.4, k, d);
    assert b.elbow - DownThreshold(b) == k * (a.elbow - DownThreshold(a));
    PositiveFactorKeepsSign(k, a.elbow - DownThreshold(a));
  }

  /** So does the up test. */
  lemma UpTestScaleInvariant(a: Averages, k: real, d: real)
    requires k > 0.0
    ensures var b := Rescaled(a, k, d); b.elbow < UpThreshold(b) <==> a.elbow < UpThreshold(a)
  {
    var b := Rescaled(a, k, d);
    RescaledThresholdDistance(a.shoulder, a.elbow, a.hip, 0.1, k, d);
    assert b.elbow - UpThreshold(b) == k * (a.elbow - UpThreshold(a));
    PositiveFactorKeepsSign(k, a.elbow - UpThreshold(a));
  }

  /** The hip/knee tolerance stretches with the upper body. */
  lemma HipKneeScaleInvariant(a: Averages, k: real, d: real)
    requires k > 0.0
    ensures var b := Rescaled(a, k, d);
      Abs(b.hip - b.knee) < UpperBodyHeight(b) * 0.1 <==> Abs(a.hip - a.knee) < UpperBodyHeight(a) * 0.1
  {
    var b := Rescaled(a, k, d);
    var x, h := a.hip - a.knee, UpperBodyHeight(a);
    RescaledDifference(a.hip, a.shoulder, k, d);
    RescaledDifference(a.hip, a.knee, k, d);
    assert b.hip - b.knee == k * x;
    assert UpperBodyHeight(b) == k * h;
    AlignmentScaleInvariant(x, h, 0.1, k);
    assert Abs(b.hip - b.knee) == Abs(k * x);
    assert UpperBodyHeight(b) * 0.1 == (k * h) * 0.1;
  }

  /** The shoulder/wrist tolerance stretches with the upper body. */
  lemma ShoulderWristScaleInvariant(a: Averages, k: real, d: real)
    requires k > 0.0
    ensures var b := Rescaled(a, k, d);
      Abs(b.shoulder - b.wrist) < UpperBodyHeight(b) * 0.3 <==> Abs(a.shoulder - a.wrist) < UpperBodyHeight(a) * 0.3
  {
    var b := Rescaled(a, k, d);
    var x, h := a.shoulder - a.wrist, UpperBodyHeight(a);
    RescaledDifference(a.hip, a.shoulder, k, d);
    RescaledDifference(a.shoulder, a.wrist, k, d);
    assert b.shoulder - b.wrist == k * x;
    assert UpperBodyHeight(b) == k * h;
    AlignmentScaleInvariant(x, h, 0.3, k);
    assert Abs(b.shoulder - b.wrist) == Abs(k * x);
    assert UpperBodyHeight(b) * 0.3 == (k * h) * 0.3;
  }

  /** Both alignment tolerances stretch with the upper body. */
  lemma PlankScaleInvariant(a: Averages, k: real, d: real)
    requires k > 0.0
    ensures InPlank(Rescaled(a, k, d)) <==> InPlank(a)
  {
    HipKneeScaleInvariant(a, k, d);
    ShoulderWristScaleInvariant(a, k, d);
  }

  /** The thresholds are body-relative: rescaling or shifting a frame (a different
      distance from the camera, another resolution) never changes what it shows. */
  lemma ClassifyScaleInvariant(a: Averages, k: real, d: real)
    requires k > 0.0
    ensures Classify(Rescaled(a, k, d)) == Classify(a)
  {
    DownTestScaleInvariant(a, k, d);
    UpTestScaleInvariant(a, k, d);
    PlankScaleInvariant(a, k, d);
  }

  /** The fields `pushUpCount` and `isDown` of the detector. */
  datatype CounterState = CounterState(pushUpCount: nat, isDown: bool)

  /** A new detector, and the state `resetCounter` restores. */
  const Initial: CounterState := CounterState(0, false)

  /** The outcome of one observation: the new state, and the count handed to
      `onPushUpDetected` when a push-up completes. */
  datatype Step = Step(next: CounterState, pushUpDetected: Option<nat>)

  /** Lines 129-142: a down observation sets `isDown`; an up observation while down
      clears it, increments the count and reports the new count. */
  function Transition(s: CounterState, o: Observation): Step {
    match o
    case Down => Step(CounterState(s.pushUpCount, true), None)
    case Up =>
      if s.isDown then
        Step(CounterState(s.pushUpCount + 1, false), Some(s.pushUpCount + 1))
      else Step(s, None)
    case Indeterminate => Step(s, None)
  }

  /** The count never decreases and grows by at most one; it grows exactly on an up
      observation while down, which leaves the detector up and reports the new count;
      a down observation keeps the count and sets `isDown`. */
  lemma TransitionCounts(s: CounterState, o: Observation)
    ensures var t := Transition(s, o);
      && s.pushUpCount <= t.next.pushUpCount <= s.pushUpCount + 1
      && (t.next.pushUpCount == s.pushUpCount + 1 <==> s.isDown && o == Up)
      && (t.next.pushUpCount == s.pushUpCount + 1 ==> !t.next.isDown)
      && (o == Down ==> t.next == CounterState(s.pushUpCount, true))
      && (o == Indeterminate ==> t.next == s)
      && (t.pushUpDetected.Some? <==> t.next.pushUpCount == s.pushUpCount + 1)
      && (t.pushUpDetected.Some? ==> t.pushUpDetected.value == t.next.pushUpCount)
  {
  }

  /** The state after a sequence of observations, first to last. */
  function Run(s: CounterState, os: seq<Observation>): CounterState
    decreases |os|
  {
    if os == [] then s else Run(Transition(s, os[0]).next, os[1..])
  }

  /** The counts reported to `onPushUpDetected` along a sequence of observations. */
  function Notifications(s: CounterState, os: seq<Observation>): seq<nat>
    decreases |os|
  {
    if os == [] then []
    else
      var t := Transition(s, os[0]);
      (if t.pushUpDetected.Some? then [t.pushUpDetected.value] else []) + Notifications(t.next, os[1..])
  }

  /** Over any sequence the count never decreases, and the notifications are exactly
      the counts passed through, one per increment, in order. */
  lemma {:induction false} NotificationsAreConsecutive(s: CounterState, os: seq<Observation>)
    ensures Run(s, os).pushUpCount >= s.pushUpCount
    ensures |Notifications(s, os)| == Run(s, os).pushUpCount - s.pushUpCount
    ensures forall i :: 0 <= i < |Notifications(s, os)| ==> Notifications(s, os)[i] == s.pushUpCount + 1 + i
    decreases |os|
  {
    if os != [] {
      var t := Transition(s, os[0]);
      NotificationsAreConsecutive(t.next, os[1..]);
    }
  }

  /** The number of down observations in a sequence. */
  function Downs(os: seq<Observation>): nat
    decreases |os|
  {
    if os == [] then 0 else (if os[0] == Down then 1 else 0) + Downs(os[1..])
  }

  /** Every counted push-up needs a down observation before it (or the detector
      being down already): the gain is at most the number of down observations. */
  lemma {:induction false} EveryPushUpNeedsADown(s: CounterState, os: seq<Observation>)
    ensures Run(s, os).pushUpCount + (if Run(s, os).isDown then 1 else 0)
            <= s.pushUpCount + (if s.isDown then 1 else 0) + Downs(os)
    decreases |os|
  {
    if os != [] {
      EveryPushUpNeedsADown(Transition(s, os[0]).next, os[1..]);
    }
  }

  /** `n` copies of one observation. */
  function Repeat(o: Observation, n: nat): (r: seq<Observation>)
    ensures |r| == n
    ensures forall i :: 0 <= i < n ==> r[i] == o
  {
    if n == 0 then [] else [o] + Repeat(o, n - 1)
  }

  /** A run of down observations leaves the count alone and the detector down. */
  lemma {:induction false} DownsKeepCount(s: CounterState, n: nat)
    requires n > 0
    ensures Run(s, Repeat(Down, n)) == CounterState(s.pushUpCount, true)
    ensures Notifications(s, Repeat(Down, n)) == []
    decreases n
  {
    var os := Repeat(Down, n);
    assert os[1..] == Repeat(Down, n - 1);
    if n > 1 {
      DownsKeepCount(CounterState(s.pushUpCount, true), n - 1);
    }
  }

  /** Appending one observation runs one more transition and adds its notification. */
  lemma {:induction false} RunAppend(s: CounterState, os: seq<Observation>, o: Observation)
    ensures Run(s, os + [o]) == Transition(Run(s, os), o).next
    ensures Notifications(s, os + [o]) == Notifications(s, os) +
      (var t := Transition(Run(s, os), o); if t.pushUpDetected.Some? then [t.pushUpDetected.value] else [])
    decreases |os|
  {
    if os == [] {
      assert [o][1..] == [];
    } else {
      assert (os + [o])[1..] == os[1..] + [o];
      RunAppend(Transition(s, os[0]).next, os[1..], o);
    }
  }

  /** Any number of down frames followed by one up frame count exactly one push-up,
      reported once with the new count. */
  lemma DownsThenUpCountOnce(s: CounterState, n: nat)
    requires n > 0
    ensures Run(s, Repeat(Down, n) + [Up]) == CounterState(s.pushUpCount + 1, false)
    ensures Notifications(s, Repeat(Down, n) + [Up]) == [s.pushUpCount + 1]
  {
    DownsKeepCount(s, n);
    RunAppend(s, Repeat(Down, n), Up);
  }

  /** Staying up never counts. */
  lemma {:induction false} UpsNeverCount(s: CounterState, n: nat)
    requires !s.isDown
    ensures Run(s, Repeat(Up, n)) == s
    ensures Notifications(s, Repeat(Up, n)) == []
    decreases n
  {
    if n > 0 {
      assert Repeat(Up, n)[1..] == Repeat(Up, n - 1);
      UpsNeverCount(s, n - 1);
    }
  }
}
