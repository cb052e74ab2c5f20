/** Per-frame pose analysis (src/hooks/usePoseAnalysis.ts): which configured
    joints can be measured, each joint's angle, deviation from its kendo
    target and status, and the overall accuracy score of the frame. */
module PoseAnalysis {
  import opened Common
  import opened PoseUtils

  /** Classification of one joint's deviation from its target. */
  datatype Status = Perfect | Good | Fair | Poor

  /** Order of the statuses from best to worst. */
  function Rank(s: Status): nat {
    match s
    case Perfect => 0
    case Good => 1
    case Fair => 2
    case Poor => 3
  }

  /** `getStatus`: the band the deviation (in degrees) falls into. */
  function GetStatus(deviation: real): (s: Status)
    ensures s == Perfect <==> deviation <= 5.0
    ensures s == Good <==> 5.0 < deviation <= 10.0
    ensures s == Fair <==> 10.0 < deviation <= 20.0
    ensures s == Poor <==> 20.0 < deviation
  {
    if deviation <= 5.0 then Perfect
    else if deviation <= 10.0 then Good
    else if deviation <= 20.0 then Fair
    else Poor
  }

  /** A larger deviation never gets a better status. */
  lemma GetStatusMonotone(d1: real, d2: real)
    requires d1 <= d2
    ensures Rank(GetStatus(d1)) <= Rank(GetStatus(d2))
  {
  }

  /** One entry of `JOINT_ANGLE_CONFIG`: the joint's display name, its key in
      the target table and three landmark indices, the middle one the vertex. */
  datatype JointConfig = JointConfig(name: string, key: string, a: nat, b: nat, c: nat)

  /** `JOINT_ANGLE_CONFIG`, in its order. */
  const JointConfigs: seq<JointConfig> := [
    JointConfig("오른팔 팔꿈치", "right_elbow", 12, 14, 16),
    JointConfig("왼팔 팔꿈치", "left_elbow", 11, 13, 15),
    JointConfig("오른쪽 어깨", "right_shoulder", 14, 12, 24),
    JointConfig("왼쪽 어깨", "left_shoulder", 13, 11, 23),
    JointConfig("오른쪽 무릎", "right_knee", 24, 26, 28),
    JointConfig("왼쪽 무릎", "left_knee", 23, 25, 27)
  ]

  /** `KENDO_TARGET_ANGLES`, in degrees. */
  const KendoTargetAngles: map<string, real> := map[
    "right_elbow" := 90.0, "left_elbow" := 90.0,
    "right_shoulder" := 45.0, "left_shoulder" := 45.0,
    "right_knee" := 170.0, "left_knee" := 170.0
  ]

  /** The target for a key, 90 degrees for a key missing from the table. */
  function TargetAngle(key: string): real {
    if key in KendoTargetAngles then KendoTargetAngles[key] else 90.0
  }

  /** Every configured joint uses landmarks of the 33-point body pose, has a
      target in the table, and its vertex landmark carries the joint's key as
      its MediaPipe name. */
  lemma JointConfigsWellFormed(k: nat)
    requires k < |JointConfigs|
    ensures JointConfigs[k].a < PoseLandmarkCount
    ensures JointConfigs[k].b < PoseLandmarkCount
    ensures JointConfigs[k].c < PoseLandmarkCount
    ensures JointConfigs[k].key in KendoTargetAngles
    ensures LandmarkNames[JointConfigs[k].b] == JointConfigs[k].key
  {
  }

  /** One measured joint. `angle` is rounded for display; `deviation` is
      measured from the unrounded angle. */
  datatype JointAnalysis = JointAnalysis(name: string, angle: int, targetAngle: real, deviation: real, status: Status)

  datatype PoseAnalysisResult = PoseAnalysisResult(overallAccuracy: int, joints: seq<JointAnalysis>, isValidPose: bool)

  /** The result for a frame with nothing to analyse. */
  const NoPose: PoseAnalysisResult := PoseAnalysisResult(0, [], false)

  /** `visibility ?? presence ?? 0`. */
  function Confidence(lm: Landmark): (conf: real)
    ensures lm.visibility.Some? ==> conf == lm.visibility.value
    ensures lm.visibility.None? && lm.presence.Some? ==> conf == lm.presence.value
    ensures lm.visibility.None? && lm.presence.None? ==> conf == 0.0
  {
    match lm.visibility
    case Some(v) => v
    case None => (match lm.presence case Some(p) => p case None => 0.0)
  }

  /** A landmark is visible when its confidence exceeds 0.5; one that
      reports neither confidence never is. */
  predicate IsVisible(lm: Landmark)
  {
    Confidence(lm) > 0.5
  }

  /** Visibility decides when it is reported; otherwise presence does; a
      landmark reporting neither is never visible. */
  lemma IsVisibleCases(lm: Landmark)
    ensures lm.visibility.Some? ==> (IsVisible(lm) <==> lm.visibility.value > 0.5)
    ensures lm.visibility.None? && lm.presence.Some? ==> (IsVisible(lm) <==> lm.presence.value > 0.5)
    ensures lm.visibility.None? && lm.presence.None? ==> !IsVisible(lm)
  {
  }

  /** A joint can be measured when its three landmarks are all visible; an
      index past the end of the list reads `undefined`, whose confidence is 0. */
  predicate Computable(lms: seq<Landmark>, cfg: JointConfig) {
    && cfg.a < |lms| && IsVisible(lms[cfg.a])
    && cfg.b < |lms| && IsVisible(lms[cfg.b])
    && cfg.c < |lms| && IsVisible(lms[cfg.c])
  }

  /** The unrounded angle of a joint, in degrees. */
  function RawAngle(bearing: (real, real) -> real, lms: seq<Landmark>, cfg: JointConfig): real
    requires Computable(lms, cfg)
  {
    CalculateAngle(bearing, lms[cfg.a], lms[cfg.b], lms[cfg.c])
  }

  /** The analysis of one configured joint. */
  function Measure(bearing: (real, real) -> real, lms: seq<Landmark>, cfg: JointConfig): (j: JointAnalysis)
    requires Computable(lms, cfg)
    ensures j.name == cfg.name
    ensures j.targetAngle == TargetAngle(cfg.key)
    ensures j.deviation >= 0.0
    ensures j.deviation == RawAngle(bearing, lms, cfg) - j.targetAngle
         || j.deviation == j.targetAngle - RawAngle(bearing, lms, cfg)
    ensures j.status == GetStatus(j.deviation)
    ensures RawAngle(bearing, lms, cfg) - 0.5 < j.angle as real <= RawAngle(bearing, lms, cfg) + 0.5
  {
    var angle := RawAngle(bearing, lms, cfg);
    var target := TargetAngle(cfg.key);
    var deviation := Abs(angle - target);
    JointAnalysis(cfg.name, Round(angle), target, deviation, GetStatus(deviation))
  }

  /** The `flatMap` over a joint configuration list: the measurable joints,
      each measured, in list order. */
  function JointsOf(bearing: (real, real) -> real, lms: seq<Landmark>, cfgs: seq<JointConfig>): (joints: seq<JointAnalysis>)
  {
    if cfgs == [] then []
    else
      (if Computable(lms, cfgs[0]) then [Measure(bearing, lms, cfgs[0])] else [])
        + JointsOf(bearing, lms, cfgs[1..])
  }

  /** The positions in `cfgs` whose joints can be measured, shifted by `base`. */
  function Selected(lms: seq<Landmark>, cfgs: seq<JointConfig>, base: nat): seq<nat>
  {
    if cfgs == [] then []
    else (if Computable(lms, cfgs[0]) then [base] else []) + Selected(lms, cfgs[1..], base + 1)
  }

  /** Selected positions lie in `base..base+|cfgs|`, strictly increase, and
      are exactly the measurable ones. */
  lemma {:induction false} SelectedSpec(lms: seq<Landmark>, cfgs: seq<JointConfig>, base: nat)
    ensures |Selected(lms, cfgs, base)| <= |cfgs|
    ensures forall i :: 0 <= i < |Selected(lms, cfgs, base)| ==>
      base <= Selected(lms, cfgs, base)[i] < base + |cfgs|
    ensures forall i, i' :: 0 <= i < i' < |Selected(lms, cfgs, base)| ==>
      Selected(lms, cfgs, base)[i] < Selected(lms, cfgs, base)[i']
    ensures forall m :: base <= m < base + |cfgs| ==>
      (m in Selected(lms, cfgs, base) <==> Computable(lms, cfgs[m - base]))
  {
    if cfgs != [] {
      SelectedSpec(lms, cfgs[1..], base + 1);
      var rest := Selected(lms, cfgs[1..], base + 1);
      forall m | base < m < base + |cfgs|
        ensures m in Selected(lms, cfgs, base) <==> Computable(lms, cfgs[m - base])
      {
        assert cfgs[1..][m - (base + 1)] == cfgs[m - base];
      }
    }
  }

  /** The joints and the selected positions are equally many. */
  lemma {:induction false} JointsCount(bearing: (real, real) -> real, lms: seq<Landmark>, cfgs: seq<JointConfig>, base: nat)
    ensures |JointsOf(bearing, lms, cfgs)| == |Selected(lms, cfgs, base)|
  {
    if cfgs != [] {
      JointsCount(bearing, lms, cfgs[1..], base + 1);
    }
  }

  /** The `i`-th selected position names a measurable configuration. */
  lemma {:induction false} SelectedAt(lms: seq<Landmark>, cfgs: seq<JointConfig>, base: nat, i: nat)
    requires i < |Selected(lms, cfgs, base)|
    ensures base <= Selected(lms, cfgs, base)[i] < base + |cfgs|
    ensures Computable(lms, cfgs[Selected(lms, cfgs, base)[i] - base])
  {
    var rest := Selected(lms, cfgs[1..], base + 1);
    if Computable(lms, cfgs[0]) {
      if i > 0 {
        SelectedAt(lms, cfgs[1..], base + 1, i - 1);
        assert cfgs[1..][rest[i - 1] - (base + 1)] == cfgs[rest[i - 1] - base];
      }
    } else {
      SelectedAt(lms, cfgs[1..], base + 1, i);
      assert cfgs[1..][rest[i] - (base + 1)] == cfgs[rest[i] - base];
    }
  }

  /** The `i`-th joint is the measurement of the `i`-th selected configuration. */
  lemma {:induction false} JointAt(bearing: (real, real) -> real, lms: seq<Landmark>, cfgs: seq<JointConfig>, base: nat, i: nat)
    requires i < |Selected(lms, cfgs, base)|
    requires base <= Selected(lms, cfgs, base)[i] < base + |cfgs|
    requires Computable(lms, cfgs[Selected(lms, cfgs, base)[i] - base])
    ensures |JointsOf(bearing, lms, cfgs)| == |Selected(lms, cfgs, base)|
    ensures JointsOf(bearing, lms, cfgs)[i] == Measure(bearing, lms, cfgs[Selected(lms, cfgs, base)[i] - base])
    decreases |cfgs|, 1
  {
    JointsCount(bearing, lms, cfgs, base);
    if Computable(lms, cfgs[0]) {
      JointAtKept(bearing, lms, cfgs, base, i);
    } else {
      assert Selected(lms, cfgs, base) == Selected(lms, cfgs[1..], base + 1);
      assert JointsOf(bearing, lms, cfgs) == JointsOf(bearing, lms, cfgs[1..]);
      JointAtSkipped(bearing, lms, cfgs, base, i);
    }
  }

  /** JointAt when the first configuration is measured. */
  lemma {:induction false} JointAtKept(bearing: (real, real) -> real, lms: seq<Landmark>, cfgs: seq<JointConfig>, base: nat, i: nat)
    requires cfgs != [] && Computable(lms, cfgs[0])
    requires i < |Selected(lms, cfgs, base)|
    requires |JointsOf(bearing, lms, cfgs)| == |Selected(lms, cfgs, base)|
    ensures base <= Selected(lms, cfgs, base)[i] < base + |cfgs|
    ensures Computable(lms, cfgs[Selected(lms, cfgs, base)[i] - base])
    ensures JointsOf(bearing, lms, cfgs)[i] == Measure(bearing, lms, cfgs[Selected(lms, cfgs, base)[i] - base])
    decreases |cfgs|, 0
  {
    var rest := Selected(lms, cfgs[1..], base + 1);
    var later := JointsOf(bearing, lms, cfgs[1..]);
    assert Selected(lms, cfgs, base) == [base] + rest;
    assert JointsOf(bearing, lms, cfgs) == [Measure(bearing, lms, cfgs[0])] + later;
    if i > 0 {
      SelectedAt(lms, cfgs[1..], base + 1, i - 1);
      JointAt(bearing, lms, cfgs[1..], base + 1, i - 1);
      assert cfgs[1..][rest[i - 1] - (base + 1)] == cfgs[rest[i - 1] - base];
    }
  }

  /** JointAt when the first configuration is skipped, so that both lists
      are those of the remaining configurations. */
  lemma {:induction false} JointAtSkipped(bearing: (real, real) -> real, lms: seq<Landmark>, cfgs: seq<JointConfig>, base: nat, i: nat)
    requires cfgs != []
    requires Selected(lms, cfgs, base) == Selected(lms, cfgs[1..], base + 1)
    requires JointsOf(bearing, lms, cfgs) == JointsOf(bearing, lms, cfgs[1..])
    requires i < |Selected(lms, cfgs, base)|
    requires |JointsOf(bearing, lms, cfgs)| == |Selected(lms, cfgs, base)|
    ensures base <= Selected(lms, cfgs, base)[i] < base + |cfgs|
    ensures Computable(lms, cfgs[Selected(lms, cfgs, base)[i] - base])
    ensures JointsOf(bearing, lms, cfgs)[i] == Measure(bearing, lms, cfgs[Selected(lms, cfgs, base)[i] - base])
    decreases |cfgs|, 0
  {
    var rest := Selected(lms, cfgs[1..], base + 1);
    SelectedAt(lms, cfgs[1..], base + 1, i);
    JointAt(bearing, lms, cfgs[1..], base + 1, i);
    var k := rest[i] - base;
    assert 1 <= k < |cfgs| && cfgs[1..][k - 1] == cfgs[k];
  }

  /** The joints are the selected configurations, each measured, in order. */
  lemma JointsAreSelection(bearing: (real, real) -> real, lms: seq<Landmark>, cfgs: seq<JointConfig>, base: nat)
    ensures |JointsOf(bearing, lms, cfgs)| == |Selected(lms, cfgs, base)|
    ensures forall i :: 0 <= i < |Selected(lms, cfgs, base)| ==>
      && base <= Selected(lms, cfgs, base)[i] < base + |cfgs|
      && Computable(lms, cfgs[Selected(lms, cfgs, base)[i] - base])
      && JointsOf(bearing, lms, cfgs)[i] == Measure(bearing, lms, cfgs[Selected(lms, cfgs, base)[i] - base])
  {
    JointsCount(bearing, lms, cfgs, base);
    forall i | 0 <= i < |Selected(lms, cfgs, base)|
      ensures && base <= Selected(lms, cfgs, base)[i] < base + |cfgs|
              && Computable(lms, cfgs[Selected(lms, cfgs, base)[i] - base])
              && JointsOf(bearing, lms, cfgs)[i] == Measure(bearing, lms, cfgs[Selected(lms, cfgs, base)[i] - base])
    {
      SelectedAt(lms, cfgs, base, i);
      JointAt(bearing, lms, cfgs, base, i);
    }
  }

  /** Every measured joint has a non-negative deviation. */
  lemma {:induction false} JointsDeviationNonNegative(bearing: (real, real) -> real, lms: seq<Landmark>, cfgs: seq<JointConfig>)
    ensures forall i :: 0 <= i < |JointsOf(bearing, lms, cfgs)| ==> JointsOf(bearing, lms, cfgs)[i].deviation >= 0.0
  {
    JointsAreSelection(bearing, lms, cfgs, 0);
  }

  /** The sum of the joints' deviations (the source's `reduce`). */
  function SumDeviations(joints: seq<JointAnalysis>): real {
    if joints == [] then 0.0 else SumDeviations(joints[..|joints| - 1]) + joints[|joints| - 1].deviation
  }

  /** When every deviation is zero, so is their sum. */
  lemma {:induction false} SumOfZeroDeviations(joints: seq<JointAnalysis>)
    requires forall i :: 0 <= i < |joints| ==> joints[i].deviation == 0.0
    ensures SumDeviations(joints) == 0.0
  {
    if joints != [] {
      SumOfZeroDeviations(joints[..|joints| - 1]);
    }
  }

  /** Deviations are non-negative, so is their sum. */
  lemma {:induction false} SumOfDeviationsNonNegative(joints: seq<JointAnalysis>)
    requires forall i :: 0 <= i < |joints| ==> joints[i].deviation >= 0.0
    ensures SumDeviations(joints) >= 0.0
  {
    if joints != [] {
      SumOfDeviationsNonNegative(joints[..|joints| - 1]);
    }
  }

  function MeanDeviation(joints: seq<JointAnalysis>): real
    requires |joints| > 0
  {
    SumDeviations(joints) / |joints| as real
  }

  /** `max(0, min(100, round(100 - 2 * mean)))`: 100 for a mean deviation up
      to a quarter degree, 0 once the mean deviation exceeds 49.75 degrees. */
  function OverallAccuracy(meanDeviation: real): (acc: int)
    ensures 0 <= acc <= 100
    ensures acc == 100 <==> meanDeviation <= 0.25
    ensures acc == 0 <==> meanDeviation > 49.75
  {
    Clamp(Round(100.0 - meanDeviation * 2.0), 0, 100)
  }

  /** Accuracy never rises when the mean deviation grows. */
  lemma OverallAccuracyMonotone(m1: real, m2: real)
    requires m1 <= m2
    ensures OverallAccuracy(m2) <= OverallAccuracy(m1)
  {
  }

  /** The body of `usePoseAnalysis` (its `useMemo` dropped): `None` stands for
      a `null` landmark list. */
  function Analyze(bearing: (real, real) -> real, landmarks: Option<seq<Landmark>>): (r: PoseAnalysisResult)
    ensures landmarks.None? || |landmarks.value| < PoseLandmarkCount ==> r == NoPose
    ensures r.isValidPose <==> |r.joints| > 0
    ensures !r.isValidPose ==> r == NoPose
    ensures 0 <= r.overallAccuracy <= 100
    ensures |r.joints| <= |JointConfigs|
    ensures r.isValidPose ==> r.overallAccuracy == OverallAccuracy(MeanDeviation(r.joints))
  {
    if landmarks.None? || |landmarks.value| < PoseLandmarkCount then NoPose
    else
      var joints := JointsOf(bearing, landmarks.value, JointConfigs);
      JointsAreSelection(bearing, landmarks.value, JointConfigs, 0);
      SelectedSpec(landmarks.value, JointConfigs, 0);
      if |joints| == 0 then NoPose
      else PoseAnalysisResult(OverallAccuracy(MeanDeviation(joints)), joints, true)
  }

  /** For a full pose, a configured joint is reported exactly when its three
      landmarks are visible, and is then measured as configured; reported
      joints keep configuration order. */
  lemma AnalyzeJoints(bearing: (real, real) -> real, lms: seq<Landmark>)
    requires |lms| >= PoseLandmarkCount
    ensures var js := Analyze(bearing, Some(lms)).joints; var sel := Selected(lms, JointConfigs, 0);
      && |js| == |sel|
      && (forall i, i' :: 0 <= i < i' < |sel| ==> sel[i] < sel[i'])
      && (forall m :: 0 <= m < |JointConfigs| ==> (m in sel <==> Computable(lms, JointConfigs[m])))
      && (forall i :: 0 <= i < |sel| ==>
            && sel[i] < |JointConfigs|
            && Computable(lms, JointConfigs[sel[i]])
            && js[i] == Measure(bearing, lms, JointConfigs[sel[i]]))
  {
    JointsAreSelection(bearing, lms, JointConfigs, 0);
    SelectedSpec(lms, JointConfigs, 0);
  }

  /** A frame whose measured joints all sit exactly on target scores 100. */
  lemma PerfectPoseScoresFull(r: PoseAnalysisResult, bearing: (real, real) -> real, lms: seq<Landmark>)
    requires r == Analyze(bearing, Some(lms))
    requires r.isValidPose
    requires forall i :: 0 <= i < |r.joints| ==> r.joints[i].deviation == 0.0
    ensures r.overallAccuracy == 100
  {
    SumOfZeroDeviations(r.joints);
  }

  /** Every reported deviation is non-negative, so is their mean. */
  lemma MeanDeviationNonNegative(r: PoseAnalysisResult, bearing: (real, real) -> real, lms: seq<Landmark>)
    requires r == Analyze(bearing, Some(lms))
    requires r.isValidPose
    ensures MeanDeviation(r.joints) >= 0.0
  {
    JointsDeviationNonNegative(bearing, lms, JointConfigs);
    SumOfDeviationsNonNegative(r.joints);
    DivideNonNegative(SumDeviations(r.joints), |r.joints| as real);
  }

  lemma DivideNonNegative(x: real, n: real)
    requires x >= 0.0 && n > 0.0
    ensures x / n >= 0.0
  {
  }
}
