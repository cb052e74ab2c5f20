/** The rule and throttle layer of the analysis panel
    (src/components/layout/AnalysisPanel.tsx): the rule-based advice for a
    joint, the labels, and the four effects that start the session, sample
    the accuracy every 10 s, post rule feedback and fire AI coaching after a
    lasting stretch of low accuracy. The wall clock is the `now` parameter. */
module Panel {
  import opened Common
  import opened PoseUtils
  import opened PoseAnalysis
  import opened Session

  /** Time between two recorded accuracy samples, in ms. */
  const SampleInterval: int := 10000
  /** How long accuracy must stay low before AI coaching is asked for, in ms. */
  const LowAccuracyDelay: int := 10000
  /** The least time between two automatic AI coaching calls, in ms. */
  const CoachingCooldown: int := 30000
  /** Accuracy below this counts as low. */
  const LowAccuracyThreshold: int := 50
  /** Accuracy from which a steady pose is praised. */
  const SteadyThreshold: int := 85

  /** "올려" (raise) or "내려" (lower). */
  datatype Direction = Raise | Lower

  /** The messages the panel posts, by meaning; the Korean wording is not
      modelled. */
  datatype Advice =
    | Correction(joint: string, degrees: int, direction: Direction)  // move the joint by `degrees`
    | NeedsAdjustment(joint: string)                                 // a fair joint
    | AlmostPerfect(joint: string)                                   // a good joint
    | PerfectForm(joint: string)                                     // a perfect joint
    | Steady                                                         // the pose is stable, keep it
    | Coaching(text: string)                                         // the AI coach's reply
    | CoachingFailed                                                 // the AI coach could not be reached

  /** `joint.angle < joint.targetAngle ? "올려" : "내려"`. */
  function CorrectionDirection(j: JointAnalysis): (d: Direction)
    ensures d == Raise <==> (j.angle as real) < j.targetAngle
  {
    if (j.angle as real) < j.targetAngle then Raise else Lower
  }

  /** `generateRuleFeedback`: the advice for one joint, by its status. */
  function RuleAdvice(j: JointAnalysis): (adv: Advice)
    ensures adv.Correction? <==> j.status == Poor
    ensures adv.NeedsAdjustment? <==> j.status == Fair
    ensures adv.AlmostPerfect? <==> j.status == Good
    ensures adv.PerfectForm? <==> j.status == Perfect
    ensures (adv.Correction? || adv.NeedsAdjustment? || adv.AlmostPerfect? || adv.PerfectForm?) && adv.joint == j.name
    ensures adv.Correction? ==>
      && adv.degrees == Round(Abs(j.deviation)) && adv.degrees >= 0
      && adv.direction == CorrectionDirection(j)
  {
    match j.status
    case Poor => Correction(j.name, Round(Abs(j.deviation)), CorrectionDirection(j))
    case Fair => NeedsAdjustment(j.name)
    case Good => AlmostPerfect(j.name)
    case Perfect => PerfectForm(j.name)
  }

  /** For a measured joint that is poor, the advice points from the measured
      angle to the target, and moving by the deviation lands on the target. */
  lemma CorrectionReachesTarget(bearing: (real, real) -> real, lms: seq<Landmark>, cfg: JointConfig)
    requires Computable(lms, cfg)
    requires Measure(bearing, lms, cfg).status == Poor
    ensures var j := Measure(bearing, lms, cfg); var raw := RawAngle(bearing, lms, cfg);
      && (RuleAdvice(j).direction == Raise <==> raw < j.targetAngle)
      && (RuleAdvice(j).direction == Raise ==> raw + j.deviation == j.targetAngle)
      && (RuleAdvice(j).direction == Lower ==> raw - j.deviation == j.targetAngle)
  {
    var j := Measure(bearing, lms, cfg);
    var raw := RawAngle(bearing, lms, cfg);
    assert j.deviation > 20.0;
  }

  /** `i` is the first joint whose status is poor. */
  predicate IsFirstPoor(joints: seq<JointAnalysis>, i: nat) {
    && i < |joints|
    && joints[i].status == Poor
    && forall k :: 0 <= k < i ==> joints[k].status != Poor
  }

  /** `joints.find(j => j.status === 'poor')`, as a position. */
  function FirstPoor(joints: seq<JointAnalysis>): (r: Option<nat>)
    ensures r.None? <==> forall i :: 0 <= i < |joints| ==> joints[i].status != Poor
    ensures r.Some? ==> IsFirstPoor(joints, r.value)
  {
    if joints == [] then None
    else if joints[0].status == Poor then Some(0)
    else match FirstPoor(joints[1..])
      case None => None
      case Some(k) => Some(k + 1)
  }

  /** The rule feedback effect: what it posts for an analysis, if anything. */
  function RuleFeedback(a: PoseAnalysisResult): (r: Option<(FeedbackType, Advice)>)
    ensures !a.isValidPose ==> r.None?
    ensures a.isValidPose && (exists i :: 0 <= i < |a.joints| && a.joints[i].status == Poor) ==>
      exists i: nat :: IsFirstPoor(a.joints, i) && r == Some((Error, RuleAdvice(a.joints[i])))
    ensures a.isValidPose && (forall i :: 0 <= i < |a.joints| ==> a.joints[i].status != Poor) ==>
      (r.Some? <==> a.overallAccuracy >= SteadyThreshold) && (r.Some? ==> r.value == (Success, Steady))
  {
    if !a.isValidPose then None
    else match FirstPoor(a.joints)
      case Some(i) => Some((Error, RuleAdvice(a.joints[i])))
      case None => if a.overallAccuracy >= SteadyThreshold then Some((Success, Steady)) else None
  }

  /** The effect key `joints.map(j => j.status).join(',')`. The status words
      contain no comma, so the joined text determines the statuses and
      the model keeps the list itself. */
  function StatusKey(joints: seq<JointAnalysis>): (key: seq<Status>)
    ensures |key| == |joints|
    ensures forall i :: 0 <= i < |joints| ==> key[i] == joints[i].status
  {
    if joints == [] then [] else [joints[0].status] + StatusKey(joints[1..])
  }

  /** Two analyses with the same key agree on which joint is the first poor
      one, so an unchanged key never hides a different correction target. */
  lemma SameKeySameFirstPoor(j1: seq<JointAnalysis>, j2: seq<JointAnalysis>)
    requires StatusKey(j1) == StatusKey(j2)
    ensures FirstPoor(j1) == FirstPoor(j2)
  {
    assert |j1| == |j2|;
    forall i: nat | i < |j1| ensures IsFirstPoor(j1, i) <==> IsFirstPoor(j2, i) {
      assert forall k :: 0 <= k < |j1| ==> j1[k].status == StatusKey(j1)[k] == j2[k].status;
    }
  }

  /** `getStatusLabel`. */
  function StatusLabel(s: Status): (text: string)
    ensures text != ""
  {
    match s
    case Perfect => "Perfect"
    case Good => "Good"
    case Fair => "Fair"
    case Poor => "Poor"
  }

  /** Different statuses are shown differently. */
  lemma StatusLabelInjective(s: Status, t: Status)
    requires s != t
    ensures StatusLabel(s) != StatusLabel(t)
  {
  }

  /** The overall label under the accuracy ring: None is the waiting text
      shown for an invalid pose, otherwise a status band by accuracy. */
  function OverallLabel(isValidPose: bool, accuracy: int): (r: Option<Status>)
    ensures r.None? <==> !isValidPose
    ensures isValidPose ==> (r == Some(Perfect) <==> accuracy >= 90)
    ensures isValidPose ==> (r == Some(Good) <==> 70 <= accuracy < 90)
    ensures isValidPose ==> (r == Some(Fair) <==> 50 <= accuracy < 70)
    ensures isValidPose ==> (r == Some(Poor) <==> accuracy < 50)
  {
    if !isValidPose then None
    else if accuracy >= 90 then Some(Perfect)
    else if accuracy >= 70 then Some(Good)
    else if accuracy >= 50 then Some(Fair)
    else Some(Poor)
  }

  /** A higher accuracy never gets a worse label. */
  lemma OverallLabelMonotone(acc1: int, acc2: int)
    requires acc1 <= acc2
    ensures Rank(OverallLabel(true, acc2).value) <= Rank(OverallLabel(true, acc1).value)
  {
  }

  /** One run of the panel's effects: the analysis of the frame, whether a
      session was active when it rendered, and the time. */
  datatype Frame = Frame(isValidPose: bool, overallAccuracy: int, sessionActive: bool, now: int)

  /** The session auto-start effect fires. */
  predicate StartsSession(isValidPose: bool, isSessionActive: bool) {
    isValidPose && !isSessionActive
  }

  /** The sampling effect records a sample at this frame. */
  predicate SampleDue(f: Frame, lastRecorded: int) {
    f.isValidPose && f.sessionActive && f.now - lastRecorded >= SampleInterval
  }

  /** `lastRecordedRef` after a series of frames, starting from 0. */
  function LastRecordedAfter(fs: seq<Frame>): int
    decreases |fs|
  {
    if fs == [] then 0
    else
      var last := LastRecordedAfter(fs[..|fs| - 1]);
      if SampleDue(fs[|fs| - 1], last) then fs[|fs| - 1].now else last
  }

  /** The positions of the frames at which a sample was recorded. */
  function RecordedFrames(fs: seq<Frame>): seq<nat>
    decreases |fs|
  {
    if fs == [] then []
    else
      var prev := RecordedFrames(fs[..|fs| - 1]);
      if SampleDue(fs[|fs| - 1], LastRecordedAfter(fs[..|fs| - 1])) then prev + [|fs| - 1] else prev
  }

  /** Samples are recorded only at valid frames of an active session, in
      frame order. */
  lemma {:induction false} RecordedAtValidFrames(fs: seq<Frame>)
    ensures forall i :: 0 <= i < |RecordedFrames(fs)| ==> RecordedFrames(fs)[i] < |fs|
    ensures forall i :: 0 <= i < |RecordedFrames(fs)| ==>
      fs[RecordedFrames(fs)[i]].isValidPose && fs[RecordedFrames(fs)[i]].sessionActive
    ensures forall i :: 0 < i < |RecordedFrames(fs)| ==> RecordedFrames(fs)[i - 1] < RecordedFrames(fs)[i]
    decreases |fs|
  {
    if fs != [] {
      var p := fs[..|fs| - 1];
      RecordedAtValidFrames(p);
      var rp := RecordedFrames(p);
      assert forall i :: 0 <= i < |rp| ==> rp[i] < |p| && fs[rp[i]] == p[rp[i]];
      var r := RecordedFrames(fs);
      if SampleDue(fs[|fs| - 1], LastRecordedAfter(p)) {
        assert r == rp + [|fs| - 1];
      } else {
        assert r == rp;
      }
    }
  }

  /** The last-recorded time is that of the latest recorded frame, or 0. */
  lemma {:induction false} LastRecordedIsLatest(fs: seq<Frame>)
    ensures var r := RecordedFrames(fs);
      && (r == [] ==> LastRecordedAfter(fs) == 0)
      && (r != [] ==> r[|r| - 1] < |fs| && LastRecordedAfter(fs) == fs[r[|r| - 1]].now)
    decreases |fs|
  {
    if fs != [] {
      var p := fs[..|fs| - 1];
      LastRecordedIsLatest(p);
      var rp := RecordedFrames(p);
      if rp != [] {
        assert fs[rp[|rp| - 1]] == p[rp[|rp| - 1]];
      }
    }
  }

  /** Recorded samples are at least 10 s apart, and the first comes at least
      10 s after time 0. */
  lemma {:induction false} RecordingsSpaced(fs: seq<Frame>)
    ensures var r := RecordedFrames(fs);
      && (forall i :: 0 <= i < |r| ==> r[i] < |fs|)
      && (forall i :: 0 < i < |r| ==> fs[r[i]].now - fs[r[i - 1]].now >= SampleInterval)
      && (|r| > 0 ==> fs[r[0]].now >= SampleInterval)
    decreases |fs|
  {
    RecordedAtValidFrames(fs);
    if fs != [] {
      var p := fs[..|fs| - 1];
      RecordingsSpaced(p);
      RecordedAtValidFrames(p);
      LastRecordedIsLatest(p);
      var rp := RecordedFrames(p);
      assert forall i :: 0 <= i < |rp| ==> fs[rp[i]] == p[rp[i]];
    }
  }

  /** `!lastAICoachingTime || now - lastAICoachingTime >= 30000`. */
  predicate CoachingAllowed(lastCoaching: Option<int>, now: int)
    ensures !Truthy(lastCoaching) ==> CoachingAllowed(lastCoaching, now)
    ensures Truthy(lastCoaching) ==> (CoachingAllowed(lastCoaching, now) <==> lastCoaching.value + CoachingCooldown <= now)
  {
    !Truthy(lastCoaching) || now - lastCoaching.value >= CoachingCooldown
  }

  /** The low-accuracy timer has run for 10 s at a low-accuracy frame: the
      point at which the effect checks the throttle and resets the timer. */
  predicate CoachingDue(f: Frame, timer: Option<int>) {
    && f.isValidPose && f.overallAccuracy < LowAccuracyThreshold
    && Truthy(timer) && f.now - timer.value >= LowAccuracyDelay
  }

  /** `lowAccuracyStartRef` after one run of the low-accuracy effect. */
  function NextLowTimer(f: Frame, timer: Option<int>): (r: Option<int>)
    ensures !f.isValidPose || f.overallAccuracy >= LowAccuracyThreshold ==> r == None
    ensures f.isValidPose && f.overallAccuracy < LowAccuracyThreshold && !Truthy(timer) ==> r == Some(f.now)
    ensures CoachingDue(f, timer) ==> r == None
    ensures f.isValidPose && f.overallAccuracy < LowAccuracyThreshold && Truthy(timer) && !CoachingDue(f, timer) ==> r == timer
  {
    if !f.isValidPose then None
    else if f.overallAccuracy < LowAccuracyThreshold then
      if !Truthy(timer) then Some(f.now)
      else if f.now - timer.value >= LowAccuracyDelay then None
      else timer
    else None
  }

  /** The automatic coaching call is made at this frame. */
  predicate AutoCoachingFires(f: Frame, timer: Option<int>, lastCoaching: Option<int>) {
    CoachingDue(f, timer) && CoachingAllowed(lastCoaching, f.now)
  }

  /** The low-accuracy timer after a series of frames, starting unset. */
  function TimerAfter(fs: seq<Frame>): Option<int>
    decreases |fs|
  {
    if fs == [] then None else NextLowTimer(fs[|fs| - 1], TimerAfter(fs[..|fs| - 1]))
  }

  /** Every frame from `m` on is valid with low accuracy. */
  predicate LowStreak(fs: seq<Frame>, m: nat) {
    m < |fs| && forall k :: m <= k < |fs| ==> fs[k].isValidPose && fs[k].overallAccuracy < LowAccuracyThreshold
  }

  /** A set timer holds the time of a frame from which accuracy has stayed
      low ever since. */
  lemma {:induction false} TimerMarksLowStreak(fs: seq<Frame>)
    ensures TimerAfter(fs).Some? ==>
      exists m :: 0 <= m < |fs| && fs[m].now == TimerAfter(fs).value && LowStreak(fs, m)
    decreases |fs|
  {
    if fs != [] {
      var p := fs[..|fs| - 1];
      var f := fs[|fs| - 1];
      TimerMarksLowStreak(p);
      var t := TimerAfter(fs);
      if t.Some? {
        assert f.isValidPose && f.overallAccuracy < LowAccuracyThreshold;
        if Truthy(TimerAfter(p)) && t == TimerAfter(p) {
          var m :| 0 <= m < |p| && p[m].now == TimerAfter(p).value && LowStreak(p, m);
          assert fs[m] == p[m];
          assert forall k :: m <= k < |p| ==> fs[k] == p[k];
          assert LowStreak(fs, m);
        } else {
          assert t == Some(f.now);
          assert LowStreak(fs, |fs| - 1);
        }
      }
    }
  }

  /** AI coaching is only ever due after accuracy has stayed below 50 at every
      frame for at least 10 s. */
  lemma CoachingOnlyAfterLastingLowAccuracy(fs: seq<Frame>, f: Frame)
    requires CoachingDue(f, TimerAfter(fs))
    ensures exists m :: 0 <= m < |fs| && f.now - fs[m].now >= LowAccuracyDelay && LowStreak(fs + [f], m)
  {
    TimerMarksLowStreak(fs);
    var m :| 0 <= m < |fs| && fs[m].now == TimerAfter(fs).value && LowStreak(fs, m);
    var g := fs + [f];
    assert forall k :: m <= k < |fs| ==> g[k] == fs[k];
    assert g[|fs|] == f;
    assert g[m] == fs[m];
    assert LowStreak(g, m);
  }

  /** The panel's own state and the session it reports into. */
  class AnalysisPanel {
    const session: SessionTracker<Advice>
    /** `lastRecordedRef`. */
    var lastRecorded: int
    /** `lowAccuracyStartRef`. */
    var lowAccuracyStart: Option<int>
    /** The status key the rule feedback effect last ran for (None before
        its first run). */
    var lastStatusKey: Option<seq<Status>>

    ghost predicate Valid()
      reads this, session
    {
      session.Valid()
    }

    constructor (s: SessionTracker<Advice>)
      requires s.Valid()
      ensures Valid()
      ensures session == s && lastRecorded == 0 && lowAccuracyStart == None && lastStatusKey == None
    {
      session := s;
      lastRecorded := 0;
      lowAccuracyStart := None;
      lastStatusKey := None;
    }

    /** The auto-start effect: a valid pose with no active session starts one. */
    method AutoStartSession(a: PoseAnalysisResult, now: int)
      requires Valid()
      modifies session`sessionStartTime, session`isSessionActive, session`accuracyHistory,
               session`feedbackMessages, session`lastAICoachingTime
      ensures Valid()
      ensures StartsSession(a.isValidPose, old(session.isSessionActive)) ==>
        session.sessionStartTime == Some(now) && session.isSessionActive
        && session.accuracyHistory == [] && session.feedbackMessages == []
        && session.lastAICoachingTime == None
      ensures !StartsSession(a.isValidPose, old(session.isSessionActive)) ==>
        unchanged(session)
    {
      if a.isValidPose && !session.isSessionActive {
        session.StartSession(now);
      }
    }

    /** The sampling effect: at most one sample per 10 s while the pose is
        valid and the session active; the last-recorded time moves only
        when a sample is recorded. */
    method RecordAccuracy(a: PoseAnalysisResult, now: int)
      requires Valid()
      modifies this`lastRecorded, session`accuracyHistory
      ensures Valid()
      ensures var f := Frame(a.isValidPose, a.overallAccuracy, old(session.isSessionActive), now);
        && (SampleDue(f, old(lastRecorded)) ==>
              lastRecorded == now
              && session.accuracyHistory == RecordSample(old(session.accuracyHistory), session.sessionStartTime, a.overallAccuracy, now))
        && (!SampleDue(f, old(lastRecorded)) ==>
              lastRecorded == old(lastRecorded) && session.accuracyHistory == old(session.accuracyHistory))
    {
      if !a.isValidPose || !session.isSessionActive {
        return;
      }
      if now - lastRecorded >= SampleInterval {
        session.AddAccuracyPoint(a.overallAccuracy, now);
        lastRecorded := now;
      }
    }

    /** The rule feedback effect, which React runs on the first render and
        then only when the joints' status key changes: posts what
        RuleFeedback gives, if anything. */
    method PostRuleFeedback(a: PoseAnalysisResult, now: int)
      requires Valid()
      modifies this`lastStatusKey, session`feedbackIdCounter, session`feedbackMessages
      ensures Valid()
      ensures lastStatusKey == Some(StatusKey(a.joints))
      ensures (old(lastStatusKey) == Some(StatusKey(a.joints)) || RuleFeedback(a).None?) ==>
        unchanged(session)
      ensures old(lastStatusKey) != Some(StatusKey(a.joints)) && RuleFeedback(a).Some? ==>
        var (kind, advice) := RuleFeedback(a).value;
        && session.feedbackIdCounter == old(session.feedbackIdCounter) + 1
        && session.feedbackMessages == PushFeedback(old(session.feedbackMessages),
             Feedback(session.feedbackIdCounter, advice, kind, now))
    {
      var key := StatusKey(a.joints);
      if lastStatusKey == Some(key) {
        return;
      }
      lastStatusKey := Some(key);
      var r := RuleFeedback(a);
      if r.Some? {
        session.AddFeedback(r.value.1, r.value.0, now);
      }
    }

    /** The low-accuracy effect: moves the timer on and, when coaching is
        due and not throttled, starts an AI coaching request. */
    method WatchLowAccuracy(a: PoseAnalysisResult, now: int) returns (started: bool)
      requires Valid()
      modifies this`lowAccuracyStart, session`isAICoachingLoading, session`lastAICoachingTime
      ensures Valid()
      ensures var f := Frame(a.isValidPose, a.overallAccuracy, session.isSessionActive, now);
        && lowAccuracyStart == NextLowTimer(f, old(lowAccuracyStart))
        && (!AutoCoachingFires(f, old(lowAccuracyStart), old(session.lastAICoachingTime)) ==>
              !started && unchanged(session))
        && (AutoCoachingFires(f, old(lowAccuracyStart), old(session.lastAICoachingTime)) ==>
              (started <==> !old(session.isAICoachingLoading)))
        && (started ==> session.isAICoachingLoading && session.lastAICoachingTime == Some(now))
      ensures !started ==> unchanged(session)
    {
      started := false;
      if !a.isValidPose {
        lowAccuracyStart := None;
        return;
      }
      if a.overallAccuracy < LowAccuracyThreshold {
        if !Truthy(lowAccuracyStart) {
          lowAccuracyStart := Some(now);
        } else if now - lowAccuracyStart.value >= LowAccuracyDelay {
          if CoachingAllowed(session.lastAICoachingTime, now) {
            started := BeginAICoaching(a, now);
          }
          lowAccuracyStart := None;
        }
      } else {
        lowAccuracyStart := None;
      }
    }

    /** The synchronous part of `triggerAICoaching`: nothing while a request
        is loading or the pose is invalid; otherwise mark loading and stamp
        the call time before the request goes out. */
    method BeginAICoaching(a: PoseAnalysisResult, now: int) returns (started: bool)
      requires Valid()
      modifies session`isAICoachingLoading, session`lastAICoachingTime
      ensures Valid()
      ensures started <==> !old(session.isAICoachingLoading) && a.isValidPose
      ensures !started ==> unchanged(session)
      ensures started ==> session.isAICoachingLoading && session.lastAICoachingTime == Some(now)
    {
      if session.isAICoachingLoading || !a.isValidPose {
        return false;
      }
      session.SetAICoachingLoading(true);
      session.SetLastAICoachingTime(now);
      return true;
    }

    /** The completion of `triggerAICoaching`: the reply (or, when the
        request failed, an error notice) is posted and loading ends. */
    method FinishAICoaching(reply: Option<string>, now: int)
      requires Valid()
      modifies session`feedbackIdCounter, session`feedbackMessages, session`isAICoachingLoading
      ensures Valid()
      ensures !session.isAICoachingLoading
      ensures session.feedbackIdCounter == old(session.feedbackIdCounter) + 1
      ensures reply.Some? ==> session.feedbackMessages == PushFeedback(old(session.feedbackMessages),
                Feedback(session.feedbackIdCounter, Coaching(reply.value), Info, now))
      ensures reply.None? ==> session.feedbackMessages == PushFeedback(old(session.feedbackMessages),
                Feedback(session.feedbackIdCounter, CoachingFailed, Error, now))
    {
      if reply.Some? {
        session.AddFeedback(Coaching(reply.value), Info, now);
      } else {
        session.AddFeedback(CoachingFailed, Error, now);
      }
      session.SetAICoachingLoading(false);
    }
  }
}
