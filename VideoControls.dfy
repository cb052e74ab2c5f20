/** The playback controls' arithmetic (src/components/video/VideoControls.tsx):
    the `m:ss` clock text and the four seek targets, clamped to the video.
    Times are seconds, as reals. */
module Playback {
  import opened Common
  import Text

  /** One frame at 30 frames per second. */
  const FrameStep: real := 1.0 / 30.0
  /** The skip buttons' jump. */
  const SkipStep: real := 5.0

  /** `formatTime`: whole minutes, unpadded, a colon, and the whole seconds
      within the minute padded to two digits. */
  function FormatTime(seconds: real): (s: string)
    ensures |s| >= 4
  {
    var mins := (seconds / 60.0).Floor;
    var secs := JsRem(seconds, 60.0).Floor;
    Text.IntToString(mins) + ":" + Text.PadStart(Text.IntToString(secs), 2, '0')
  }

  /** `s` is a minutes field written without padding, a colon, and a
      two-digit seconds field below 60, together making `total` seconds. */
  predicate ReadsAsClock(s: string, minutes: nat, total: int) {
    var k := |s| - 3;
    && k >= 1
    && s[..k] == Text.NatToString(minutes)
    && s[k] == ':'
    && Text.AllDigits(s[k + 1..])
    && Text.ParseDecimal(s[k + 1..]) < 60
    && minutes * 60 + Text.ParseDecimal(s[k + 1..]) == total
  }

  /** The text of a non-negative time in two fields. */
  function ClockText(m: nat, n: nat): string {
    Text.NatToString(m) + ":" + Text.PadStart(Text.NatToString(n), 2, '0')
  }

  /** Minutes and a seconds value below 60, written as a clock, read back. */
  lemma ClockTextReadsBack(m: nat, n: nat)
    requires n < 60
    ensures ReadsAsClock(ClockText(m, n), m, m * 60 + n)
  {
    var mm := Text.NatToString(m);
    var nn := Text.PadStart(Text.NatToString(n), 2, '0');
    Text.SmallNatToString(n);
    Text.PadStartZeros(Text.NatToString(n), 2);
    Text.ParseNatToString(n);
    var s := ClockText(m, n);
    assert s == mm + ":" + nn;
    assert |nn| == 2;
    var k := |s| - 3;
    assert k == |mm|;
    assert s[..k] == mm && s[k] == ':' && s[k + 1..] == nn;
    assert Text.ParseDecimal(nn) == n;
  }

  /** For a non-negative time the two fields are the whole minutes and the
      whole seconds left over. */
  lemma FormatTimeFields(seconds: real)
    requires seconds >= 0.0
    ensures var m := (seconds / 60.0).Floor;
      && 0 <= m
      && 0 <= seconds.Floor - 60 * m < 60
      && FormatTime(seconds) == ClockText(m, seconds.Floor - 60 * m)
  {
    var m := (seconds / 60.0).Floor;
    assert 60.0 * (m as real) <= seconds < 60.0 * (m as real) + 60.0;
    assert Trunc(seconds / 60.0) == m;
    var rest := JsRem(seconds, 60.0);
    assert rest == seconds - 60.0 * (m as real);
    var n := seconds.Floor - 60 * m;
    assert (n as real) <= rest < (n as real) + 1.0;
    assert rest.Floor == n;
  }

  /** For a non-negative time the clock text reads back as the whole minutes,
      unpadded, and a two-digit seconds field in 0..59, together making the
      whole seconds of the time. */
  lemma FormatTimeReadsBack(seconds: real)
    requires seconds >= 0.0
    ensures ReadsAsClock(FormatTime(seconds), (seconds / 60.0).Floor, seconds.Floor)
  {
    var m := (seconds / 60.0).Floor;
    var n := seconds.Floor - 60 * m;
    FormatTimeFields(seconds);
    ClockTextReadsBack(m, n);
    var total := seconds.Floor;
    assert m * 60 + n == total;
    assert ReadsAsClock(ClockText(m, n), m, total);
    assert FormatTime(seconds) == ClockText(m, n);
  }

  /** `Math.max(0, currentTime - step)`: a backward seek target. */
  function StepBack(currentTime: real, step: real): (t: real)
    requires step >= 0.0
    ensures t >= 0.0
    ensures currentTime >= step ==> t == currentTime - step
    ensures currentTime < step ==> t == 0.0
    ensures currentTime >= 0.0 ==> t <= currentTime
  {
    if currentTime - step > 0.0 then currentTime - step else 0.0
  }

  /** `Math.min(duration, currentTime + step)`: a forward seek target. */
  function StepForward(currentTime: real, step: real, duration: real): (t: real)
    requires step >= 0.0
    ensures t <= duration
    ensures currentTime + step <= duration ==> t == currentTime + step
    ensures currentTime + step > duration ==> t == duration
    ensures currentTime <= duration ==> t >= currentTime
  {
    if currentTime + step < duration then currentTime + step else duration
  }

  /** `handleFrameBack`. */
  function FrameBack(currentTime: real): (t: real)
    ensures t >= 0.0
    ensures currentTime >= FrameStep ==> t == currentTime - FrameStep
    ensures currentTime < FrameStep ==> t == 0.0
  {
    StepBack(currentTime, FrameStep)
  }

  /** `handleFrameForward`. */
  function FrameForward(currentTime: real, duration: real): (t: real)
    ensures t <= duration
    ensures currentTime + FrameStep <= duration ==> t == currentTime + FrameStep
    ensures currentTime + FrameStep > duration ==> t == duration
  {
    StepForward(currentTime, FrameStep, duration)
  }

  /** `handleSkipBack`. */
  function SkipBack(currentTime: real): (t: real)
    ensures t >= 0.0
    ensures currentTime >= SkipStep ==> t == currentTime - SkipStep
    ensures currentTime < SkipStep ==> t == 0.0
  {
    StepBack(currentTime, SkipStep)
  }

  /** `handleSkipForward`. */
  function SkipForward(currentTime: real, duration: real): (t: real)
    ensures t <= duration
    ensures currentTime + SkipStep <= duration ==> t == currentTime + SkipStep
    ensures currentTime + SkipStep > duration ==> t == duration
  {
    StepForward(currentTime, SkipStep, duration)
  }

  /** From a position inside the video, every seek button targets a
      position inside the video. */
  lemma SeeksStayInside(currentTime: real, duration: real)
    requires 0.0 <= currentTime <= duration
    ensures 0.0 <= FrameBack(currentTime) <= duration
    ensures 0.0 <= FrameForward(currentTime, duration) <= duration
    ensures 0.0 <= SkipBack(currentTime) <= duration
    ensures 0.0 <= SkipForward(currentTime, duration) <= duration
  {
  }

  /** Away from both ends, skipping back and then forward (or forward and
      then back) returns to the same position, and so do the frame steps. */
  lemma SeekRoundTrip(currentTime: real, duration: real)
    ensures SkipStep <= currentTime <= duration ==> SkipForward(SkipBack(currentTime), duration) == currentTime
    ensures 0.0 <= currentTime <= duration - SkipStep ==> SkipBack(SkipForward(currentTime, duration)) == currentTime
    ensures FrameStep <= currentTime <= duration ==> FrameForward(FrameBack(currentTime), duration) == currentTime
    ensures 0.0 <= currentTime <= duration - FrameStep ==> FrameBack(FrameForward(currentTime, duration)) == currentTime
  {
  }
}
