/** Session bookkeeping (src/contexts/SessionContext.tsx): the session's start
    time and active flag, a rolling history of accuracy samples, a newest-first
    queue of feedback messages with increasing ids, and the two values the
    AI-coaching throttle reads. The wall clock is the `now` parameter. */
module Session {
  import opened Common
  import Text

  /** Samples kept in the accuracy history: two minutes at one per 10 s. */
  const MaxAccuracyPoints: nat := 12
  /** Messages kept in the feedback queue. */
  const MaxFeedbackMessages: nat := 5

  /** `formatTime`: elapsed milliseconds as minutes and seconds, each written
      with at least two digits. Division by a positive divisor floors, as
      `Math.floor(x / d)` does. */
  function FormatElapsed(elapsedMs: int): (s: string)
    ensures |s| >= 5
  {
    var totalSeconds := elapsedMs / 1000;
    var minutes := totalSeconds / 60;
    var seconds := TruncRem(totalSeconds, 60);
    Text.PadStart(Text.IntToString(minutes), 2, '0') + ":" + Text.PadStart(Text.IntToString(seconds), 2, '0')
  }

  /** `s` is minutes, a colon and a two-digit seconds field below 60, and
      together they make `totalSeconds`. */
  predicate ReadsAsMinutesSeconds(s: string, totalSeconds: int) {
    var k := |s| - 3;
    && k >= 2
    && s[k] == ':'
    && Text.AllDigits(s[..k])
    && Text.AllDigits(s[k + 1..])
    && Text.ParseDecimal(s[k + 1..]) < 60
    && Text.ParseDecimal(s[..k]) * 60 + Text.ParseDecimal(s[k + 1..]) == totalSeconds
  }

  /** The two fields of `formatTime`, written zero-padded around a colon. */
  function PaddedPair(m: nat, n: nat): string {
    Text.PadStart(Text.NatToString(m), 2, '0') + ":" + Text.PadStart(Text.NatToString(n), 2, '0')
  }

  /** Minutes and a seconds value below 60, written as a padded pair, read back. */
  lemma PaddedPairReadsBack(m: nat, n: nat)
    requires n < 60
    ensures ReadsAsMinutesSeconds(PaddedPair(m, n), m * 60 + n)
  {
    var mm := Text.PadStart(Text.NatToString(m), 2, '0');
    var nn := Text.PadStart(Text.NatToString(n), 2, '0');
    Text.SmallNatToString(n);
    Text.PadStartZeros(Text.NatToString(m), 2);
    Text.PadStartZeros(Text.NatToString(n), 2);
    Text.ParseNatToString(m);
    Text.ParseNatToString(n);
    var s := PaddedPair(m, n);
    assert s == mm + ":" + nn;
    assert |nn| == 2 && |mm| >= 2;
    var k := |s| - 3;
    assert k == |mm|;
    assert s[..k] == mm && s[k] == ':' && s[k + 1..] == nn;
    assert Text.ParseDecimal(mm) == m && Text.ParseDecimal(nn) == n;
  }

  /** For a non-negative duration, the fields are whole minutes and the
      seconds left over. */
  lemma FormatElapsedFields(elapsedMs: int)
    requires elapsedMs >= 0
    ensures FormatElapsed(elapsedMs) == PaddedPair(elapsedMs / 1000 / 60, elapsedMs / 1000 % 60)
  {
    var totalSeconds := elapsedMs / 1000;
    assert TruncRem(totalSeconds, 60) == totalSeconds % 60;
  }

  /** For a non-negative duration the text reads back as minutes, a colon and
      a two-digit seconds field below 60, with minutes * 60 + seconds equal to
      the whole seconds elapsed. */
  lemma FormatElapsedReadsBack(elapsedMs: int)
    requires elapsedMs >= 0
    ensures ReadsAsMinutesSeconds(FormatElapsed(elapsedMs), elapsedMs / 1000)
  {
    var totalSeconds := elapsedMs / 1000;
    FormatElapsedFields(elapsedMs);
    PaddedPairReadsBack(totalSeconds / 60, totalSeconds % 60);
  }

  /** One recorded accuracy sample. */
  datatype AccuracyPoint = AccuracyPoint(timestamp: int, accuracy: int, time: string)

  datatype FeedbackType = Success | Warning | Error | Info

  /** One feedback message. The source's id `feedback-N` is modelled as N;
      the message payload `M` is whatever the caller shows. */
  datatype Feedback<M> = Feedback(id: nat, message: M, kind: FeedbackType, timestamp: int)

  /** The history after recording `p`: appended last, then only the last 12 kept. */
  function AppendSample(history: seq<AccuracyPoint>, p: AccuracyPoint): (r: seq<AccuracyPoint>)
    ensures 1 <= |r| <= MaxAccuracyPoints && r[|r| - 1] == p
    ensures |history| < MaxAccuracyPoints ==> r == history + [p]
  {
    KeepLast(history + [p], MaxAccuracyPoints)
  }

  /** The history after `addAccuracyPoint(accuracy)` at time `now`: unchanged
      without a (truthy) start time, otherwise with the sample recorded,
      stamped with the time elapsed since the start. */
  function RecordSample(history: seq<AccuracyPoint>, start: Option<int>, accuracy: int, now: int): (r: seq<AccuracyPoint>)
    ensures !Truthy(start) ==> r == history
    ensures Truthy(start) ==>
      && 1 <= |r| <= MaxAccuracyPoints
      && r[|r| - 1].timestamp == now && r[|r| - 1].accuracy == accuracy
  {
    if !Truthy(start) then history
    else AppendSample(history, AccuracyPoint(now, accuracy, FormatElapsed(now - start.value)))
  }

  /** Recording keeps the history within its bound. */
  lemma RecordSampleBounded(history: seq<AccuracyPoint>, start: Option<int>, accuracy: int, now: int)
    requires |history| <= MaxAccuracyPoints
    ensures |RecordSample(history, start, accuracy, now)| <= MaxAccuracyPoints
  {
    if Truthy(start) {
      AppendSampleSpec(history, AccuracyPoint(now, accuracy, FormatElapsed(now - start.value)));
    }
  }

  /** `s.slice(0, n)`. */
  function Take<T>(s: seq<T>, n: nat): (r: seq<T>)
    ensures |r| <= n && |r| <= |s|
  {
    if |s| <= n then s else s[..n]
  }

  /** The queue after receiving `f`: put first, then only the first 5 kept. */
  function PushFeedback<M>(queue: seq<Feedback<M>>, f: Feedback<M>): (r: seq<Feedback<M>>)
    ensures 1 <= |r| <= MaxFeedbackMessages && r[0] == f
    ensures |queue| < MaxFeedbackMessages ==> r == [f] + queue
  {
    Take([f] + queue, MaxFeedbackMessages)
  }

  /** Recording keeps the history bounded, puts the sample last and keeps the
      older samples in their order, dropping only the oldest. */
  lemma AppendSampleSpec(history: seq<AccuracyPoint>, p: AccuracyPoint)
    requires |history| <= MaxAccuracyPoints
    ensures var r := AppendSample(history, p);
      && |r| == (if |history| < MaxAccuracyPoints then |history| + 1 else MaxAccuracyPoints)
      && r[|r| - 1] == p
      && r[..|r| - 1] == history[|history| - (|r| - 1)..]
  {
    KeepLastIsSuffix(history + [p], MaxAccuracyPoints);
    var r := AppendSample(history, p);
    assert r == (history + [p])[|history| + 1 - |r|..];
    assert r[..|r| - 1] == history[|history| - (|r| - 1)..];
  }

  /** Receiving keeps the queue bounded, puts the message first and keeps the
      newer messages in their order, dropping only the oldest. */
  lemma PushFeedbackSpec<M>(queue: seq<Feedback<M>>, f: Feedback<M>)
    requires |queue| <= MaxFeedbackMessages
    ensures var r := PushFeedback(queue, f);
      && |r| == (if |queue| < MaxFeedbackMessages then |queue| + 1 else MaxFeedbackMessages)
      && r[0] == f
      && r[1..] == queue[..|r| - 1]
  {
  }

  /** Recording a series of samples one by one. */
  function AppendAll(history: seq<AccuracyPoint>, ps: seq<AccuracyPoint>): seq<AccuracyPoint>
    decreases |ps|
  {
    if ps == [] then history else AppendAll(AppendSample(history, ps[0]), ps[1..])
  }

  /** Recording samples one by one leaves the last 12 of everything recorded,
      oldest first. */
  lemma {:induction false} AppendAllKeepsLast(history: seq<AccuracyPoint>, ps: seq<AccuracyPoint>)
    requires |history| <= MaxAccuracyPoints
    ensures AppendAll(history, ps) == KeepLast(history + ps, MaxAccuracyPoints)
    decreases |ps|
  {
    if ps != [] {
      var h' := AppendSample(history, ps[0]);
      KeepLastIsSuffix(history + [ps[0]], MaxAccuracyPoints);
      AppendAllKeepsLast(h', ps[1..]);
      KeepLastAbsorbs(history + [ps[0]], ps[1..], MaxAccuracyPoints);
      assert history + [ps[0]] + ps[1..] == history + ps;
    }
  }

  /** Thirteen samples into an empty history leave the last twelve, in order. */
  lemma ThirteenSamplesKeepTwelve(ps: seq<AccuracyPoint>)
    requires |ps| == 13
    ensures AppendAll([], ps) == ps[1..]
  {
    AppendAllKeepsLast([], ps);
    assert [] + ps == ps;
  }

  function Reverse<T>(s: seq<T>): (r: seq<T>)
    ensures |r| == |s|
  {
    if s == [] then [] else Reverse(s[1..]) + [s[0]]
  }

  /** Receiving a series of messages one by one. */
  function PushAll<M>(queue: seq<Feedback<M>>, fs: seq<Feedback<M>>): seq<Feedback<M>>
    decreases |fs|
  {
    if fs == [] then queue else PushAll(PushFeedback(queue, fs[0]), fs[1..])
  }

  /** Taking the first `n` early does not change what a later take keeps. */
  lemma TakeAbsorbs<T>(a: seq<T>, b: seq<T>, n: nat)
    ensures Take(a + Take(b, n), n) == Take(a + b, n)
  {
    if |b| > n {
      if |a| >= n {
        assert (a + Take(b, n))[..n] == a[..n] == (a + b)[..n];
      } else {
        assert (a + Take(b, n))[..n] == a + b[..n - |a|] == (a + b)[..n];
      }
    }
  }

  /** Receiving messages one by one leaves the 5 newest of everything
      received, newest first. */
  lemma {:induction false} PushAllKeepsNewest<M>(queue: seq<Feedback<M>>, fs: seq<Feedback<M>>)
    requires |queue| <= MaxFeedbackMessages
    ensures PushAll(queue, fs) == Take(Reverse(fs) + queue, MaxFeedbackMessages)
    decreases |fs|
  {
    if fs != [] {
      var q' := PushFeedback(queue, fs[0]);
      PushAllKeepsNewest(q', fs[1..]);
      TakeAbsorbs(Reverse(fs[1..]), [fs[0]] + queue, MaxFeedbackMessages);
      assert Reverse(fs[1..]) + ([fs[0]] + queue) == Reverse(fs) + queue;
    }
  }

  /** Six messages into an empty queue leave the last five, newest first: the
      first one is gone. */
  lemma SixMessagesKeepFive<M>(fs: seq<Feedback<M>>)
    requires |fs| == 6
    ensures PushAll([], fs) == [fs[5], fs[4], fs[3], fs[2], fs[1]]
  {
    PushAllKeepsNewest([], fs);
    var r := Reverse(fs);
    forall i | 0 <= i < 6 ensures r[i] == fs[5 - i] {
      ReverseAt(fs, i);
    }
    assert Take(r + [], MaxFeedbackMessages) == r[..5];
  }

  /** Element `i` of the reversal is element `|s| - 1 - i` of the original. */
  lemma {:induction false} ReverseAt<T>(s: seq<T>, i: nat)
    requires i < |s|
    ensures Reverse(s)[i] == s[|s| - 1 - i]
  {
    if i < |s| - 1 {
      ReverseAt(s[1..], i);
    }
  }

  /** Ids in a newest-first queue strictly decrease, are at least 1 and never
      exceed the counter's value. */
  ghost predicate IdsDescending<M>(queue: seq<Feedback<M>>, counter: nat) {
    && (forall i, j :: 0 <= i < j < |queue| ==> queue[j].id < queue[i].id)
    && (forall i :: 0 <= i < |queue| ==> 1 <= queue[i].id <= counter)
  }

  /** The session context's state and operations. */
  class SessionTracker<M> {
    var sessionStartTime: Option<int>
    var isSessionActive: bool
    var accuracyHistory: seq<AccuracyPoint>
    var feedbackMessages: seq<Feedback<M>>
    var isAICoachingLoading: bool
    var lastAICoachingTime: Option<int>
    /** `feedbackIdRef.current`: the id of the latest message, 0 before any. */
    var feedbackIdCounter: nat

    ghost predicate Valid()
      reads this
    {
      && |accuracyHistory| <= MaxAccuracyPoints
      && |feedbackMessages| <= MaxFeedbackMessages
      && IdsDescending(feedbackMessages, feedbackIdCounter)
    }

    constructor ()
      ensures Valid()
      ensures sessionStartTime == None && !isSessionActive
      ensures accuracyHistory == [] && feedbackMessages == []
      ensures !isAICoachingLoading && lastAICoachingTime == None
      ensures feedbackIdCounter == 0
    {
      sessionStartTime := None;
      isSessionActive := false;
      accuracyHistory := [];
      feedbackMessages := [];
      isAICoachingLoading := false;
      lastAICoachingTime := None;
      feedbackIdCounter := 0;
    }

    /** `startSession`: a fresh session from `now`; the loading flag and the
        id counter are left alone. */
    method StartSession(now: int)
      requires Valid()
      modifies this`sessionStartTime, this`isSessionActive, this`accuracyHistory,
               this`feedbackMessages, this`lastAICoachingTime
      ensures Valid()
      ensures sessionStartTime == Some(now) && isSessionActive
      ensures accuracyHistory == [] && feedbackMessages == []
      ensures lastAICoachingTime == None
    {
      sessionStartTime := Some(now);
      isSessionActive := true;
      accuracyHistory := [];
      feedbackMessages := [];
      lastAICoachingTime := None;
    }

    /** `endSession`: only the active flag is cleared. */
    method EndSession()
      modifies this`isSessionActive
      ensures !isSessionActive
    {
      isSessionActive := false;
    }

    /** `addAccuracyPoint`: without a (truthy) start time nothing happens;
        otherwise the sample, stamped with the elapsed time, is recorded. */
    method AddAccuracyPoint(accuracy: int, now: int)
      requires Valid()
      modifies this`accuracyHistory
      ensures Valid()
      ensures accuracyHistory == RecordSample(old(accuracyHistory), sessionStartTime, accuracy, now)
    {
      RecordSampleBounded(accuracyHistory, sessionStartTime, accuracy, now);
      accuracyHistory := RecordSample(accuracyHistory, sessionStartTime, accuracy, now);
    }

    /** `addFeedback`: the counter moves on by one and the message, carrying
        the new counter value as its id, goes to the front of the queue. */
    method AddFeedback(message: M, kind: FeedbackType, now: int)
      requires Valid()
      modifies this`feedbackIdCounter, this`feedbackMessages
      ensures Valid()
      ensures feedbackIdCounter == old(feedbackIdCounter) + 1
      ensures feedbackMessages == PushFeedback(old(feedbackMessages), Feedback(feedbackIdCounter, message, kind, now))
    {
      feedbackIdCounter := feedbackIdCounter + 1;
      var f := Feedback(feedbackIdCounter, message, kind, now);
      PushFeedbackSpec(feedbackMessages, f);
      feedbackMessages := PushFeedback(feedbackMessages, f);
      assert IdsDescending(feedbackMessages, feedbackIdCounter) by {
        var q := feedbackMessages;
        forall i, j | 0 <= i < j < |q| ensures q[j].id < q[i].id {
          if i > 0 {
            assert q[i] == old(feedbackMessages)[i - 1] && q[j] == old(feedbackMessages)[j - 1];
          } else {
            assert q[j] == old(feedbackMessages)[j - 1];
          }
        }
        forall i | 0 <= i < |q| ensures 1 <= q[i].id <= feedbackIdCounter {
          if i > 0 {
            assert q[i] == old(feedbackMessages)[i - 1];
          }
        }
      }
    }

    /** `clearFeedback`: only the queue is emptied. */
    method ClearFeedback()
      requires Valid()
      modifies this`feedbackMessages
      ensures Valid()
      ensures feedbackMessages == []
    {
      feedbackMessages := [];
    }

    /** `setAICoachingLoading`. */
    method SetAICoachingLoading(loading: bool)
      modifies this`isAICoachingLoading
      ensures isAICoachingLoading == loading
    {
      isAICoachingLoading := loading;
    }

    /** `setLastAICoachingTime`. */
    method SetLastAICoachingTime(time: int)
      modifies this`lastAICoachingTime
      ensures lastAICoachingTime == Some(time)
    {
      lastAICoachingTime := Some(time);
    }
  }
}
