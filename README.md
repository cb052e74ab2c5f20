# Kendo coaching: a verified model of the pose-analysis and coaching core

The application watches a kendo practitioner through a webcam or a video.
The pose model reports 33 body landmarks per frame, and the core does the following with them:

- **Pose analysis.** It turns the landmarks into six joint angles (both elbows, shoulders and knees). Each angle is compared with a kendo target angle, classified as perfect, good, fair or poor, and summarised as one accuracy score from 0 to 100.
- **Session.** A session keeps the last 12 accuracy samples and the last 5 feedback messages.
- **Analysis panel.** The panel's effects start a session when a pose appears. They record a sample at most every 10 seconds and post rule-based advice when the joint statuses change. After 10 seconds of accuracy below 50 they start an AI coaching request automatically, at most one every 30 seconds. The throttle applies only to this automatic trigger. The manual coaching button bypasses it, and starting a session clears the last coaching time.
- **Drawing overlay.** It keeps an undo/redo history of at most 20 canvas snapshots.
- **Video controls.** They show an `m:ss` clock and seek by one frame or five seconds, always inside the video.
- **Technique sidebar.** It opens and closes technique categories.

The Dafny modules follow the source files:

| module | file | source |
|---|---|---|
| `Common` | Common.dfy | JavaScript helpers: `Math.round`, `Math.abs`, nullable-timestamp truthiness, the "keep the last n" slice |
| `Text` | Text.dfy | `toString` and `padStart` on integers, with a decimal reader |
| `PoseUtils` | PoseUtils.dfy | src/lib/poseUtils.ts |
| `PoseAnalysis` | PoseAnalysis.dfy | src/hooks/usePoseAnalysis.ts |
| `Session` | Session.dfy | src/contexts/SessionContext.tsx (class `SessionTracker`) |
| `Panel` | AnalysisPanel.dfy | src/components/layout/AnalysisPanel.tsx (class `AnalysisPanel`) |
| `Drawing` | DrawingCanvas.dfy | src/components/video/DrawingCanvas.tsx (class `DrawingCanvas`) |
| `Playback` | VideoControls.dfy | src/components/video/VideoControls.tsx |
| `Sidebar` | TechniqueSidebar.dfy | src/components/layout/TechniqueSidebar.tsx |

**How the source's forms map to Dafny:**

- **Pure helpers.** These are functions with contracts, and the lemmas about them.
- **State and effects.** The React state and refs that the session provider and the analysis panel update become the fields of the classes `SessionTracker` and `AnalysisPanel`. Every effect or callback becomes a method with a `modifies` frame.
- **Specification functions.** The history, feedback-queue, snapshot and timer updates are proved equal to specification functions: `RecordSample`, `PushFeedback`, `Saved`, `Undone`, `Redone` and `NextLowTimer`. Those functions carry the properties: bounds, round trips, order and spacing over a whole run of frames.
- **Direct updates.** The other methods state their new field values directly in their postconditions.

**What becomes a parameter:**

- The wall clock (`Date.now()`) is a `now` argument.
- `Math.atan2`, converted to degrees, is a caller-supplied `bearing` function.
- Canvas snapshots (`ImageData`) are an opaque type parameter `T`.

## Model

| member | source | states |
|---|---|---|
| Common.Round | src/hooks/usePoseAnalysis.ts:76 | `Math.round` lands within half a unit of its argument |
| Common.Clamp | src/hooks/usePoseAnalysis.ts:93 | `Math.max(lo, Math.min(hi, x))` lies in `[lo, hi]`, is `x` inside and the nearer bound outside |
| Common.Trunc | src/components/video/VideoControls.tsx:33 | truncation toward zero: the floor for non-negative values and minus the floor of the negation otherwise |
| Common.TruncRem | src/contexts/SessionContext.tsx:46 | JavaScript `%` on integers: the mathematical remainder for a non-negative dividend, and a value in (-b, 0] for a negative one |
| Common.FloorOfQuotient | src/contexts/SessionContext.tsx:45 | flooring the real quotient of two naturals is integer division |
| Common.TruncRemIsJsRem | src/contexts/SessionContext.tsx:46 | the integer remainder agrees with JavaScript `%` on numbers, for every dividend and positive divisor |
| Common.KeepLastIsSuffix | src/contexts/SessionContext.tsx:81-83 | `slice(-n)` keeps a suffix whose length is n or the whole length, whichever is smaller |
| Common.KeepLastAbsorbs | src/contexts/SessionContext.tsx:78-85 | trimming to the last n and then appending, then trimming again, is the same as appending then trimming once |
| Text.NatToString | src/contexts/SessionContext.tsx:47 | `toString` of a non-negative integer is a non-empty string of decimal digits |
| Text.PadStart | src/contexts/SessionContext.tsx:47 | `padStart` gives at least `width` characters and never shortens: fill characters followed by the string unchanged |
| Text.ParseNatToString | src/contexts/SessionContext.tsx:47 | reading back the decimal text of a number gives the number |
| Text.NatToStringInjective | src/contexts/SessionContext.tsx:47 | different numbers are written differently |
| Text.IntToString | src/contexts/SessionContext.tsx:47 | `toString` of an integer: the decimal digits, after a minus sign for a negative one |
| Text.PadStartZeros | src/components/video/VideoControls.tsx:34 | zero-padding a digit string does not change its value |
| PoseUtils.KeypointNameTable | src/lib/poseUtils.ts:21-55 | the table has 33 non-empty names, so indices 0..32 get the table name and the rest `landmark_i` |
| PoseUtils.ConvertLandmarks | src/lib/poseUtils.ts:60-70 | one keypoint per landmark in order: index `i`, its name, x mirrored as `1 - x`, y kept, score `visibility ?? presence`; empty input gives empty output |
| PoseUtils.ConvertMirrorRoundTrip | src/lib/poseUtils.ts:65-66 | mirroring the keypoint back recovers the landmark's x; y is untouched |
| PoseUtils.InteriorAngle | src/lib/poseUtils.ts:82-86 | the absolute difference, folded at 180, is within 0..180 for differences of at most 360 |
| PoseUtils.InteriorAngleSymmetric | src/lib/poseUtils.ts:80-86 | the folded angle does not depend on the sign of the difference |
| PoseUtils.CalculateAngle | src/lib/poseUtils.ts:75-87 | the angle at B is the absolute difference of the two bearings, or 360 minus it when that exceeds 180 |
| PoseUtils.CalculateAngleRange | src/lib/poseUtils.ts:75-87 | with bearings in [-180, 180] the joint angle lies in 0..180 |
| PoseUtils.CalculateAngleSymmetric | src/lib/poseUtils.ts:75-87 | swapping the two outer points leaves the angle at the vertex unchanged |
| PoseUtils.NormalizePose | src/lib/poseUtils.ts:94-123 | fewer than 33 landmarks give `[]`. A hip with visibility below 0.5 returns the input. Otherwise every landmark is shifted by the hip mid-point: visibility kept, presence dropped, the two hips symmetric about the origin |
| PoseUtils.NormalizeKeepsShape | src/lib/poseUtils.ts:117-122 | normalisation keeps every displacement between two landmarks |
| PoseUtils.NormalizeIdempotent | src/lib/poseUtils.ts:94-123 | normalising a normalised pose changes nothing |
| PoseAnalysis.GetStatus | src/hooks/usePoseAnalysis.ts:29-34 | perfect iff deviation ≤ 5, good iff in (5, 10], fair iff in (10, 20], poor iff above 20 |
| PoseAnalysis.GetStatusMonotone | src/hooks/usePoseAnalysis.ts:29-34 | a larger deviation never gets a better status |
| PoseAnalysis.Confidence | src/hooks/usePoseAnalysis.ts:56-58 | `visibility ?? presence ?? 0`: the visibility when reported, else the presence, else 0 |
| PoseAnalysis.IsVisibleCases | src/hooks/usePoseAnalysis.ts:56-58 | a landmark is visible iff its visibility exceeds 0.5 when reported, else iff its presence does; with neither it is never visible |
| PoseAnalysis.JointConfigsWellFormed | src/hooks/usePoseAnalysis.ts:19-44 | every joint's three landmark indices are below 33, its key has a target angle, and its vertex landmark carries the joint's key name |
| PoseAnalysis.Measure | src/hooks/usePoseAnalysis.ts:70-80 | one joint: its name, the target angle of its key, a non-negative deviation equal to the distance between raw angle and target, the status of that deviation, and the rounded angle within 0.5 of the raw one |
| PoseAnalysis.SelectedSpec | src/hooks/usePoseAnalysis.ts:60-68 | the joints kept are exactly those whose three landmarks are visible, in configuration order, without repeats |
| PoseAnalysis.JointsCount | src/hooks/usePoseAnalysis.ts:60-81 | the `flatMap` yields one joint per selected configuration |
| PoseAnalysis.SelectedAt | src/hooks/usePoseAnalysis.ts:66-68 | each selected position is in range and its landmarks are visible |
| PoseAnalysis.JointAt | src/hooks/usePoseAnalysis.ts:60-81 | the i-th joint produced is the measurement of the i-th selected configuration |
| PoseAnalysis.JointAtKept | src/hooks/usePoseAnalysis.ts:60-81 | when the first configuration is measurable, the i-th joint is the measurement of the i-th selected configuration |
| PoseAnalysis.JointAtSkipped | src/hooks/usePoseAnalysis.ts:60-81 | when the first configuration is skipped, the i-th joint is still the measurement of the i-th selected configuration |
| PoseAnalysis.JointsAreSelection | src/hooks/usePoseAnalysis.ts:60-81 | the joints list is the measurements of the selected configurations, position by position |
| PoseAnalysis.JointsDeviationNonNegative | src/hooks/usePoseAnalysis.ts:72 | every produced joint has a non-negative deviation |
| PoseAnalysis.SumOfZeroDeviations | src/hooks/usePoseAnalysis.ts:92 | the reduce over zero deviations is 0 |
| PoseAnalysis.SumOfDeviationsNonNegative | src/hooks/usePoseAnalysis.ts:92 | the reduce over non-negative deviations is non-negative |
| PoseAnalysis.OverallAccuracy | src/hooks/usePoseAnalysis.ts:93 | the score is within 0..100. It is 100 iff the mean deviation is at most 0.25, and 0 iff it exceeds 49.75 |
| PoseAnalysis.OverallAccuracyMonotone | src/hooks/usePoseAnalysis.ts:93 | a larger mean deviation never scores higher |
| PoseAnalysis.Analyze | src/hooks/usePoseAnalysis.ts:46-101 | no landmarks or fewer than 33 give the invalid result. The pose is valid iff some joint was measured. The accuracy is in 0..100, and for a valid pose it is the score of the mean deviation |
| PoseAnalysis.AnalyzeJoints | src/hooks/usePoseAnalysis.ts:60-81 | the analysis's joints are the measurements of the visible configurations, in order |
| PoseAnalysis.PerfectPoseScoresFull | src/hooks/usePoseAnalysis.ts:92-93 | a valid pose whose every joint is on target scores 100 |
| PoseAnalysis.MeanDeviationNonNegative | src/hooks/usePoseAnalysis.ts:92 | the mean deviation of a valid analysis is non-negative |
| Session.FormatElapsed | src/contexts/SessionContext.tsx:43-48 | the elapsed-time text is at least `mm:ss` long |
| Session.PaddedPairReadsBack | src/contexts/SessionContext.tsx:47 | two fields padded to two digits read back as minutes and seconds |
| Session.FormatElapsedFields | src/contexts/SessionContext.tsx:43-48 | the elapsed-time text is the minutes and the leftover seconds of the whole seconds elapsed |
| Session.FormatElapsedReadsBack | src/contexts/SessionContext.tsx:43-48 | `mm:ss` reads back as the whole seconds elapsed, with seconds below 60 |
| Session.AppendSample | src/contexts/SessionContext.tsx:78-85 | the history keeps 1 to 12 points with the new point last, and below 12 points the point is simply appended |
| Session.RecordSample | src/contexts/SessionContext.tsx:71-86 | without a start time the history is unchanged. Otherwise it keeps 1 to 12 points, the last one carrying the accuracy and the time of the call |
| Session.PushFeedback | src/contexts/SessionContext.tsx:97-101 | the queue keeps 1 to 5 messages with the new one first, and below 5 messages it is simply put in front |
| Session.RecordSampleBounded | src/contexts/SessionContext.tsx:71-86 | recording a sample keeps the history at 12 points or fewer |
| Session.AppendSampleSpec | src/contexts/SessionContext.tsx:78-85 | appending keeps at most 12 points. The new point is last, and the older points are the previous history, minus its oldest when it was full |
| Session.PushFeedbackSpec | src/contexts/SessionContext.tsx:97-101 | pushing keeps at most 5 messages. The new one is first, and the rest are the previous ones in order, minus the oldest when there were 5 |
| Session.AppendAllKeepsLast | src/contexts/SessionContext.tsx:78-85 | any run of samples leaves exactly the last 12 of all samples |
| Session.ThirteenSamplesKeepTwelve | src/contexts/SessionContext.tsx:81-83 | after 13 samples the first one has been dropped |
| Session.TakeAbsorbs | src/contexts/SessionContext.tsx:99-100 | trimming to the first n inside and outside is the same as trimming once |
| Session.PushAllKeepsNewest | src/contexts/SessionContext.tsx:97-101 | any run of messages leaves the 5 newest, newest first |
| Session.SixMessagesKeepFive | src/contexts/SessionContext.tsx:97-101 | after 6 messages the first is gone and the rest are in reverse order of posting |
| Session.ReverseAt | src/contexts/SessionContext.tsx:99 | the i-th of the reversed list is the i-th from the end |
| Session.SessionTracker.constructor | src/contexts/SessionContext.tsx:51-57 | no start time, inactive, empty history and feedback, not loading, no last coaching time, id counter 0 |
| Session.SessionTracker.StartSession | src/contexts/SessionContext.tsx:59-65 | stamps the start, activates, empties history and feedback, and clears the last coaching time. Keeps the invariant |
| Session.SessionTracker.EndSession | src/contexts/SessionContext.tsx:67-69 | deactivates and changes nothing else |
| Session.SessionTracker.AddAccuracyPoint | src/contexts/SessionContext.tsx:71-86 | the history becomes `RecordSample` of the old one: unchanged without a start time, otherwise the point with its `mm:ss` elapsed time appended and trimmed to 12 |
| Session.SessionTracker.AddFeedback | src/contexts/SessionContext.tsx:88-102 | the id counter goes up by one and the message with that id is pushed. It keeps the invariant: ids strictly descending from newest to oldest and never above the counter |
| Session.SessionTracker.ClearFeedback | src/contexts/SessionContext.tsx:104-106 | the feedback list becomes empty |
| Session.SessionTracker.SetAICoachingLoading | src/contexts/SessionContext.tsx:55 | sets the loading flag |
| Session.SessionTracker.SetLastAICoachingTime | src/contexts/SessionContext.tsx:56 | records the last coaching time |
| Panel.CorrectionDirection | src/components/layout/AnalysisPanel.tsx:38 | "raise" iff the measured angle is below the target |
| Panel.RuleAdvice | src/components/layout/AnalysisPanel.tsx:37-52 | poor gives a correction (and only poor does) naming the joint, with the degrees equal to the rounded absolute deviation and the direction toward the target. Fair, good and perfect each give their own advice naming the joint |
| Panel.CorrectionReachesTarget | src/components/layout/AnalysisPanel.tsx:37-42 | for a poor measured joint, "raise" iff the raw angle is below target, and moving the raw angle by the deviation in that direction reaches the target |
| Panel.FirstPoor | src/components/layout/AnalysisPanel.tsx:94 | `find` of the first poor joint: none iff no joint is poor, otherwise the first poor position |
| Panel.RuleFeedback | src/components/layout/AnalysisPanel.tsx:90-100 | nothing for an invalid pose. If a joint is poor, an error advising the first poor joint. Otherwise a "steady" success iff accuracy ≥ 85 |
| Panel.StatusKey | src/components/layout/AnalysisPanel.tsx:100 | the effect key lists each joint's status in order |
| Panel.SameKeySameFirstPoor | src/components/layout/AnalysisPanel.tsx:94-100 | analyses with the same key agree on the first poor joint |
| Panel.StatusLabel | src/components/layout/AnalysisPanel.tsx:26-34 | every status has a non-empty label |
| Panel.StatusLabelInjective | src/components/layout/AnalysisPanel.tsx:26-34 | the four statuses get four different labels |
| Panel.OverallLabel | src/components/layout/AnalysisPanel.tsx:191-194 | no label while no pose is detected. Otherwise perfect iff ≥ 90, good iff in [70, 90), fair iff in [50, 70), poor below 50 |
| Panel.OverallLabelMonotone | src/components/layout/AnalysisPanel.tsx:191-194 | a higher accuracy never gets a worse label |
| Panel.CoachingAllowed | src/components/layout/AnalysisPanel.tsx:115 | the throttle lets a call through when there is no last coaching time, otherwise iff at least 30 s have passed since it |
| Panel.RecordedAtValidFrames | src/components/layout/AnalysisPanel.tsx:79-87 | over any run of frames, samples are taken only at frames with a valid pose and an active session, in increasing order |
| Panel.LastRecordedIsLatest | src/components/layout/AnalysisPanel.tsx:83-85 | the last-recorded ref holds the time of the latest sample, or 0 before any |
| Panel.RecordingsSpaced | src/components/layout/AnalysisPanel.tsx:79-87 | any two consecutive samples are at least 10 s apart, and the first is at least 10 s after time 0 |
| Panel.NextLowTimer | src/components/layout/AnalysisPanel.tsx:103-123 | the low-accuracy timer is cleared for an invalid pose, for accuracy ≥ 50 and once it has run 10 s. It starts at the first low frame and otherwise keeps running |
| Panel.TimerMarksLowStreak | src/components/layout/AnalysisPanel.tsx:103-123 | a running timer started at a frame from which every frame so far has had a valid pose with accuracy below 50 |
| Panel.CoachingOnlyAfterLastingLowAccuracy | src/components/layout/AnalysisPanel.tsx:103-123 | automatic coaching becomes due only at a frame at least 10 s after the start of an unbroken run of valid low-accuracy frames that reaches that frame |
| Panel.AnalysisPanel.constructor | src/components/layout/AnalysisPanel.tsx:68-69 | the refs start at 0 and null |
| Panel.AnalysisPanel.AutoStartSession | src/components/layout/AnalysisPanel.tsx:72-76 | a valid pose with no active session starts one; otherwise the session is unchanged |
| Panel.AnalysisPanel.RecordAccuracy | src/components/layout/AnalysisPanel.tsx:79-87 | when a sample is due the sample is recorded and the ref moves to now; otherwise neither changes |
| Panel.AnalysisPanel.PostRuleFeedback | src/components/layout/AnalysisPanel.tsx:90-100 | runs only when the status key differs from the last run's. It then posts `RuleFeedback` if there is any; otherwise the session is unchanged |
| Panel.AnalysisPanel.WatchLowAccuracy | src/components/layout/AnalysisPanel.tsx:103-123 | the timer becomes `NextLowTimer`. A request starts only when the timer fires and coaching is allowed and nothing is loading; otherwise the session is unchanged, and it is never touched when no request starts |
| Panel.AnalysisPanel.BeginAICoaching | src/components/layout/AnalysisPanel.tsx:126-130 | starts iff not loading and the pose is valid; then loading is set and the call time stamped |
| Panel.AnalysisPanel.FinishAICoaching | src/components/layout/AnalysisPanel.tsx:132-140 | posts the reply as info, or on failure an error notice, and ends loading |
| Drawing.Unset | src/components/video/DrawingCanvas.tsx:42-43 | no snapshots, cursor -1, nothing to undo or redo |
| Drawing.Initial | src/components/video/DrawingCanvas.tsx:62-65 | the blank canvas is the only and current snapshot |
| Drawing.Saved | src/components/video/DrawingCanvas.tsx:121-137 | keeps the snapshots up to the cursor and appends the new one, which becomes current. At 21 entries the oldest is dropped. At most 20 snapshots remain |
| Drawing.SavedKeepsLast | src/components/video/DrawingCanvas.tsx:126-134 | a save leaves the last 20 of the kept snapshots plus the new one |
| Drawing.SaveClearsRedo | src/components/video/DrawingCanvas.tsx:126-134 | after a save there is nothing to redo, and something to undo iff there was a snapshot before |
| Drawing.Undone | src/components/video/DrawingCanvas.tsx:105-111 | with a snapshot before the cursor it steps back and restores it; otherwise nothing happens; the list never changes |
| Drawing.Redone | src/components/video/DrawingCanvas.tsx:112-118 | with a snapshot after the cursor it steps forward and restores it; otherwise nothing happens; the list never changes |
| Drawing.UndoRedoRoundTrip | src/components/video/DrawingCanvas.tsx:105-118 | undo then redo returns to the same cursor and restores the snapshot that was current |
| Drawing.RedoUndoRoundTrip | src/components/video/DrawingCanvas.tsx:105-118 | redo then undo returns to the same cursor and restores the snapshot that was current |
| Drawing.SaveThenUndo | src/components/video/DrawingCanvas.tsx:121-137 | undoing a save restores the snapshot that was current before it, even when the save dropped the oldest |
| Drawing.DrawingCanvas.constructor | src/components/video/DrawingCanvas.tsx:42-43 | empty history, cursor -1, not drawing |
| Drawing.DrawingCanvas.Resize | src/components/video/DrawingCanvas.tsx:46-74 | for a positive size with a context the history restarts from the blank canvas; otherwise it is untouched |
| Drawing.DrawingCanvas.SaveState | src/components/video/DrawingCanvas.tsx:121-137 | the in-place slice, push and shift produce `Saved` of the old history, when there is a context and a positive size |
| Drawing.DrawingCanvas.Clear | src/components/video/DrawingCanvas.tsx:97-104 | with a context the wiped canvas is saved |
| Drawing.DrawingCanvas.Undo | src/components/video/DrawingCanvas.tsx:105-111 | the cursor and the restored snapshot are those of `Undone` |
| Drawing.DrawingCanvas.Redo | src/components/video/DrawingCanvas.tsx:112-118 | the cursor and the restored snapshot are those of `Redone` |
| Drawing.DrawingCanvas.StartDrawing | src/components/video/DrawingCanvas.tsx:167-176 | a stroke is in progress |
| Drawing.DrawingCanvas.PreviewBase | src/components/video/DrawingCanvas.tsx:191-195 | a shape preview starts from the current snapshot, if any, while drawing with a context |
| Drawing.DrawingCanvas.StopDrawing | src/components/video/DrawingCanvas.tsx:213-220 | ending a stroke saves the canvas; without a stroke nothing changes |
| Drawing.DrawingCanvas.Flags | src/components/video/DrawingCanvas.tsx:90-94 | the reported flags are "cursor above 0" and "cursor before the last entry" |
| Playback.FormatTime | src/components/video/VideoControls.tsx:31-35 | the clock text is at least `m:ss` long |
| Playback.ClockTextReadsBack | src/components/video/VideoControls.tsx:34 | unpadded minutes, a colon and two-digit seconds read back as the total |
| Playback.FormatTimeFields | src/components/video/VideoControls.tsx:31-35 | for a non-negative time the fields are the whole minutes and the leftover whole seconds, below 60 |
| Playback.FormatTimeReadsBack | src/components/video/VideoControls.tsx:31-35 | the `m:ss` text of a non-negative time reads back as its whole seconds |
| Playback.StepBack | src/components/video/VideoControls.tsx:52-62 | never below 0, exactly `t - step` when that is not negative, and never after `t` |
| Playback.StepForward | src/components/video/VideoControls.tsx:56-66 | never past the duration, exactly `t + step` when that fits, and never before `t` inside the video |
| Playback.FrameBack | src/components/video/VideoControls.tsx:52-54 | one frame (1/30 s) back: never below 0, exactly one frame earlier when there is room, else 0 |
| Playback.FrameForward | src/components/video/VideoControls.tsx:56-58 | one frame forward: never past the duration, exactly one frame later when it fits, else the duration |
| Playback.SkipBack | src/components/video/VideoControls.tsx:60-62 | five seconds back: never below 0, exactly 5 s earlier when there is room, else 0 |
| Playback.SkipForward | src/components/video/VideoControls.tsx:64-66 | five seconds forward: never past the duration, exactly 5 s later when it fits, else the duration |
| Playback.SeeksStayInside | src/components/video/VideoControls.tsx:52-66 | from inside the video all four seek buttons target a time inside the video |
| Playback.SeekRoundTrip | src/components/video/VideoControls.tsx:52-66 | away from both ends, back then forward (or forward then back) returns to the same time, for both skips and frame steps |
| Sidebar.Without | src/components/layout/TechniqueSidebar.tsx:74 | `filter` removes every copy of the id, keeps every other id's membership, shortens the list iff the id was there, and returns the list unchanged when the id is absent |
| Sidebar.WithoutConcat | src/components/layout/TechniqueSidebar.tsx:74 | filtering distributes over concatenation |
| Sidebar.WithoutStep | src/components/layout/TechniqueSidebar.tsx:74 | the filter decides on the first element of a concatenation and then filters the rest |
| Sidebar.Toggle | src/components/layout/TechniqueSidebar.tsx:71-77 | the id's membership flips and no other id changes. An absent id is appended at the end; a present one is removed and the list shrinks |
| Sidebar.ToggleRemovesOne | src/components/layout/TechniqueSidebar.tsx:73-74 | in a list without duplicates, closing a category removes exactly that one entry |
| Sidebar.WithoutSingle | src/components/layout/TechniqueSidebar.tsx:74 | filtering an id that occurs once removes exactly that position |
| Sidebar.RemoveAtKeepsNoDuplicates | src/components/layout/TechniqueSidebar.tsx:74 | removing one position keeps a list free of duplicates |
| Sidebar.ToggleKeepsNoDuplicates | src/components/layout/TechniqueSidebar.tsx:71-77 | toggling never creates a duplicate |
| Sidebar.ToggleTwiceRestores | src/components/layout/TechniqueSidebar.tsx:71-77 | opening then closing a closed category restores the list |
| Sidebar.InitialExpandedShape | src/components/layout/TechniqueSidebar.tsx:69 | "basic" and "strike" start open, with no duplicates |

## Left out

**Numbers and JavaScript semantics**
- **Floating point.** IEEE doubles (rounding error, NaN, Infinity) are modelled as exact reals. `toFixed(0)` in the poor-joint advice is modelled as `Math.round`. The two differ on negative halves, which cannot occur for the absolute deviation used there.
- **`Math.atan2` and `Math.PI`.** These are not modelled. `PoseUtils.CalculateAngle` takes the bearing in degrees as a function parameter. The range lemma assumes what atan2 guarantees, a bearing in [-180, 180] (atan2 returns -180 for a negative-zero `dy`).
- **Nullable inputs.** A `null` landmark array behaves like the empty one in every function of the model. Missing (`undefined`) entries inside a list of 33 or more landmarks are not modelled.

**React, the clock and async work**
- **Effects.** React scheduling is not modelled. Each effect or callback is one method call, made with the state current at that call, so stale closures and batching are not captured. The rule-feedback effect's dependency is modelled as a comparison of status keys.
- **The clock.** The several `Date.now()` reads made during one effect or callback are taken as a single `now` value. This includes the one inside `addAccuracyPoint`.
- **The AI request.** The request to the AI service (src/lib/OpenAIService.ts is not part of this model) is split into two parts:
  - `BeginAICoaching`, the synchronous part;
  - `FinishAICoaching`, the completion, whose argument is the reply or its failure.
- **Manual coaching.** The manual coaching button (AnalysisPanel.tsx:258) calls the same `triggerAICoaching` and so is `BeginAICoaching`.

**Text and display**
- **Korean text.** The advice texts and the feedback `id` string are not modelled:
  - Each text becomes an `Advice` value that carries the joint name, the rounded degrees and the direction.
  - The session's message type is a type parameter.
  - The id `feedback-N` is its number N.
  - The feedback `timestamp` is the `now` of the call.
- **Presentation.** Colours, progress values, icons, the report modal, the chart and the skeleton overlay are not modelled. Only the status and overall labels are.

**Drawing canvas**
- **Canvas drawing.** Strokes, tools, colours, coordinates and `putImageData` are not modelled. A snapshot is opaque. The canvas element is assumed to exist, so only the 2-d context can be missing.
- `Drawing.DrawingCanvas.PreviewBase`: the check that a start point exists and the shape-tool choice are not modelled.
- `Drawing.Saved`, `Drawing.Undone` and `Drawing.Redone` require the history invariant. The class keeps that invariant, and every reachable state satisfies it.

**Video controls and sidebar**
- **Video controls.** The slider, play/pause and speed menu pass values through unchanged and are not modelled. The clock is proved only for non-negative times, and so is the session's elapsed time (`Session.FormatElapsed`).
- **Sidebar.** Only `toggleCategory` is modelled. The technique catalogue is static data.
