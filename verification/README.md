# DevBench verification model

A Dafny model of the parts of the Bethesda DevBench plugin and bridge where order, concurrency or
arithmetic carry the weight, with proofs of what they promise. One module per source component:

- `Activity`, `KeyboardReplay`, `ControllerReplay`: the replay planner. Two recorded clocks are merged
  into one script; leases and frame times are chosen; both are proved against what the recordings say.
- `OperationTracker`, `TrackedDispatch`: the tracker of the one game mutation in flight, and the
  handshake between a listener thread that may time out and a closure queued for the main thread.
- `MainThreadTask`: `RunAndWait` and `QueuedTask`, the abandon-against-run race.
- `RestPolling`: the native wait/sleep backend, whose one continuation travels between threads.
- `Ssim`: windowed structural similarity over real pixels, crops, and the golden-image verdict.
- `Calendar`: the month-walking loops of both games against a closed-form day number.
- `Bytes`, `Utf8`, `SaveHeader`: the bounded save-header parsers and their UTF-8 check (RFC 3629).
- `LaunchWire`, `LaunchHandshake`: length-prefixed fields over a fragmenting pipe, and the two-process
  protocol on top of it.
- `EventBus`: the bounded ring and the delivery queue as views of an unbounded history.
- `ConsoleCapture`, `CaptureTable`: cutting a capture out of the scrollback, and the table of captures.

How the concurrent parts are modelled: every mutex section, atomic operation, queue operation and
callback is one step; a run is a sequence of enabled steps; an invariant is proved for each step and
the promises follow for every run. The classes hold the fields the source holds, their methods are
proved equal to the step functions, and the step functions carry the theorems.

What is assumed of the operating system in `LaunchHandshake`: a process id is not given out while a
process with it runs or a handle to such a process is open, and never twice at one creation time; and a
process that has exited does not run again.

Things the proofs found out about the code:

- `EventBus::Unsubscribe` does not keep the promise of its own comment in every run: the worker copies
  the subscribers before it takes the delivery mutex, so a callback can still run after the call has
  returned. `EventBus.CallbackAfterReturn` is such a run, and `EventBus.UnsubscribeIsFinal` says exactly
  when the promise holds.
- A score of 1 does not mean identical images when the stride of 3 leaves pixels uncovered:
  `Ssim.OneMeansIdentical` says for which sizes it does, `Ssim.UncoveredDotScoresOne` has a pair of
  images for every other size; and a crop with a side below 2 pixels scores 0 even against itself
  (`Ssim.SelfScore`).
- Going back by the same hours does not restore a calendar whose hour was exactly the length of the
  day, or whose two day counters disagreed before; `Calendar.AdvanceUndone` is exact about it, and
  `Calendar.DayEndIsNotRestored` has such a calendar.
- A reported save path matches the requested name only if that name carries no save extension of its
  own once lowered (`OperationTracker.ReportedPathMatches`). The name check refuses the extensions of the
  own game only, so Skyrim accepts "a.fos" and then misses the completion of that save
  (`OperationTracker.AcceptedNameMatches`, `OperationTracker.ForeignExtensionIsNotRecognised`).
- The game that the launch shim retains carries the loader's process id as its parent's and is not
  older than the loader. `LaunchHandshake.SessionIsTheOwnedGame` shows that this makes it a child of
  that very loader, also when process ids are reused, whenever it was created later than the loader.
  Equal creation times, which the source lets pass, prove nothing: `LaunchHandshake.EqualTimesProveNothing`
  has a run in which the broker comes to own another process's child.
- The closure in `DispatchTracked` always still owns the slot when it starts, so its answer for a lost
  slot before the native call is never given (`TrackedDispatch.StartedClosureOwnsSlot`). The screenshot
  overflow checks, the whole-image fallback of the similarity score, and the calendar's repair of a
  rounded hour are unreachable as well.

## Model

| member | source | states |
|---|---|---|
| Activity.StableSortIsStable | game/skyrimse/recording/RecordingActivity.cpp:398-402 | the replay order is chronological, loses and adds nothing, and keeps the recorded order of events with equal time and sequence number |
| Activity.Select | game/skyrimse/recording/RecordingActivity.cpp:394-397 | the recorded events of the wanted kind are replayed, each as often as it was recorded, and no other |
| Activity.SelectJoined | game/skyrimse/recording/RecordingActivity.cpp:394-397 | selecting keeps the order of the recording: of one part after another it is the selections one after another |
| KeyboardReplay.EachTransitionIsReplayed | game/skyrimse/recording/RecordingActivity.cpp:394-402 | the transitions to replay are exactly the recorded ones, each as often as it was recorded, in chronological order |
| KeyboardReplay.TraceEndMs | game/skyrimse/recording/RecordingActivity.cpp:404-412 | the separate loop finds where the trajectory clock and the last transition end |
| KeyboardReplay.LatestIsLast | game/skyrimse/recording/RecordingActivity.cpp:411-412 | over sorted transitions the latest time is that of the last one, so the tail loop ends at the trace end |
| KeyboardReplay.AssignLeases | game/skyrimse/recording/RecordingActivity.cpp:417-453 | planning is refused exactly when a paired hold, or an unreleased hold up to the trace end, exceeds 58000 ms; otherwise exactly the key-downs whose end is known get a lease, of 100 to 60000 ms, and all others keep the default |
| KeyboardReplay.LeaseOpenKeys | game/skyrimse/recording/RecordingActivity.cpp:443-453 | keys never released are leased up to the trace end, or refused; no other key-down's lease is touched |
| KeyboardReplay.AppendWait | game/skyrimse/recording/RecordingActivity.cpp:137-150 | adds the delay without moving any action, leaving no two adjacent and no non-positive waits |
| KeyboardReplay.EmitThrough | game/skyrimse/recording/RecordingActivity.cpp:458-470 | emits every transition due by the given time, and none later, without changing what the script and the pending recordings add up to |
| KeyboardReplay.EmitStep | game/skyrimse/recording/RecordingActivity.cpp:474-496 | one trajectory step moves the clock to max(atMs, clock) plus its wait and is merged at its place |
| KeyboardReplay.EmitTail | game/skyrimse/recording/RecordingActivity.cpp:498-505 | the transitions after the last step end the script at the latest of them |
| KeyboardReplay.EmitScript | game/skyrimse/recording/RecordingActivity.cpp:455-505 | the script's timeline is the chronological merge of both recordings, its waits add up to the trace end, and it is canonical |
| KeyboardReplay.Interleave | game/skyrimse/recording/RecordingActivity.cpp:383-512 | refusal is exact; otherwise the plan is a faithful, fully leased script; with replay off the steps come back unchanged |
| KeyboardReplay.ScriptKeepsBothRecordings | game/skyrimse/recording/RecordingActivity.cpp:455-505 | taking the key transitions out of a script leaves the trajectory on its recorded clock, and taking the trajectory out leaves each transition once, in order, at max(0, tMs) |
| KeyboardReplay.MergeSplits | game/skyrimse/recording/RecordingActivity.cpp:458-505 | a merge can be taken apart into the two recordings it came from |
| KeyboardReplay.MergeOrdered | game/skyrimse/recording/RecordingActivity.cpp:458-505 | the merged actions are in time order, a transition before a trajectory action of the same time |
| KeyboardReplay.LeasesOutliveHolds | game/skyrimse/recording/RecordingActivity.cpp:414-453 | every hold limit is at most 60000 ms and outlives by 2000 ms the gap the script plays to the key-up, or to the end of the script; a key-down that another one overrides keeps exactly 60000 ms |
| KeyboardReplay.CanonicalScriptsAgree | game/skyrimse/recording/RecordingActivity.cpp:137-150 | a canonical script is determined by its timeline and its length |
| ControllerReplay.LoadSamples | game/skyrimse/recording/RecordingActivity.cpp:230-245 | accepts exactly distinct in-range sample times, and holds exactly those samples |
| ControllerReplay.AddTimeZero | game/skyrimse/recording/RecordingActivity.cpp:250-259 | defines the earliest sample at time zero, refused exactly without a frame left for it |
| ControllerReplay.ReplayTimesAdmissible | game/skyrimse/recording/RecordingActivity.cpp:280-301 | the chosen times increase strictly, are never early, and avoid every sample |
| ControllerReplay.ReplayTimesLeast | game/skyrimse/recording/RecordingActivity.cpp:280-301 | no assignment with those three properties is earlier at any event |
| ControllerReplay.TimesFitExactlyWhenPossible | game/skyrimse/recording/RecordingActivity.cpp:290-297 | the duration limit refuses exactly when no admissible assignment fits it |
| ControllerReplay.NextFree | game/skyrimse/recording/RecordingActivity.cpp:289-297 | the inner loop finds the first free time, or reports that it lies past the limit |
| ControllerReplay.InsertHeldFrame | game/skyrimse/recording/RecordingActivity.cpp:302-311 | an inserted frame holds the pose of the latest original sample at or before it; there always is one |
| ControllerReplay.PlaceEvent | game/skyrimse/recording/RecordingActivity.cpp:284-312 | one event is placed at the next greedy time, refused exactly for lack of frames or of time |
| ControllerReplay.PlaceEvents | game/skyrimse/recording/RecordingActivity.cpp:282-312 | the loop places all events at the greedy times, one new frame each, and counts the moved ones |
| ControllerReplay.EmitFrame | game/skyrimse/recording/RecordingActivity.cpp:325-350 | one frame takes its sampled state, then the events due by its time |
| ControllerReplay.EmitFrames | game/skyrimse/recording/RecordingActivity.cpp:314-351 | one complete frame for every time of the timeline, in order, or refusal exactly for an incomplete sample |
| ControllerReplay.StatesArePlayedEvents | game/skyrimse/recording/RecordingActivity.cpp:314-351 | without sampled controller state, each frame's state is the fold of exactly the events replayed at or before it |
| ControllerReplay.EveryEventIsAccounted | game/skyrimse/recording/RecordingActivity.cpp:331-345 | converted and unsupported events together are all events due |
| ControllerReplay.PressedStaysTouched | game/skyrimse/recording/RecordingActivity.cpp:75-121 | no event leaves a button pressed but not touched, and buttons and axes do not disturb each other |
| ControllerReplay.BuildReplay | game/skyrimse/recording/RecordingActivity.cpp:212-381 | accepts exactly the replayable captures, and the plan shows their samples and events |
| ControllerReplay.SequenceIsPlayable | game/skyrimse/recording/RecordingActivity.cpp:321-351 | frames start at 0, strictly increase, are numbered from 1, stay in range, and show the latest sampled pose |
| OperationTracker.GameOperationTracker.TryBegin | src/tools/GameTool.cpp:532-549 | the whole new tracker state: one active operation at a time, a fresh id |
| OperationTracker.GameOperationTracker.MarkDispatching | src/tools/GameTool.cpp:551-559 | only the owner of a reservation starts dispatching |
| OperationTracker.GameOperationTracker.MarkQueued | src/tools/GameTool.cpp:561-569 | only a dispatching operation becomes queued; the owner is acknowledged in any case |
| OperationTracker.GameOperationTracker.MarkDispatchFailed | src/tools/GameTool.cpp:571-581 | the owner frees the slot with a failure |
| OperationTracker.GameOperationTracker.MarkCancelled | src/tools/GameTool.cpp:583-594 | only a reservation is cancelled |
| OperationTracker.GameOperationTracker.MarkCompleted | src/tools/GameTool.cpp:601-617 | a dispatched operation completes with its result |
| OperationTracker.GameOperationTracker.ObserveStarted | src/tools/GameTool.cpp:619-636 | an engine event starts only the operation it concerns |
| OperationTracker.GameOperationTracker.ObserveCompleted | src/tools/GameTool.cpp:638-666 | an engine event completes only the operation it concerns |
| OperationTracker.GameOperationTracker.Reset | src/tools/GameTool.cpp:674-678 | drops the operation and nothing else |
| OperationTracker.RunKeepsValid | src/tools/GameTool.cpp:532-678 | over every sequence of calls success agrees with the phase, and recorded cursors exceed the action cursor |
| OperationTracker.PhaseNeverGoesBack | src/tools/GameTool.cpp:551-666 | over every sequence of calls an operation's phase rank never decreases, and a terminal snapshot never changes |
| OperationTracker.GoneForGood | src/tools/GameTool.cpp:532-549 | an operation that is no longer current never becomes current again |
| OperationTracker.IdsNeverReused | src/tools/GameTool.cpp:532-549 | the ids handed out increase strictly, resets included |
| OperationTracker.StaleCallsChangeNothing | src/tools/GameTool.cpp:551-617 | calls with any id but the current one change nothing |
| OperationTracker.ReservationIsUndisturbed | src/tools/GameTool.cpp:619-666 | no event observed before MarkDispatching, and no other client's call, affects a reservation |
| OperationTracker.OrdinaryLife | src/tools/GameTool.cpp:532-666 | an operation that is begun, dispatched, queued, started and completed ends inactive with exactly what was reported and when |
| OperationTracker.ReportedPathMatches | src/tools/GameTool.cpp:52-70 | a path with any directory, case and save extension matches the requested name exactly when that name has no extension of its own |
| OperationTracker.AcceptedNameMatches | src/tools/GameTool.cpp:52-70 | a name without an extension of its own game, as the name check demands, is recognised in the engine's report exactly when it has no extension of the other game either |
| OperationTracker.ForeignExtensionIsNotRecognised | src/tools/GameTool.cpp:151-154 | Skyrim accepts the name "a.fos", does not recognise the report "a.fos.ess", and drops that completion |
| TrackedDispatch.OutcomesMeanWhatTheySay | game/skyrimse/GameBackend.cpp:487-620 | for each way DispatchTracked ends: how often the native closure ran, and whether the slot is free |
| TrackedDispatch.CancelledNeverRuns | game/skyrimse/GameBackend.cpp:593-608 | after "cancelled before execution" the closure never runs and the operation ends cancelled, however the run goes on |
| TrackedDispatch.StartedClosureOwnsSlot | game/skyrimse/GameBackend.cpp:509-523 | a closure that starts still owns its reservation |
| TrackedDispatch.RunKeepsInv | game/fallout4/GameBackend.cpp:557-682 | any number of dispatches, other clients and engine events keep each dispatch and the tracker in step |
| MainThreadTask.QueuedTask.Abandon | src/MainThreadTask.h:27-32 | gives up a queued task, and reports whether it will never run |
| MainThreadTask.QueuedTask.Run | src/MainThreadTask.h:34-57 | runs a queued task once, or abandons it after its deadline |
| MainThreadTask.AnswersMeanWhatTheySay | src/MainThread.cpp:21-94 | in every interleaving the function runs at most once and each answer says truly whether it ran |
| MainThreadTask.NeverStartsLater | src/MainThread.cpp:70-91 | after "did not start", or a failed enqueue, the function never runs |
| MainThreadTask.PendingCountsOutstanding | src/MainThread.cpp:34-52 | the pending counter is the number of submissions neither refused nor drained, and never negative |
| RestPolling.NativeBackendState.ReserveSection | game/skyrimse/rest/RestBackend.cpp:169-187 | one active operation at a time, none while stopping |
| RestPolling.NativeBackendState.RequestPollSection | game/skyrimse/rest/RestBackend.cpp:552-564 | only the active operation asks for a poll |
| RestPolling.NativeBackendState.ClearQueuedSection | game/skyrimse/rest/RestBackend.cpp:542-545 | a poll that has run is no longer queued |
| RestPolling.NativeBackendState.CompleteSection | game/skyrimse/rest/RestBackend.cpp:566-583 | only the active operation completes, and its completion clears every poll flag |
| RestPolling.NativeBackendState.PickSection | game/skyrimse/rest/RestBackend.cpp:588-608 | the worker takes a requested poll that is not queued, and only that |
| RestPolling.NativeBackendState.StopSection | game/skyrimse/rest/RestBackend.cpp:209-218 | only the first shutdown goes on |
| RestPolling.OneContinuation | game/skyrimse/rest/RestBackend.cpp:487-639 | while an operation is active and nothing is stopping, exactly one continuation of it exists and can be carried on: no poll is lost or doubled |
| RestPolling.CallbackFiresOnce | game/fallout4/rest/RestBackend.cpp:397-539 | the completion callback fires at most once for each operation, exactly when it stops being active, and no task of another operation exists that could complete or re-arm it |
| RestPolling.NativeOperation.ConfigureAndAccept | game/skyrimse/rest/RestBackend.cpp:353-430 | the open menu is accepted exactly if it takes the update and its slider then has the requested hours; the clock is noted and the start deadline set |
| RestPolling.NativeOperation.Poll | game/skyrimse/rest/RestBackend.cpp:432-485 | the whole outcome of one poll and the operation's state after it |
| RestPolling.CompletionIsSeen | game/skyrimse/rest/RestBackend.cpp:331-485 | a rest is reported as completed only after the open menu's slider stood at exactly the requested hours and the menu was then seen closed with no time passing; it counts as interrupted exactly when the game's clock had not advanced by those hours, to within 0.01 |
| RestPolling.PassedTimeIsNotForgotten | game/skyrimse/rest/RestBackend.cpp:458-484 | once time has been seen to pass, no poll reports that it did not start |
| Ssim.ScoreBound | shared/Ssim.cpp:92-118 | a window's score lies in [-1, 1] and is 1 exactly for equal windows |
| Ssim.ScoreSymmetric | shared/Ssim.cpp:92-118 | a window's score does not depend on the order of the images |
| Ssim.WindowMeans | shared/Ssim.cpp:79-88 | the first pair of loops computes the means of both windows |
| Ssim.WindowMoments | shared/Ssim.cpp:90-103 | the second pair of loops computes the sums of squared and mixed deviations |
| Ssim.ScoreWindow | shared/Ssim.cpp:77-108 | the body of the window loops computes the score of that window |
| Ssim.ComputeSsim | shared/Ssim.cpp:59-135 | the loops average the scores of all windows; the fallback for no window is never reached |
| Ssim.SsimBoundedAndSymmetric | shared/Ssim.cpp:59-135 | the score of two images of one shape lies in [-1, 1] and is symmetric |
| Ssim.SsimIsOne | shared/Ssim.cpp:59-135 | with both sides at least 2, the score is 1 exactly when the images agree on every covered pixel |
| Ssim.WholeImageCounts | shared/Ssim.cpp:63-76 | the windows cover every pixel exactly when, along both sides, the stride fits |
| Ssim.OneMeansIdentical | shared/Ssim.cpp:59-135 | for images of given sides of at least 2, a score of 1 means that they are identical exactly when the stride fits along both sides |
| Ssim.UncoveredDotScoresOne | shared/Ssim.cpp:59-135 | a dot on any pixel that no window covers leaves the score of a blank image at 1 |
| Ssim.ThirdColumnIsNotSeen | shared/Ssim.cpp:63-76 | a 3 by 2 image whose third column differs scores 1 |
| Ssim.SelfScore | shared/Ssim.cpp:67-71 | an image scores 1 against itself, or 0 when a side is below 2 pixels |
| Ssim.CropUv | shared/Ssim.cpp:40-57 | the crop has the clamped, rounded size of the rectangle and the pixels that lie in it |
| Ssim.CropIsUnique | shared/Ssim.cpp:40-57 | a rectangle has one crop, and the full rectangle's is the image itself |
| Ssim.ScoreRegion | shared/Ssim.cpp:163-168 | a region is scored on the same crop of both images, against its own or the common threshold |
| Ssim.ScoreRegions | shared/Ssim.cpp:158-176 | the worst score is the true minimum of the regions' scores, and the verdict is that all passed |
| Ssim.ScoreAgainstGolden | shared/Ssim.cpp:137-182 | the three error cases, the region verdict and the whole-image verdict |
| Calendar.WalkForward | game/fallout4/data/Fallout4Calendar.cpp:79-103 | the forward walk moves the closed-form day number by exactly the given days, or overflows exactly past the last representable year |
| Calendar.WalkBackward | game/skyrimse/save/SkyrimCalendar.cpp:89-113 | the backward walk moves it back by exactly the given days, or underflows exactly before the first |
| Calendar.AdvanceCalendar | game/fallout4/data/Fallout4Calendar.cpp:45-151 | the day number moves by floor((hour + hours) / hoursPerDay); each refusal is exact, in the source's order |
| Calendar.DateOfDayNumber | game/skyrimse/save/SkyrimCalendar.cpp:22-27 | a date is determined by its day number |
| Calendar.AdvanceIsConsistent | game/fallout4/data/Fallout4Calendar.cpp:130-137 | rawDaysPassed + hour / hoursPerDay == daysPassed after every advance, with an hour inside the day |
| Calendar.AdvancesCompose | game/skyrimse/save/SkyrimCalendar.cpp:29-134 | h1 and then h2 is h1 + h2, exactly when that sum is itself permitted |
| Calendar.AdvanceUndone | game/skyrimse/save/SkyrimCalendar.cpp:29-134 | going back by the same hours restores the calendar exactly when the hour lay inside the day, the counters agreed and the day delta can be negated |
| Calendar.DayEndIsNotRestored | game/fallout4/data/Fallout4Calendar.cpp:45-151 | from hour 24.0, one hour on and one back lead to hour 0.0 of the next day |
| Calendar.Fallout4RefusesOnlyYears | game/fallout4/data/Fallout4Calendar.cpp:45-151 | a valid Fallout 4 calendar and permitted hours are refused only for leaving the representable years |
| Calendar.PrefixTwo | game/fallout4/data/Fallout4Calendar.cpp:37-42 | adding twice the next power of ten writes the digit 2 before a number |
| Calendar.Fallout4DisplayYear | game/fallout4/data/Fallout4Calendar.cpp:32-43 | the display year is the raw year with the decimal digit 2 in front; none for a negative one |
| Bytes.ReadUndoesWrite | bridge/platform/native-launch-shim.cpp:722-727 | a number that fits its width is read back from its little-endian bytes |
| Bytes.WriteUndoesRead | game/fallout4/data/Fallout4SaveHeader.cpp:31-41 | little-endian bytes are those of the number read from them |
| Utf8.CheckSequence | game/fallout4/data/Fallout4SaveHeader.cpp:77-115 | the sequence at the front is accepted exactly when the rest decides well-formedness |
| Utf8.IsValidUtf8 | game/fallout4/data/Fallout4SaveHeader.cpp:66-118 | accepts a byte string exactly when it is the UTF-8 encoding of some sequence of Unicode scalar values (RFC 3629, sections 3 and 4) |
| Utf8.EncodingStands | game/fallout4/data/Fallout4SaveHeader.cpp:77-114 | every scalar value's encoding passes the checks and decodes to it |
| Utf8.StandingEncodes | game/fallout4/data/Fallout4SaveHeader.cpp:77-114 | a sequence that passes the checks is the one encoding of the value it decodes to |
| SaveHeader.HeaderReader.ReadNumber | game/fallout4/data/Fallout4SaveHeader.cpp:31-41 | reads a number and advances past it, or reports that the bytes are too few |
| SaveHeader.HeaderReader.ReadString | game/skyrimse/save/SkyrimSaveHeader.cpp:42-51 | reads a bounded text behind its length, or nothing |
| SaveHeader.ReadFields | game/fallout4/data/Fallout4SaveHeader.cpp:137-155 | the thirteen reads take the record off the front of the header, and fail exactly where it cannot be taken |
| SaveHeader.TakeAllUndoesPutAll | game/skyrimse/save/SkyrimSaveHeader.cpp:82-99 | fields that fit are read back from their encoding, whatever follows |
| SaveHeader.PutAllUndoesTakeAll | game/skyrimse/save/SkyrimSaveHeader.cpp:82-99 | fields read off some bytes encode to exactly those bytes |
| SaveHeader.ParseSaveHeader | game/skyrimse/save/SkyrimSaveHeader.cpp:66-134 | the parser's checks, in order, decide as the specification does |
| SaveHeader.ParseUndoesEncode | game/fallout4/data/Fallout4SaveHeader.cpp:121-191 | every acceptable record is parsed back from its encoding |
| SaveHeader.AcceptedIsEncoding | game/fallout4/data/Fallout4SaveHeader.cpp:121-191 | every accepted header is, byte for byte, the encoding of the fields parsed from it, and the file holds the screenshot |
| SaveHeader.AcceptedExactlyEncodings | game/skyrimse/save/SkyrimSaveHeader.cpp:66-134 | a header is accepted exactly when it starts with the encoding of an acceptable record that the file can hold |
| SaveHeader.NoOverflow | game/fallout4/data/Fallout4SaveHeader.cpp:163-174 | within the dimension bound the screenshot overflow checks never fire |
| SaveHeader.FileTimeIsUnixSecond | game/skyrimse/save/SkyrimSaveHeader.cpp:171-177 | a file time is shown as the Unix second it falls in |
| LaunchWire.Pipe.TransferSome | bridge/platform/native-launch-shim.cpp:624-678 | one transfer moves a part of what is left of the buffer, in order, or nothing if it fails |
| LaunchWire.Pipe.TransferExact | bridge/platform/native-launch-shim.cpp:615-680 | moves the whole buffer in any fragments; on a failure exactly a first part of it |
| LaunchWire.Pipe.ReadBytes | bridge/platform/LaunchShim.cs:81-94 | reads exactly the bytes asked for, or fails having taken a first part of them |
| LaunchWire.Pipe.Read | bridge/platform/native-launch-shim.cpp:687-712 | what comes off the pipe is exactly one field's frame; a frame that has arrived is read, however fragmented |
| LaunchWire.Pipe.Write | bridge/platform/native-launch-shim.cpp:714-738 | sends exactly the field's frame, or a first part of it; an oversized field sends nothing |
| LaunchWire.FieldsArriveInOrder | bridge/platform/LaunchShim.cs:70-102 | whatever part of the stream arrives, the fields read are the first fields written, unchanged and in order |
| LaunchHandshake.LoaderNeedsAuthorization | bridge/platform/native-launch-shim.cpp:1073-1124 | the loader starts only after the shim accepted the broker's own offer and the broker saw its nonce echoed and sent "launch" |
| LaunchHandshake.SessionIsTheOwnedGame | bridge/platform/LaunchShim.cs:203-231 | the broker opens a session only for the process the shim retained, with the loader's id as its parent's, and a child of that very loader if created after it |
| LaunchHandshake.EqualTimesProveNothing | bridge/platform/native-launch-shim.cpp:915-925 | the comparison of creation times lets a child of another process pass, if all happens within one clock tick |
| LaunchHandshake.HandshakeCanSucceed | bridge/platform/native-launch-shim.cpp:1061-1198 | from every start in which both sides mean the same game, an undisturbed handshake opens the session for the loader's own game |
| LaunchHandshake.ShimOutlivesWhatItStarted | bridge/platform/native-launch-shim.cpp:1143-1198 | a shim that has finished has seen its game exit, or without one its loader and what it found afterwards, unless waiting failed |
| LaunchHandshake.OutcomesAgree | bridge/platform/native-launch-shim.cpp:1124-1198 | a refusal means that no game was retained; a successful exit means that the broker confirmed it and it has exited |
| LaunchHandshake.DuplicatesTheGame | bridge/platform/LaunchShim.cs:211-215 | the handle the broker duplicates is the retained game's |
| EventBus.EventBus.Publish | shared/EventBus.h:97-113 | numbers the event, keeps the last 256 and queues it |
| EventBus.EventBus.Since | shared/EventBus.h:116-124 | selects the events of the ring numbered above the cursor |
| EventBus.EventBus.Unsubscribe | shared/EventBus.h:86-91 | removes that subscriber and no other |
| EventBus.EventBus.TakeBatch | shared/EventBus.h:141-150 | hands the whole queue to the worker, with the subscribers of that moment |
| EventBus.EventBus.NotifyNext | shared/EventBus.h:156-158 | the next callback of the loops over events and subscribers |
| EventBus.PollerSeesTheRing | shared/EventBus.h:107-124 | a poll returns exactly the events after the cursor among the last 256 of the history, which is all of them exactly when at most 256 came since |
| EventBus.PollerMissesNothing | shared/EventBus.h:116-124 | a poller that goes on from the last number it received gets every event once, exactly when at most 256 events pass between polls |
| EventBus.EachEventOnce | shared/EventBus.h:97-160 | a registered subscriber has had, or will have, each event published since it subscribed exactly once and in order |
| EventBus.NothingAfterRemoval | shared/EventBus.h:86-93 | a removed subscriber gets no event that was still queued or is published later |
| EventBus.WholeSubscription | shared/EventBus.h:77-160 | in every run from the empty bus: what a subscriber has had and will have is what was queued when it subscribed and all published since, once and in order, and after its removal the same but for what was still queued then |
| EventBus.UnsubscribeIsFinal | shared/EventBus.h:83-93 | once the delivery mutex is free, the callback never runs again exactly when the worker has no undelivered batch it took for that subscriber |
| EventBus.CallbackAfterReturn | shared/EventBus.h:140-155 | a run from the empty bus in which Unsubscribe may return and the callback still runs, up to that callback |
| ConsoleCapture.CollectLines | src/tools/ConsoleTool.cpp:271-284 | the cursor loop collects the nonempty lines of a region without their carriage returns |
| ConsoleCapture.ExtractConsoleCapture | src/tools/ConsoleTool.cpp:241-293 | the last maxLines such lines between the line of the last begin marker and that of the first end marker after it |
| ConsoleCapture.LinesAreClean | src/tools/ConsoleTool.cpp:276-280 | no reported line is empty or holds a line break |
| ConsoleCapture.ExtractUndoesPrint | src/tools/ConsoleTool.cpp:241-293 | lines printed between the markers, with either line end, are read back, if no line holds a marker and the begin marker does not occur again |
| CaptureTable.CapturesAreDistinct | src/tools/ConsoleTool.cpp:110-115 | captures of different sequence numbers differ in id and in both markers |
| CaptureTable.CaptureState.AddCapture | src/tools/ConsoleTool.cpp:108-125 | adds the capture of the next number and evicts the oldest beyond 64 |
| CaptureTable.CaptureState.RemoveCapture | src/tools/ConsoleTool.cpp:127-131 | removes that capture from the map and from the order |
| CaptureTable.RunKeepsValid | src/tools/ConsoleTool.cpp:108-131 | the map's keys always are the entries of the duplicate-free order list, bounded by 64 |
| CaptureTable.ReadableExactly | src/tools/ConsoleTool.cpp:108-131 | after every run a capture can be read, unchanged, exactly when no step removed it and none was added while 63 later ones stood |
| CaptureTable.GoneForGood | src/tools/ConsoleTool.cpp:108-131 | an id that has left the table never comes back |
| CaptureTable.StaysReadable | src/tools/ConsoleTool.cpp:108-131 | from the moment it is added a capture stays readable until it is removed or 64 further ones have been added; once additions outnumber removals by 64, or it has been removed, it is gone |
| CaptureTable.CaptureReadsBack | src/tools/ConsoleTool.cpp:108-160 | reading a capture that has not been removed or evicted gives the lines printed between its own two markers, or the last 200 of them |

## Left out

- JSON itself: steps, events, samples and results are datatypes, so type errors of single fields and
  64-bit overflow of recorded times are not modelled. `std::stable_sort` is the function
  `Activity.StableSort`.
- The activity summary counts and the final re-parse of the emitted VR frames: easy counting, and
  checks of pose values.
- ControllerReplay.StatesArePlayedEvents: only for captures without sampled controller state; inserted
  frames copy a sampled state, so there each event starts again from it (as `EmitFrame` says).
- ControllerReplay.InsertHeldFrame: the ordered map is a map searched by time, so the iterator steps of
  `std::map` are not modelled (nor in `AddTimeZero`).
- `Reset` during a dispatch in flight (shutdown only); for the tracker alone it is included.
- Memory ordering: each atomic operation is one indivisible step.
- The texts that tell a hung main thread from a busy one, and `g_lastTaskFrame`.
- The queue tasks of the rest backend hold weak references; a task dropped because the backend object
  has been destroyed is not modelled, and poll intervals are nondeterministic. The readiness checks
  before the menu opens are one nondeterministic verdict; the open menu's answers and the clock are
  given to each poll; and the Fallout 4 menu details of `PollNative` are not modelled.
- The texts of error messages: where a message is not an answer of its own, it is a constructor.
- Floating-point rounding: pixels, hours and day counts are reals, so non-finite values and the 1e-9
  repair of a rounded hour do not occur. Overflow of a crop rectangle beyond 32 bits is not modelled.
- Ssim.ScoreAgainstGolden: decoding PNG and BMP files is an optional image given by the caller, and
  the caller's images have as many pixels as their sides say.
- Calendar.AdvanceCalendar: reads the length of a day from its rules; Skyrim's state carries it along
  unchanged.
- Reading the save file from disk; floats in the header are kept as their bits.
- LaunchWire.Pipe.TransferExact: overlapped I/O, cancellation and clocks appear only as the outcome of
  each transfer; the conversion between text and bytes in the C# end is not modelled.
- Connecting the pipe, forwarding the command to the mod manager, its ancestry check, user identity and
  path canonicalisation; a process snapshot is one atomic look; exceptions other than the shim's own
  `Error` (such as running out of memory) are not modelled.
- LaunchHandshake.ShimOutlivesWhatItStarted: a game found during the cleanup is required to carry the
  loader's process id only, which allows more than the source does.
- Polling the event bus by `HeadSeq`, which is a separate critical section; the destructor's last drain.
- CaptureTable.RunKeepsValid: for fewer than 2^64 captures, the range of the sequence counter.
- Console commands themselves, permissions, and the counter of pending submissions.
- The Papyrus, camera, input, inspection, menu, registry, catalogue, discovery and configuration code,
  and the bridge's session script: thin layers over engine or library types that are not visible here.
