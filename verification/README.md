# Camera HAL: frame matching, ownership and tables

Proofs about the Qualcomm camera HAL and the camera library below it.

- **Zero shutter lag.** Two streams feed two linked ready queues; frames with equal
  ids are paired, old ones are dropped, and pairs go to the client when a burst is
  requested. `FrameQueue` is the linked list. `ZslArrival` and `ZslDrain` are the
  in-place list edits. `ZslMatcher` is the channel with its counters, proved to do
  the steps of `ZslModel`. `ZslRuns`, `ZslBursts` and `ZslSpacing` are about every run
  of those steps, `ZslOutcomes` about what each of them leaves. The C code does not state how its queues are related; the relation is the
  invariant here: both lists begin with the same matched ids, and at most one frame
  in all follows them. It is why the tail repair that looks at the wrong queue, the
  surplus check on the opposite queue, and the algorithm-error report never act.
- **Pictures.** `JpegBurst` and `Denoise` are the two stages that take one frame at
  a time, over the FIFO of `StreamQueue`.
- **Preview buffers.** `PreviewBuffers` follows each buffer between the window, the
  HAL and the driver, and the frames that are displayed; `FrameRates` is the counting at
  high frame rates, and `PreviewStream` the stream object.
- **State of the HAL.** `HalState` is the state machine of preview, recording and
  pictures with its three streams. `Runs` holds what it shares with `EventTable`,
  the callback registration of the camera library. `HalStates.WindowStartsWaiting` and
  `HalStates.RecordingAndBack` say what two calls in a row come to: a start that waits for
  its window, and a recording begun and ended.
- **Parameters and sizes.** `SizeList`, `FpsTable`, `PlaneSizes` and `Coordinates`.

Methods follow the code, on the same fields and loops; each is proved against a step
function, and the theorems are about runs of these functions. Ghost fields record what
happened to each frame. What a call to the driver, the window, the encoder or the
daemon answers is a parameter, so the theorems hold for all answers unless they say
otherwise.

## What the proofs found

- A burst count is kept in eight bits: a request that leaves more than 127 pairs owed
  is never completed. With watermark 0 nothing is delivered on arrival, because the
  watermark is applied before the dispatch (`ZslBursts.FillableExactly`).
- A burst is finished only if its last announced picture is the only frame left at
  that moment. A second request while a picture is encoded leaves the session
  unfinished (`JpegBursts.FinishExactly`, `JpegBursts.SecondRequestUnfinished`).
- A denoise request refused on arrival gives its frame back to the driver; refused in
  the relaunch loop, the frame is only freed (`Denoising.NothingLostExactly`).
- The high-frame-rate counter is never initialized. From a counter below zero a buffer
  can be enqueued twice (`PreviewBuffers.AlwaysAgreeExactly`). A buffer that was dequeued
  but not locked is not cancelled when a start fails
  (`PreviewBuffers.FailedStartLeavesNothing`). A start goes on when genlock refuses a
  buffer, which is then with the driver unlocked until it first comes back
  (`PreviewBuffers.ReportedExactly`), and the record is cleared even of a buffer that
  could not be unlocked (`PreviewBuffers.PutBackReturns`).
- A channel event forgets the id up to which frames are to be skipped, so the next match
  can be closer than the interval (`ZslSpacing.ResetBreaksSpacing`); exactly when it still
  can is `ZslSpacing.SpacingSafeExactly`.
- A frame-rate change during recording leaves the record stream running in the state
  STARTED, where neither stopRecording nor stopPreview nor release stops it
  (`HalStates.RateChangeForgetsRecording`).
- Four calls can leave the snapshot stream running for neither a picture nor a preview
  (`HalStates.SnapOwnedExactly`). Such runs, without any failure, are a preview after a
  picture outside ZSL mode (`HalStates.PreviewAfterPicture`) and leaving ZSL mode during preview
  (`HalStates.ModeChangeForgetsSnapshot`).
- Going from two clients of the only event type in use to one launches a second polling
  thread: the busy test reads a field that only channel threads set
  (`EventTables.ThreadsExactly`, `EventTables.SecondThreadLaunched`). NULL user data
  breaks the count (`EventTables.NullClientCounted`).
- A preview range that is rejected as invalid is stored all the same, and asking for it
  again succeeds (`FpsTables.RejectedIsStored`).
- CEILING16 has a mask of sixteen bits and rounds correctly only up to 65520
  (`PlaneSizes.CeilingRounds`).

## Model

| member | source | states |
|---|---|---|
| `FrameQueue.ReadyQueue.Enqueue` | mm-camera-interface/mm_camera_stream.c:85-96 | the node becomes the last one; head, tail, links and `cnt` describe the longer list |
| `FrameQueue.ReadyQueue.Dequeue` | mm-camera-interface/mm_camera_stream.c:66-83 | the first node leaves, or NULL comes back from an empty queue; head, tail, links and `cnt` stay right |
| `FrameQueue.ReadyQueue.UnlinkAfter` | mm-camera-interface/mm_camera_notify.c:194-207 | cutting out the node behind a given one removes that node only and repairs the tail when it was the last |
| `FrameQueue.ReadyQueue.UnlinkInner` | mm-camera-interface/mm_camera_notify.c:274-290 | cutting out a node that is not the last needs no tail repair: the list without it is well formed with its old tail |
| `ZslArrival.AppendIfNewer` | mm-camera-interface/mm_camera_notify.c:134-145 | the frame is appended exactly when nothing waits opposite and it is first or late enough, or it is newer than the opposite tail and late enough |
| `ZslArrival.DropPeerFrame` | mm-camera-interface/mm_camera_notify.c:179-209 | dropping the opposite unmatched frame leaves exactly the matched frames there, whichever of the two unlinking branches runs |
| `ZslArrival.MatchFrames` | mm-camera-interface/mm_camera_notify.c:164-176 | both frames become matched, both counters follow, and both queues hold the same matched ids |
| `ZslArrival.ScanPeer` | mm-camera-interface/mm_camera_notify.c:149-221 | the walk over the opposite list ends with the one verdict that the ids determine: matched, too old, or passed with or without a frame dropped |
| `ZslArrival.ScanAndMatch` | mm-camera-interface/mm_camera_notify.c:149-221 | verdict, both lists and the frames given back after the walk and the match it may find |
| `ZslArrival.PlaceFrame` | mm-camera-interface/mm_camera_notify.c:134-231 | both lists after append and walk; the append and the match never link the same node twice |
| `ZslArrival.TakeMatched` | mm-camera-interface/mm_camera_notify.c:233-251 | a queue that counts a matched frame can be dequeued: the unchecked dequeue never yields NULL, and its oldest id leaves |
| `ZslArrival.TrimToWaterMark` | mm-camera-interface/mm_camera_notify.c:233-251 | the watermark loop removes exactly the excess pairs from the front of both queues and gives each frame back on its own side |
| `ZslArrival.DropFirstUnmatched` | mm-camera-interface/mm_camera_notify.c:255-297 | of two unmatched frames the older leaves; the branch that compares with the other queue's tail is never taken, and the list needs no repair |
| `ZslArrival.Settle` | mm-camera-interface/mm_camera_notify.c:232-343 | after the watermark and the two surplus checks each queue has at most one unmatched frame; the check on the opposite queue never fires |
| `ZslArrival.ArriveOnQueues` | mm-camera-interface/mm_camera_notify.c:116-343 | all list editing of one arrival: verdict, what both queues hold, which frames went back on which side |
| `ZslDrain.SkipOne` | mm-camera-interface/mm_camera_channel.c:574-592 | one position of the skip loop: a pair leaves both queues and both counters, or the last unmatched frame leaves alone |
| `ZslDrain.SkipFrames` | mm-camera-interface/mm_camera_channel.c:552-597 | exactly max(0, longer count - look_back) positions leave, and each frame is given back on its side |
| `ZslDrain.PutBackBoth` | mm-camera-interface/mm_camera_channel.c:661-676 | putting the leftover frame back restores the queues as they were |
| `ZslDrain.HandOne` | mm-camera-interface/mm_camera_channel.c:636-676 | a round hands out two frames with equal ids (the reported algorithm error cannot happen), or leaves both queues as they were |
| `ZslDrain.HandOut` | mm-camera-interface/mm_camera_channel.c:632-676 | the oldest min(n, matched) pairs are handed out in order, the rest is owed in eight bits, and the loop completes exactly when n pairs were there |
| `ZslMatcher.PlaceBooks` | mm-camera-interface/mm_camera_notify.c:134-231 | the lists after placing a frame, booked, are the placement of the model for every verdict |
| `ZslMatcher.ArrivalBooks` | mm-camera-interface/mm_camera_notify.c:116-343 | the list editing of an arrival, booked, is placement and trim of the model |
| `ZslMatcher.SkipBooks` | mm-camera-interface/mm_camera_channel.c:565-592 | the list editing of skipping, booked, is the skip of the model |
| `ZslMatcher.ZslChannel.constructor` | mm-camera-interface/mm_camera_stream.c:134-142 | two queues emptied as here, and no expected id, meet the invariant that relates them |
| `ZslMatcher.ZslChannel.Dispatch` | mm-camera-interface/mm_camera_notify.c:352-405 | a pending burst takes the oldest pair, with equal ids on both sides, and delivery-done is sent exactly when the last one owed goes |
| `ZslMatcher.ZslChannel.Arrive` | mm-camera-interface/mm_camera_notify.c:92-407 | the in-place editing of an arrival has exactly the effect of the step over ids (place, trim, dispatch), keeps list, count and matching invariants, and does nothing when a stream is not in use |
| `ZslMatcher.ZslChannel.ServeBurst` | mm-camera-interface/mm_camera_channel.c:630-694 | the oldest pairs up to n go to the client with equal ids, the rest is owed, and delivery-done is sent exactly when nothing is owed after a complete loop |
| `ZslMatcher.ZslChannel.RequestBurst` | mm-camera-interface/mm_camera_channel.c:599-695 | a burst request has exactly the effect of the step over ids (skip, hand over, owe the rest) and keeps list, count and matching invariants |
| `ZslMatcher.ZslChannel.SkipOldest` | mm-camera-interface/mm_camera_channel.c:552-597 | skipping in place removes the oldest positions of both queues and gives each frame back on its side, as the step over ids says |
| `ZslMatcher.ZslChannel.FillBuffer` | mm-camera-interface/mm_camera_stream.c:232-248 | a buffer outside the queue can be filled with a new frame id without changing what the queues hold |
| `ZslMatcher.ZslChannel.SetAttributes` | QCameraHWI_Still.cpp:572-594 | changing watermark, look-back and interval keeps the invariant |
| `ZslMatcher.ZslChannel.ResetExpected` | mm-camera-interface/mm_camera_channel.c:272-273 | forgetting the expected id keeps the lists and the invariant |
| `ZslRuns.PlaceKeeps` | mm-camera-interface/mm_camera_notify.c:134-231 | placing a frame, whichever branch it takes, keeps order, conservation and the relation of the two queues |
| `ZslRuns.ArriveKeeps` | mm-camera-interface/mm_camera_notify.c:92-407 | every arrival with a new id keeps the invariant |
| `ZslRuns.RequestKeeps` | mm-camera-interface/mm_camera_channel.c:599-695 | every burst request keeps the invariant |
| `ZslRuns.RunKeepsInv` | mm-camera-interface/mm_camera_notify.c:92-407 | every run of arrivals, requests and attribute changes keeps the invariant |
| `ZslMatcher.ListsAgree` | mm-camera-interface/mm_camera_notify.c:134-343 | between any two calls both linked lists begin with the same number of matched nodes, with the same ids pairwise; no other node is matched, at most one more node follows in both lists together, ids ascend along each list, and both match counts and lengths are right |
| `ZslRuns.QueueShape` | mm-camera-interface/mm_camera_notify.c:134-343 | in every run the ids of both queues ascend |
| `ZslRuns.FrameConservation` | mm-camera-interface/mm_camera_notify.c:137-386 | every frame that arrived is in exactly one place once: queued, given back, or delivered; no other frame is anywhere |
| `ZslRuns.ArrivalsLogged` | mm-camera-interface/mm_camera_notify.c:409-472 | the frames accounted for are exactly the arrivals of the run |
| `ZslRuns.ArriveTouches` | mm-camera-interface/mm_camera_notify.c:164-176 | an arrival makes at most one match, of the arriving id, and then moves the expected id by the interval |
| `ZslRuns.DeliveredInOrder` | mm-camera-interface/mm_camera_notify.c:352-378 | in every run the delivered ids ascend strictly, and each was matched and came on both streams |
| `ZslRuns.DeliveredApart` | mm-camera-interface/mm_camera_notify.c:164-176 | without a channel event, delivered and matched ids are at least the interval apart |
| `ZslRuns.MatchedApartBetweenResets` | mm-camera-interface/mm_camera_notify.c:164-176 | from any state, the matches made up to the next channel event are at least the interval apart |
| `ZslRuns.BuffersLeftOutside` | QCameraHWI_Still.cpp:1267-1271 | a queue holds at most depth matched frames and one more, so at least two of the depth + 3 buffers are outside it |
| `ZslRuns.ArrivalTrims` | mm-camera-interface/mm_camera_notify.c:232-251 | an arrival leaves at most the watermark then set, however high it was before, unless the opposite unmatched frame makes it too old |
| `ZslRuns.SkipDropsOldest` | mm-camera-interface/mm_camera_channel.c:565-592 | skipping drops exactly the oldest max(0, longer - look_back) positions of each queue, for negative look_back too |
| `ZslBursts.RunBalance` | mm-camera-interface/mm_camera_notify.c:352-387 | between requests a balanced burst stays balanced, and one whose count was cut to eight bits stays short |
| `ZslBursts.BurstLedger` | mm-camera-interface/mm_camera_channel.c:630-694 | owed plus handed out is n and delivery-done fires once, at n, when at most 127 are owed after the request; past 127 the request is never filled |
| `ZslBursts.ArriveDrained` | mm-camera-interface/mm_camera_notify.c:352-387 | with a positive watermark a match made while something is owed goes out in the same call |
| `ZslBursts.MatchesGoOut` | mm-camera-interface/mm_camera_notify.c:352-387 | over any run of arrivals the number handed out is the smaller of owed and matched |
| `ZslBursts.NothingGoesOut` | mm-camera-interface/mm_camera_notify.c:233-251 | with watermark 0 every match is trimmed before dispatch, so nothing is ever handed out on arrival |
| `ZslBursts.CanFill` | mm-camera-interface/mm_camera_notify.c:134-176 | from every reachable state some arrivals make any number of matches |
| `ZslBursts.FillableExactly` | mm-camera-interface/mm_camera_channel.c:630-694 | a request for n can be completed by arrivals if and only if it is served at once, or the watermark is positive and at most 127 are still owed |
| `ZslBursts.LockStepMatches` | mm-camera-interface/mm_camera_notify.c:164-176 | streams in lock step are matched without loss: exactly the ids that the interval selects |
| `ZslBursts.ResetMatchesNext` | mm-camera-interface/mm_camera_channel.c:272-273 | after a channel event the next new id is matched however close it is; without the event an id that is too close is not |
| `ZslSpacing.SpacedExactly` | mm-camera-interface/mm_camera_notify.c:164-176 | from any state, the matches of a run are at least gap apart at its end if and only if no arrival met its id opposite, late enough for the expected id, less than gap above the last match |
| `ZslSpacing.SpacingSafeExactly` | mm-camera-interface/mm_camera_notify.c:164-176 | from any reachable state, every continuation without a channel event keeps the spacing if and only if the soonest id that can still be matched is at least gap above the last match |
| `ZslSpacing.SoonestLeast` | mm-camera-interface/mm_camera_notify.c:164-176 | no id that can still be matched is below the soonest |
| `ZslSpacing.SoonestMatches` | mm-camera-interface/mm_camera_notify.c:164-176 | arrivals exist that match the soonest id next |
| `ZslSpacing.ResetBreaksSpacing` | mm-camera-interface/mm_camera_channel.c:272-273 | ids 0 and 1 on both streams with a channel event between them are both matched, for every interval of two or more |
| `ZslOutcomes.ArrivalOutcome` | mm-camera-interface/mm_camera_notify.c:134-391 | an arrival that is not too old leaves the newest pairs up to the watermark, the new one included; a too old one leaves them all; when something is owed the oldest pair left goes out and nothing else does; and which frame then waits unmatched |
| `ZslOutcomes.LateFrameStays` | mm-camera-interface/mm_camera_notify.c:134-176 | a frame late enough for the next match, with nothing newer opposite, is matched or waits |
| `ZslOutcomes.RequestOutcome` | mm-camera-interface/mm_camera_channel.c:552-695 | a request drops the oldest positions beyond the look-back count, hands out the oldest pairs left up to n, owes the rest in eight bits, and sends the done event only when that is the whole of n |
| `ZslOutcomes.LockStepLeaves` | mm-camera-interface/mm_camera_notify.c:233-251 | after streams in lock step, with nothing owed and one watermark throughout, both queues begin with exactly the newest pairs up to the watermark of those there before and those the interval selects, and hold nothing else if the last id is selected |
| `ZslBursts.BurstOf128` | mm-camera-interface/mm_camera_channel.c:632-633 | from empty queues a burst of 128 pairs is never completed, and one of 127 can be |
| `StreamQueues.StreamQueue.Enqueue` | QCameraStream.cpp:58-67 | an initialized queue gets the element at its end, another one refuses it |
| `StreamQueues.StreamQueue.Dequeue` | QCameraStream.cpp:72-89 | the oldest element leaves |
| `StreamQueues.StreamQueue.Flush` | QCameraStream.cpp:91-94 | the queue is emptied |
| `JpegBursts.ArrivalKeeps` | QCameraHWI_Still.cpp:1556-1776 | whatever was announced, an arriving frame goes to the encoder when it is idle and behind the waiting frames otherwise |
| `JpegBursts.DoneKeeps` | QCameraHWI_Still.cpp:271-345 | whatever was announced, a done-event frees the current frame and the next waiting one takes its place |
| `JpegBursts.AlwaysInOrder` | QCameraHWI_Still.cpp:1556-1776 | in every run, with any number of frames and of new requests: frames go to the encoder in arrival order, each once and one at a time, each is freed once done, none is overwritten, and a waiting frame implies a busy encoder |
| `JpegBursts.CallsExactly` | QCameraHWI_Still.cpp:1556-1776 | in every run, overlapping requests included, which call each event makes: a frame waits exactly when another is open, opens a session when the count is zero or as announced, and otherwise continues it; a done-event sends the next open frame, or finishes at the last picture counted, or nothing |
| `JpegBursts.RequestInOrder` | QCameraHWI_Still.cpp:1556-1776 | after any run that leaves nothing open, a request for m pictures adds one start, then encode-nexts, and the one finish exactly at the m-th picture, at every point of every interleaving of at most m arrivals |
| `JpegBursts.OneSessionEach` | QCameraHWI_Still.cpp:301-333 | requests that each find nothing open and see all their pictures through make one session each, in order: start, encode-nexts, finish |
| `JpegBursts.BurstInOrder` | QCameraHWI_Still.cpp:301-333 | with at most n frames the calls are one start, then encode-nexts, and the one finish exactly at the n-th picture |
| `JpegBursts.FullBurst` | QCameraHWI_Still.cpp:301-345 | a full burst makes one start, n - 1 encode-nexts and one finish, and frees all frames |
| `JpegBursts.FinishExactly` | QCameraHWI_Still.cpp:301-333 | after any run and a request for m pictures, and until the next request: a finish is issued if and only if the m-th done-event is about the only frame that has arrived and is not done |
| `JpegBursts.SecondRequestUnfinished` | QCameraHWI_Still.cpp:2135-2143 | two requests for one picture, the second while the first is encoded: both pictures are done and no finish is issued |
| `JpegBursts.SnapshotStream.EncodeData` | QCameraHWI_Still.cpp:1516-1777 | queue when the encoder is busy or others wait, otherwise encode-next for a waiting or later frame and start for the first; current frame and state change only when the encoder is called |
| `JpegBursts.SnapshotStream.ReceiveCompleteJpeg` | QCameraHWI_Still.cpp:271-345 | the current frame is given back and cleared, the count goes up, then the oldest waiting frame is encoded, or the session is finished and the count reset at n, or nothing |
| `JpegBursts.SnapshotStream.ResetCounters` | QCameraHWI_Still.cpp:2135-2143 | a number that is not positive counts as one, the count is zero, and frames, encoder and state are left alone |
| `JpegBursts.SnapshotStream.RequestZsl` | QCameraHWI_Still.cpp:1468-1468 | in ZSL mode the number is read again after the reset, as it is |
| `Denoising.FirstTaken` | QCameraHWI_Still.cpp:2611-2633 | the first waiting frame whose request is accepted |
| `Denoising.LaunchTakesFirst` | QCameraHWI_Still.cpp:2611-2633 | the relaunch loop frees the frames before that one, sends it and keeps the rest; with none it clears the flag |
| `Denoising.ReceiveKeeps` | QCameraHWI_Still.cpp:1956-1972 | an arriving frame is queued, sent or given back, and the invariant holds |
| `Denoising.ReportedIsOut` | QCameraHWI_Still.cpp:2539-2560 | a report can only be about the one frame that is out |
| `Denoising.LaunchKeeps` | QCameraHWI_Still.cpp:2611-2633 | the relaunch loop, with the flag still set and nothing out, leads back to the invariant |
| `Denoising.RunKeeps` | QCameraHWI_Still.cpp:1956-1972 | every run keeps the invariant |
| `Denoising.OneAtATime` | QCameraHWI_Still.cpp:2611-2633 | the flag is set exactly when one frame is with the daemon, never two; frames wait only then and go out in arrival order |
| `Denoising.EachFrameOnce` | QCameraHWI_Still.cpp:2544-2633 | each frame that arrived is waiting, out, encoded, given back or lost, once and in one place |
| `Denoising.FatesExactly` | QCameraHWI_Still.cpp:2544-2633 | one event: its frame is encoded exactly when so reported, given back exactly when its encoding failed or it was refused with nothing out, and lost when the report does not name it; the waiting frames before the first accepted are lost, and that one is sent |
| `Denoising.FatesInOrder` | QCameraHWI_Still.cpp:2544-2609 | in every run exactly the frames reported as encoded are encoded, and the refused or failed ones given back, each in the order of the events |
| `Denoising.LosesExactly` | QCameraHWI_Still.cpp:2621-2626 | a call loses no frame exactly when its report names the frame and the first relaunch is accepted |
| `Denoising.NothingLostExactly` | QCameraHWI_Still.cpp:2611-2633 | a run loses no frame if and only if every relaunch is accepted at the first try and every report names its frame |
| `Denoising.RefusedRelaunchLoses` | QCameraHWI_Still.cpp:2621-2626 | two frames and a relaunch refused for the second: it is neither encoded nor given back |
| `Denoising.DenoiseStage.ReceiveRaw` | QCameraHWI_Still.cpp:1956-1972 | with the flag set the frame is queued; otherwise it is sent and the flag set, or refused, given back and the flag cleared |
| `Denoising.DenoiseStage.NotifyDone` | QCameraHWI_Still.cpp:2537-2609 | the reported frame is encoded, given back or lost as the outcome says, then the next one is launched |
| `Denoising.DenoiseStage.LaunchNext` | QCameraHWI_Still.cpp:2611-2633 | the loop, whose measure is the queue length, loses the frames refused before the first one taken, sends that one, or clears the flag |
| `PreviewBuffers.SurfaceAccounts` | QCameraHWI_Preview.cpp:865-941 | handing a delivered buffer to the window keeps the account of its frames, whatever the calls answer |
| `PreviewBuffers.ReturnAccounts` | QCameraHWI_Preview.cpp:942-972 | dequeuing, locking and giving a buffer to the driver keeps the account |
| `PreviewBuffers.StepAgrees` | QCameraHWI_Preview.cpp:865-972 | one frame keeps flags and holders in agreement exactly when it is not a double enqueue refused the second time |
| `PreviewBuffers.GivenBackInOrder` | QCameraHWI_Preview.cpp:865-972 | for all answers, a failed lock at the start included: the driver gets each buffer's descriptors back in the order delivered, each once, the last one when it is due; and a buffer with the driver is locked if and only if its lock succeeded at the start or it has been given back since |
| `PreviewBuffers.ReportedExactly` | QCameraHWI_Preview.cpp:871-885 | the unlocked-buffer report is made for a buffer if and only if its lock failed at the start, for its first frame and no other |
| `PreviewBuffers.ReportMade` | QCameraHWI_Preview.cpp:168-176 | a start with a refused lock and a first frame make that report |
| `PreviewBuffers.FlagsAgreeExactly` | QCameraHWI_Preview.cpp:865-972 | from every start, NOT_OWNED means held by the window throughout a run if and only if no buffer is enqueued twice and refused the second time |
| `PreviewBuffers.AlwaysAgreeExactly` | QCameraHWI_Preview.cpp:905-925 | it means so in every run if and only if the counter, which nothing initializes, starts at zero or above |
| `FrameRates.CModShifts` | QCameraHWI_Preview.cpp:915-922 | the counter kept with the remainder of C, negative values included, counts frames modulo the rate |
| `FrameRates.CModSign` | QCameraHWI_Preview.cpp:915-922 | it is smaller than the rate, on the side of zero of the number, and differs from it by a multiple of the rate |
| `PreviewBuffers.ShownPattern` | QCameraHWI_Preview.cpp:905-931 | which frames of a run are displayed in a fixed 2x, 3x or 4x mode, from any counter |
| `PreviewBuffers.OneInK` | QCameraHWI_Preview.cpp:905-931 | exactly one of any k consecutive frames is displayed, from any counter |
| `PreviewBuffers.AllOrNone` | QCameraHWI_Preview.cpp:905-931 | with the mode off every frame is displayed, with an unknown mode none |
| `PreviewBuffers.PlainFrameShown` | QCameraHWI_Preview.cpp:930-941 | a frame delivered with frame skipping off, or with no mode in the parameters, is displayed and leaves the counter alone, in every state |
| `PreviewBuffers.PlainRunShown` | QCameraHWI_Preview.cpp:930-941 | in every run of such frames all are displayed and the counter stays |
| `PreviewBuffers.ShownExactly` | QCameraHWI_Preview.cpp:905-941 | for every delivery, in mixed runs too: whether its frame is displayed, and what becomes of the counter |
| `PreviewBuffers.HeldAfter` | QCameraHWI_Preview.cpp:865-972 | who holds each buffer after a frame, and whether it is locked, for all answers |
| `PreviewBuffers.HeldAfterStart` | QCameraHWI_Preview.cpp:156-211 | who holds each buffer after the buffers were to be acquired: all the HAL, or after a failure the earlier ones the window again, as far as their cancels succeed, and the failing one the HAL if it came |
| `PreviewBuffers.FailedStartLeavesNothing` | QCameraHWI_Preview.cpp:156-211 | a failed start leaves no buffer with the HAL if and only if the failing buffer never came and every cancel succeeds: one that came but could not be locked is kept |
| `PreviewBuffers.FailedStartKeeps` | QCameraHWI_Preview.cpp:156-211 | one buffer that comes and cannot be locked stays with the HAL |
| `PreviewBuffers.CancelledOnce` | QCameraHWI_Preview.cpp:262-292 | putting back cancels each buffer at most once, and exactly those owned and not stuck |
| `PreviewBuffers.PutBackReturns` | QCameraHWI_Preview.cpp:255-301 | each buffer the window does not hold is cancelled once unless it is stuck; once the record is cleared, its flag agrees with its holder if and only if the window held it before, or it was not stuck and its cancel succeeded |
| `PreviewBuffers.StuckBufferForgotten` | QCameraHWI_Preview.cpp:262-301 | a buffer that cannot be unlocked is not returned, and its cleared flag says that it is |
| `PreviewStreams.PreviewStream.GetBuffers` | QCameraHWI_Preview.cpp:156-211 | succeeds exactly when every buffer comes and is locked by the window; then each flag says whether its lock succeeded; otherwise the earlier buffers are cancelled in order and the record is cleared |
| `PreviewStreams.PreviewStream.Start` | QCameraHWI_Preview.cpp:1285-1374 | a start that succeeds leaves every buffer with the driver, the flags as the locks answered, and an empty history; one that fails behind the acquisition puts the buffers back; who then holds each buffer in both cases of failure |
| `PreviewStreams.PreviewStream.Clear` | QCameraHWI_Preview.cpp:209-209 | the record set to zero says NOT_OWNED for every buffer |
| `PreviewStreams.PreviewStream.CancelFirst` | QCameraHWI_Preview.cpp:185-208 | on failure each earlier buffer is cancelled exactly once, in order |
| `PreviewStreams.PreviewStream.PutBuffers` | QCameraHWI_Preview.cpp:255-301 | exactly the owned buffers that are not stuck are cancelled, in order, and the record is then cleared, stuck buffers included |
| `PreviewStreams.PreviewStream.ProcessFrame` | QCameraHWI_Preview.cpp:865-972 | flags, descriptors, counter, reports and holders after a frame is shown or skipped and another buffer is dequeued, locked and given to the driver |
| `PreviewStreams.PreviewStream.ShowOrSkip` | QCameraHWI_Preview.cpp:905-941 | counter, number of calls, answer used and holder for every mode |
| `HalStates.RunKeeps` | QCameraHWI.cpp:999-1371 | every sequence of calls keeps the invariant |
| `HalStates.EveryStep` | QCameraHWI.cpp:999-1371 | for each of the fourteen calls: what it keeps, and exactly when it breaks the agreement of state and streams |
| `HalStates.StartStreams` | QCameraHWI.cpp:1130-1151 | from an idle display stream, startPreview2 leaves the display stream (and in ZSL mode the snapshot stream) active exactly when it reports success |
| `HalStates.NeverStartedTwice` | QCameraHWI.cpp:999-1371 | for all calls and failures: an active preview implies STARTED or RECORDING, and the preview stream is never started while active |
| `HalStates.StopsTheDisplay` | QCameraHWI.cpp:1166-1235 | after stopPreview and after release no preview is active |
| `HalStates.EndStates` | QCameraHWI.cpp:999-1371 | for each of the five states, from every state: exactly which calls, with which answers, lead into it or stay in it |
| `HalStates.EndFlags` | QCameraHWI.cpp:2188-2229 | exactly which calls change the stored window, the due restart, ZSL mode and the wish for no display |
| `HalStates.EndHints` | QCameraHWI.cpp:1257-1343 | exactly which calls change the recording hint and the saved hint of the application, and to what |
| `HalStates.EndStreams` | QCameraHWI.cpp:1035-1371 | in every reachable state: which calls start each of the three streams and which stop it |
| `HalStates.NoWindowStartsAfterStop` | QCameraHWI.cpp:1184-1186 | stopPreview ends in STOPPED, in TAKE_PICTURE if it found that state, and a window set then is only stored |
| `HalStates.CancelledPicture` | QCameraHWI.cpp:1487-1522 | cancelPicture leaves TAKE_PICTURE and everything else, and stops the snapshot stream unless the camera reads as ready |
| `HalStates.StaysStopped` | QCameraHWI.cpp:999-1371 | from STOPPED the state and all streams stay over every run without startPreview and without a frame-rate change of a running camera |
| `HalStates.ShowingExactly` | QCameraHWI.cpp:1636-1739 | the preview is active exactly in STARTED and RECORDING throughout a run if and only if no picture start, recording restart or ZSL restart fails as described |
| `HalStates.PictureLosesPreview` | QCameraHWI.cpp:1683-1692 | a preview and a picture whose start fails leave the state STARTED with nothing displayed |
| `HalStates.RecordingExactly` | QCameraHWI_Parm.cpp:3030-3048 | the record stream is active exactly in RECORDING throughout a run if and only if no frame-rate change restarts the preview during recording |
| `HalStates.RateChangeForgetsRecording` | QCameraHWI_Parm.cpp:3038-3047 | preview, recording and a frame-rate change, all succeeding: the record stream runs in the state STARTED, stopRecording does nothing, neither stopPreview nor release stops it, and the next recording starts it again |
| `HalStates.EveryStepSnap` | QCameraHWI.cpp:1217-1235 | for each call, exactly when it leaves an active snapshot stream that belongs neither to a picture nor to an active ZSL preview |
| `HalStates.SnapOwnedExactly` | QCameraHWI.cpp:1003-1018 | in every run the snapshot stream is active only for a picture or with an active ZSL preview, if and only if it is not active at one of four calls: a preview started out of TAKE_PICTURE that is no ZSL preview or fails, leaving ZSL mode outside TAKE_PICTURE, a frame-rate change in TAKE_PICTURE outside ZSL mode, a release in TAKE_PICTURE that reads ready |
| `HalStates.OwnedIsStopped` | QCameraHWI.cpp:366-388 | while it is so owned, a release that does not read ready stops it, and stopPreview too unless a picture is taken |
| `HalStates.PreviewAfterPicture` | QCameraHWI.cpp:1003-1018 | preview, picture, preview outside ZSL mode, all succeeding: the snapshot stream runs on, neither stopPreview nor release stops it, and the next picture starts it again |
| `HalStates.ModeChangeForgetsSnapshot` | QCameraHWI_Parm.cpp:2605-2616 | a ZSL preview and another mode: the snapshot stream runs on, and neither stopPreview nor release stops it |
| `HalStates.StartedOnceExactly` | QCameraHWI.cpp:1290-1300 | the record stream is never started while active if and only if no recording is begun in STARTED with it still active, and the snapshot stream if and only if no picture and no ZSL preview starts it so |
| `HalStates.ZslTogetherExactly` | QCameraHWI.cpp:1130-1146 | from ZSL mode on, the snapshot and preview streams are active together and started once each throughout a run if and only if the run does not leave that mode |
| `HalStates.HardwareInterface.StartPreview2` | QCameraHWI.cpp:1035-1164 | in STARTED success and nothing changed; otherwise the streams after the start and whether it reports success, where a snapshot stream that fails stops the display stream again |
| `HalStates.HardwareInterface.StopPreviewInternal` | QCameraHWI.cpp:1217-1235 | the display stream stops, and the snapshot stream in ZSL mode only |
| `HalStates.HardwareInterface.StopRecordingInternal` | QCameraHWI.cpp:1344-1371 | the record stream stops and the state is STARTED |
| `HalStates.HardwareInterface.PausePreviewForZSL` | QCameraHWI.cpp:2607-2616 | when a restart is due the streams are stopped and started, and the state is STARTED whether or not that succeeded |
| `HalStates.HardwareInterface.Relaunch` | QCameraHWI_Parm.cpp:3041-3046 | streams stopped and started, and STARTED or START by the outcome |
| `HalStates.HardwareInterface.DoStartPreview` | QCameraHWI.cpp:999-1033 | only from STOPPED or TAKE_PICTURE: with a window or without display the streams start and the state says whether they did, else the state waits in START |
| `HalStates.HardwareInterface.DoStopPreview` | QCameraHWI.cpp:1166-1203 | the hint of the application is taken, a recording and the preview stop by the state found, and the state is STOPPED except in TAKE_PICTURE |
| `HalStates.HardwareInterface.DoStartRecording` | QCameraHWI.cpp:1257-1321 | only from STARTED: a preview with the hint off or a restart due is restarted with the hint on, then the record stream starts, and RECORDING is reached only if it does |
| `HalStates.HardwareInterface.DoStopRecording` | QCameraHWI.cpp:1323-1343 | only in RECORDING: the saved hint comes back, the record stream stops, and the state is STARTED |
| `HalStates.HardwareInterface.DoTakePicture` | QCameraHWI.cpp:1651-1704 | only in STARTED: in ZSL mode at most a due restart; otherwise the preview stops and TAKE_PICTURE is reached only if the snapshot stream starts |
| `HalStates.HardwareInterface.DoSetPreviewWindow` | QCameraHWI.cpp:2188-2229 | in START a window starts the preview; in STOPPED and TAKE_PICTURE it is only stored; in the other states it is refused |
| `HalStates.HardwareInterface.DoSetHighFrameRate` | QCameraHWI_Parm.cpp:3025-3050 | a camera that reads as running is restarted in any state, and the state is STARTED or START |
| `HalStates.HardwareInterface.DoCancelPicture` | QCameraHWI.cpp:1487-1522 | in TAKE_PICTURE the snapshot stream stops unless the camera reads as ready; the state stays |
| `HalStates.HardwareInterface.DoRelease` | QCameraHWI.cpp:366-409 | what runs in the state found is stopped, and the state is STOPPED |
| `EventTables.Find` | mm-camera-interface/mm_camera.c:751-772 | the first slot with the user data looked for |
| `EventTables.StepExactly` | mm-camera-interface/mm_camera.c:744-778 | one call keeps counts, mask and subscription in agreement if and only if it is not one of three: NULL user data that finds a slot, a refused first subscription, a refused last unsubscription |
| `EventTables.AgreeExactly` | mm-camera-interface/mm_camera.c:744-778 | the same over every run from the empty table |
| `EventTables.NullClientCounted` | mm-camera-interface/mm_camera.c:750-759 | a first client with NULL user data is counted and occupies no slot |
| `EventTables.OrderlyRun` | mm-camera-interface/mm_camera.c:699-778 | with real user data and a willing kernel, in every run: reg_count is the number of occupied slots, the mask bit is set exactly when it is positive, and the kernel is subscribed exactly when the mask is not zero |
| `EventTables.ThreadsAfter` | mm-camera-interface/mm_camera.c:714-738 | a call keeps one polling thread per non-zero mask exactly when it is orderly and does not leave one client of the only type where there were two |
| `EventTables.ThreadsExactly` | mm-camera-interface/mm_camera.c:734-738 | the same over every run: dropping from two clients to one launches a second polling thread |
| `EventTables.SecondThreadLaunched` | mm-camera-interface/mm_camera.c:734-738 | two clients of one type and the removal of one: two polling threads launched, none stopped |
| `EventTables.RegisterAdds` | mm-camera-interface/mm_camera.c:750-760 | a registration succeeds exactly below four clients and adds that client only |
| `EventTables.UnregisterRemoves` | mm-camera-interface/mm_camera.c:761-772 | a removal succeeds exactly when the user data is registered and takes one such registration away only |
| `EventTables.SlotChanged` | mm-camera-interface/mm_camera.c:749-772 | whatever the kernel answers, only the first free slot, or the first with the user data, changes: it takes the client, or is emptied |
| `EventTables.KernelExactly` | mm-camera-interface/mm_camera.c:707-731 | the subscriptions, the mask and the answer after the first registration of all and the last removal of all, for every answer of the kernel; no other call changes a subscription or reports its failure |
| `EventTables.ThreadsCounted` | mm-camera-interface/mm_camera.c:718-738 | a thread is launched for the first client of all and again from two clients of the only type to one, and stopped at the last removal of all, by no other call |
| `EventTables.CameraEvents.EvtSub` | mm-camera-interface/mm_camera.c:699-742 | at count 0 the bit is cleared, the kernel unsubscribed when it was the only bit, and the thread stopped when none is left; otherwise the kernel is subscribed when no bit was set, the bit is set, and a thread launched when it is the only one; an early failure leaves the mask alone |
| `EventTables.CameraEvents.RegEvent` | mm-camera-interface/mm_camera.c:744-778 | the first fitting slot is taken or cleared and the count follows; with a count of at most one the kernel side follows; the result is that of the last step made, or no slot |
| `SizeLists.DigitsRead` | QCameraHWI_Parm.cpp:462-467 | decimal digits have the value of the number they were printed from |
| `SizeLists.PrintedExactly` | QCameraHWI_Parm.cpp:462-467 | a number is printed with a minus sign exactly when it is below zero, without leading zero, and nothing else written so stands for it |
| `SizeLists.NumberSpelled` | QCameraParameters.cpp:254-258 | reading skips spaces, takes one sign and the digits up to the first other character, gives their value, or the nearest end of the range, and without digits 0 with nothing read |
| `SizeLists.NumberRead` | QCameraParameters.cpp:254-258 | a printed 32-bit number that no digit follows is read back, and reading stops behind it |
| `SizeLists.PairRead` | QCameraParameters.cpp:250-277 | a printed pair is read back, and the end pointer is behind it |
| `SizeLists.MissingSecondIsZero` | QCameraParameters.cpp:264-277 | a pair whose second number is missing is accepted with 0 for it |
| `SizeLists.MissingFirstIsZero` | QCameraParameters.cpp:250-277 | so is a pair whose first number is missing |
| `SizeLists.SizesRoundTrip` | QCameraParameters.cpp:279-302 | parsing a printed list gives the list back, for every list of pairs, empty and negative included; the text holds no character that a parameter may not |
| `SizeLists.ListWithRest` | QCameraParameters.cpp:286-301 | a printed list with something behind it: behind a comma reading goes on; any other character but a digit drops the last entry and keeps those before it |
| `SizeLists.PrintingIsInjective` | QCameraHWI_Parm.cpp:457-470 | different lists print differently |
| `SizeLists.EntryFits` | QCameraHWI_Parm.cpp:459-467 | no entry is longer than 24 characters, so the 32-byte buffer never truncates |
| `SizeLists.CreateSizesStr` | QCameraHWI_Parm.cpp:457-470 | the loop prints exactly the entries separated by commas |
| `SizeLists.ParseSizesList` | QCameraParameters.cpp:279-302 | the cursor loop appends exactly the sizes before the first malformed one |
| `SizeLists.TouchRoundTrip` | QCameraParameters.cpp:330-376 | a touch position that was set is read back, and the other key keeps its value |
| `SizeLists.NoTouchIndex` | QCameraParameters.cpp:337-376 | a missing key, or a number without the delimiter behind it, gives -1, -1 |
| `SizeLists.Parameters.SetTouchIndex` | QCameraParameters.cpp:330-335 | the printed pair is stored uncut |
| `SizeLists.Parameters.GetTouchIndex` | QCameraParameters.cpp:337-352 | -1, -1 when the string is missing or has no delimiter, else the two numbers |
| `FpsTables.TableUnique` | QCameraHWI_Parm.cpp:800-838 | the contents and the order fix the table |
| `FpsTables.AllRangesSorted` | QCameraHWI_Parm.cpp:115-126 | the ranges the code starts from are in order |
| `FpsTables.BuildTable` | QCameraHWI_Parm.cpp:795-838 | for every sorted source the table is strictly sorted, within capacity, and holds exactly the sensor range and the source ranges inside it |
| `FpsTables.Filter` | QCameraHWI_Parm.cpp:801-808 | the filter keeps exactly the ranges inside the sensor range, in order |
| `FpsTables.InsertIndex` | QCameraHWI_Parm.cpp:811-826 | the place that separates smaller from larger ranges, or -1 exactly when the sensor range is already there |
| `FpsTables.CoveredExactly` | QCameraHWI_Parm.cpp:2691-2693 | some entry covers a request exactly when the sensor range does |
| `FpsTables.StoredExactly` | QCameraHWI_Parm.cpp:2691-2720 | a request inside the sensor range is stored whatever the answer and valid or not, any other leaves the state as it was, and without a table nothing is stored |
| `FpsTables.AnsweredExactly` | QCameraHWI_Parm.cpp:2669-2736 | a request is accepted if and only if it repeats the stored range, or is valid and the camera takes it for the last covering entry |
| `FpsTables.LastInsideStored` | QCameraHWI_Parm.cpp:2669-2736 | after any requests, with any answers, the stored range is the last requested one inside the sensor range, or the one stored at first |
| `FpsTables.AcceptedExactly` | QCameraHWI_Parm.cpp:2669-2736 | a changed request that the camera takes is accepted if and only if it is a valid range inside the sensor range |
| `FpsTables.RejectedIsStored` | QCameraHWI_Parm.cpp:2693-2727 | a rejected request leaves the stored range alone if and only if it is outside the sensor range; otherwise it is stored, and repeating it succeeds |
| `FpsTables.ExchangedEndsAreStored` | QCameraHWI_Parm.cpp:2697-2727 | such a request exists for every sensor with two different ends |
| `FpsTables.FpsControl.constructor` | QCameraHWI_Parm.cpp:787-845 | the parameters start with the table of the sensor and its own range |
| `FpsTables.FpsControl.SetPreviewFpsRange` | QCameraHWI_Parm.cpp:2669-2736 | the loop over all entries stores and answers as the last covering entry does |
| `PlaneSizes.Masked` | QCamera_Intf.h:36-46 | anding with a mask of bits k to n - 1 keeps those bits |
| `PlaneSizes.PaddingRounds` | QCamera_Intf.h:36-37 | the padding macros round up to 4 and 2048 if and only if the sum stays below 2^32 |
| `PlaneSizes.CeilingRounds` | QCamera_Intf.h:42 | CEILING16 rounds up to 16 if and only if its argument is at most 65520, and loses at least 65536 beyond |
| `PlaneSizes.FrameLen` | mm-camera-interface/mm_camera_helper.c:186-260 | the switch fills the planes of every format and returns their sum; in 3D mode only the first plane is set |
| `PlaneSizes.PlanesPadded` | mm-camera-interface/mm_camera_helper.c:186-260 | every plane of every format is the least multiple of its unit, 2K or a word, with room for its lines: the chroma plane of NV12 and NV21 for half the luma plane, of NV16 and NV61 for all of it, while dimensions are at most 65520 and sizes fit 32 bits |
| `PlaneSizes.CallbackFitsExactly` | QCameraHWI_Preview.cpp:998-1001 | a YV12 frame covers its callback if and only if it has at most 65520 pixels a line or no lines, and is longer by at most 3 * 2047 bytes |
| `Coordinates.ValidateAreas` | QCameraHWI_Parm.cpp:1852-1874 | true exactly when every area is the empty one or a proper rectangle with a weight in range |
| `Coordinates.MovedExactly` | QCameraHWI_Parm.cpp:1928-1932 | a mapped coordinate is the whole part of its distance from the corner, in exact arithmetic |
| `Coordinates.MovedInside` | QCameraHWI_Parm.cpp:1928-1932 | mapped coordinates keep their order, stay inside the extent and send its ends to its ends |
| `Coordinates.AreaInsidePreview` | QCameraHWI_Parm.cpp:1928-1940 | a valid area maps to a rectangle inside the preview with no negative extent, and the metering centre lies in it |
| `Coordinates.CentreInTheMiddle` | QCameraHWI_Parm.cpp:2040-2044 | the metering point is as far from one side as from the opposite one, or one pixel nearer to the left or the top |
| `Coordinates.NeverEmptyExactly` | QCameraHWI_Parm.cpp:1928-1934 | no valid area becomes empty if and only if the preview is at least 2000 pixels wide and high |
| `Coordinates.SplitClose` | QCameraHWI_Parm.cpp:4196-4209 | minutes and seconds stay below 60, and the split is short of the coordinate by less than 1/36,000,000 degree and never above |
| `Coordinates.SplitUnique` | QCameraHWI_Parm.cpp:4196-4209 | these bounds fix the split, so it undoes the sum of degrees, minutes and seconds |

## Left out

- Frame ids that wrap around: the code rules this out at the frame rates in use, and arrivals are assumed to increase within a stream.
- A negative watermark or interval: both come from settings that are read as integers (QCameraHWI_Parm.cpp:3920-3944) and are taken to be zero or more.
- The locks: every step runs with both channel mutexes held, so steps are atomic here; the release of a stream between two steps is a call that does nothing, and the flush of its queue is not modelled.
- Reference counts behind `buf_done` (mm-camera-interface/mm_camera_stream.c:775-799): giving a frame back is one entry in a log.
- The callback table of a channel: a delivered pair is handed to one client, and a callback that re-enters the library is not modelled.
- Raw, non-ZSL snapshot, video and live-shot notify paths, 3D mode: mostly copying of callback tables.
- Encoder errors, aborts and a stop during encoding: they flush the queue without accounting for its frames.
- JpegBursts.SnapshotStream.EncodeData: calls to the encoder succeed, and parameters, EXIF data and thumbnails are not modelled.
- JpegBursts.SnapshotStream.ReceiveCompleteJpeg: the path of a cancelled picture is not modelled.
- Teardown of the denoise stage, which flushes its queue, and the three messages of one request: a request is accepted or refused as a whole.
- StreamQueues.StreamQueue.Dequeue: the wait on an empty queue is not modelled; both users look first.
- PreviewStreams.PreviewStream.ProcessFrame: a dequeued handle is given by its index in the table, and the overflow of the frame counter after 2^31 frames is not modelled.
- PreviewStreams.PreviewStream.Start: preparing the buffers, the operation mode and the start of streaming succeed or fail as one, and the driver has the buffers only when all succeed.
- Geometry, usage and count calls on the window before buffers are acquired: they fail before any buffer moves.
- `mCameraState`: channel events change it at any time, so what setHighFrameRate and cancelPicture read from it is a parameter.
- HalStates.HardwareInterface.DoTakePicture: live shots during recording leave the state and the three streams as they are and are not modelled.
- The thread behind event polling: only how often it is launched and stopped; opening and closing a camera are not modelled.
- SizeLists.Parameters.SetTouchIndex: the parameter map of the base class, which refuses values with `=` or `;`, is a plain map; `SizesRoundTrip` shows that printed lists hold neither.
- Long integers are taken as 32 bits wide in `strtol`.
- FpsTables.FpsControl.SetPreviewFpsRange: the frame-rate mode and the packed value sent to the camera are not modelled, only the answer.
- PlaneSizes.FrameLen: sums and products are not wrapped to 32 bits; `CallbackFitsExactly` asks that they fit.
- Coordinates.SplitClose: the rounding of `float` is not modelled; arithmetic is exact.
- Parsing of area strings, and the areas after the first, which the code does not use.
- The older 7x27A files, the display and memory wrappers, one-table parameter setters, EXIF tags, logging and dumps: older copies, pass-through calls and table look-ups that keep no state of their own.
