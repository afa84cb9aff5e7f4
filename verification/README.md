# Verification of the edge vision runtime

The repository watches cameras: a capture process and an inference process share frames through a
double buffer in shared memory, a scheduler batches the newest frames of all cameras for one
detector, a tracker follows people from frame to frame, pose requests wait in a bounded priority
queue, and foot points are tested against zones. This project models those state machines in Dafny
and proves what they guarantee over every run.

`dafny verify dfyconfig.toml` checks everything.

## How it is organised

| part | files |
| --- | --- |
| Kalman filter | `Reals`, `Matrices`, `KalmanFilter`, `XyahFilter`, `KalmanStart`, `Boxes` |
| ByteTrack tracker | `Lists`, `TrackerSpec` (one frame on values), `TrackerRuns`, `TrackerReports`, `TrackerMatches`, `TrackerAssignments`, `TrackerBoxes`, `TrackerMemory` (theorems), `ByteTracker` (the mutable tracker) |
| Double buffer | `FrameSlots`, `BufferTurns` (one uninterrupted call on values), `SharedMemory` (the classes), `DoubleBuffer` (single accesses, interleaved), `DoubleBufferRuns`, `DoubleBufferLiveness`, `DoubleBufferTurns` (theorems) |
| Scheduler | `LatestFrames`, `ResultQueue`, `SchedulerSpec` (one call on values), `SchedulerIntake`, `SchedulerRuns`, `SchedulerOutputs`, `SchedulerBreaker`, `SchedulerSkips`, `SchedulerFairness`, `RateLimits` (theorems), `SharedScheduler` (the class) |
| Pose requests | `Heaps`, `PoseQueueSpec` (a multiset), `PoseQueue` (the array heap), `PhaseTwo` (throttle and worker), `PoseRequests` (theorems) |
| Zones | `Polygons`, `PolygonBounds`, `PolygonInside`, `RoiZones`, `RoiMargins` |
| Letterbox | `Letterbox`, `LetterboxBoxes` |

Code that changes state is a class whose methods are proved equal to functions on values; the
theorems are about those functions, over all inputs and all runs.

### Choices that matter for reading the theorems

- **Numbers.** Floats are real numbers. The square root of the edge length in the zone test is
  replaced by comparing squares.
- **Assignment.** `linear_sum_assignment` is any function that returns as many pairs as the smaller
  side has members, no row and no column twice. The tracker theorems hold for all of them, except
  those of `TrackerAssignments`, which are about solvers whose assignments are cheapest.
- **The double buffer** is a step system: each read or write of a state flag, of a dimension and of
  a single pixel byte is one step of one process, in any order. The result record (text, slot
  number and sequence number) is read and written in one step. There is one capture thread and one
  inference thread per camera; the inference side attaches once, and its constructor runs the reset
  again because the frame counter it looks at is never written. No exception is raised between
  taking a result and freeing its slot.
- **The scheduler** is driven by a sequence of moments, one per access it makes to a buffer, to the
  result queue or to the clock. Before each access the cameras may publish any number of frames and
  the consumer may take any number of results; the clock does not run backwards. A buffer's methods
  are single steps, as they hold its lock. Each buffer is registered under its own camera id.
- **Histories.** `entries`, `turns`, `produced`, `kept`, `opens`, `sources`, `lostFrames` and the
  pose queue's `history` record what happened so that theorems can speak of whole runs; nothing is
  decided by them.

### Where the code does not do what one might expect

- A slot stays LOCKED for good exactly when its unread result is lost: overwritten by a later
  result, or, not surviving the result segment (too long, say), polled in vain. Overwriting costs
  one slot at most. While both processes keep running and frames fit and are not empty, the
  camera's previews with detections stop for good exactly when the capture side polls an
  undecodable result of one slot while the other slot is already lost; so after an overwritten
  result one undecodable result is enough.
- `find_filled` prefers the first slot: a frame in the second can wait while any number of results
  for the first are drawn. And while a slot is free, frames that do not fit keep the capture side
  from polling, as the size check raises before it.
- The scheduler skips frames exactly when a camera publishes between its finding an older frame
  stale and its asking the buffer for the sequence number. It takes note of the newer number, and
  the frames in between are never delivered. They are still accounted for.
- `BoundedPoseQueue.put` lets an older request displace a newer one of the same priority when the
  queue is full, and exactly then a queue that held the best requests no longer does. With
  requests in order of time that does not happen, and the queue then holds exactly the best.
- The bounding rectangle of the zones can miss an accepted foot point. For vertices on whole
  pixels a margin is safe if and only if it is at least 1. For other vertices and no frame size it
  is safe if and only if it is at least 3. With a frame size no margin is safe, the default 16
  included: both the corner and the width are truncated, so that the last pixel column can be cut
  off. With a margin of at least 3, all zones whose vertices span a given box (not flat, and meeting
  the frame) are safe if and only if along each axis the rectangle starts on a whole pixel, or the
  vertices keep two pixels away from the frame's far side, or lie beyond it.
- The letterbox's error bound of half a step fails exactly when a side of the frame shrinks below
  half a pixel.

## Model

| member | source | states |
|---|---|---|
| KalmanFilter.InitiateIsHealthy | edge_runtime/tracking/byte_tracker.py:30-45 | a new track's covariance is symmetric, its four (component, velocity) pairs are uncorrelated, and each pair's 2x2 block is positive definite |
| KalmanFilter.PredictedMean | edge_runtime/tracking/byte_tracker.py:47-64 | prediction moves each component by its velocity and keeps the velocity |
| KalmanFilter.BlockIsPropagated | edge_runtime/tracking/byte_tracker.py:47-64 | on a paired covariance the 8x8 prediction is four independent two-state predictions |
| KalmanFilter.PredictStaysHealthy | edge_runtime/tracking/byte_tracker.py:47-64 | prediction keeps the covariance symmetric, paired and positive definite |
| Matrices.SolveIsTheSolution | edge_runtime/tracking/byte_tracker.py:78-81 | a matrix solves the gain's linear system exactly when it is the one computed here, so any correct solver agrees |
| KalmanFilter.BlockIsCorrected | edge_runtime/tracking/byte_tracker.py:66-85 | on a paired covariance the 8x8 update is four independent two-state updates |
| KalmanFilter.CorrectedBlockIsPositive | edge_runtime/tracking/byte_tracker.py:78-84 | the gain is strictly between 0 and 1, the updated block is positive definite, and its variance is the parallel sum of prior and measurement variance |
| KalmanFilter.CorrectIsSound | edge_runtime/tracking/byte_tracker.py:66-85 | the matrix solved is never singular, the update keeps the covariance healthy, each updated component lies between its prediction and its measurement, and every entry of the mean moves by exactly its covariance over the innovation variance times the innovation |
| KalmanFilter.HealthyIsPositiveDefinite | edge_runtime/tracking/byte_tracker.py:66-85 | symmetric, paired and block-wise positive means positive definite as a full 8x8 quadratic form |
| KalmanFilter.EveryRunIsPositiveDefinite | edge_runtime/tracking/byte_tracker.py:21-85 | from initiate on, over every sequence of predictions and updates, the covariance is symmetric and positive definite and the next update can solve its system |
| KalmanStart.FirstCorrection | edge_runtime/tracking/byte_tracker.py:30-85 | after initiate and one prediction, whatever the track's size, the first update moves centre and height 105/121 of the way to the measurement and gives them 25/121 of the way as velocity |
| KalmanStart.FirstAspectCorrection | edge_runtime/tracking/byte_tracker.py:30-85 | the same update moves the aspect 2000001/102000001 of the way |
| Boxes.BoxRoundTrip | edge_runtime/tracking/byte_tracker.py:88-105 | converting a box to the filter's form and back keeps it exactly when it is not flatter than 1e-6 |
| Boxes.IouIsAProperMeasure | edge_runtime/tracking/byte_tracker.py:108-113 | overlap is symmetric, lies in [0, 1] and is 1 for a box of positive area against itself |
| Boxes.IouIsSharedOverCovered | edge_runtime/tracking/byte_tracker.py:108-113 | overlap times the area the two boxes cover together is the greatest area of a box inside both, and overlap is 0 when they cover none |
| TrackerSpec.AcceptedIsMatching | edge_runtime/tracking/byte_tracker.py:237-259 | the accepted pairs match distinct tracks to distinct detections, and a pair is accepted if and only if it is assigned and reaches the overlap threshold, whatever the assignment |
| TrackerSpec.Stage | edge_runtime/tracking/byte_tracker.py:225-265 | one association stage is a one-to-one matching of exactly the pairs that the solver assigns and whose boxes overlap by at least the threshold |
| TrackerSpec.UnmatchedAreDistinct | edge_runtime/tracking/byte_tracker.py:180-187 | no track is aged twice |
| TrackerSpec.UnmatchedAreTheRest | edge_runtime/tracking/byte_tracker.py:180-187 | the tracks aged are exactly those matched in neither stage |
| TrackerSpec.SecondMatches | edge_runtime/tracking/byte_tracker.py:180-186 | low-score detections only go to tracks that were TRACKED and that the first stage left over, and among these to exactly the pairs assigned that overlap enough |
| TrackerRuns.UpdateKeepsStateOk | edge_runtime/tracking/byte_tracker.py:156-211 | after every update ids strictly increase in list order and stay below the next id, a track is TRACKED exactly when it was matched this frame, every LOST one has age 1 to track_buffer, none is REMOVED |
| TrackerRuns.OnlyOldTracksLeave | edge_runtime/tracking/byte_tracker.py:192-211 | a track leaves the list if and only if it took no detection and is older than track_buffer |
| TrackerRuns.IdsNeverReturn | edge_runtime/tracking/byte_tracker.py:196-211 | an id that has left the list never comes back, over any run |
| TrackerReports.ReportsAreBacked | edge_runtime/tracking/byte_tracker.py:164-223 | each reported track is backed by its own detection of this frame, whose score and class it carries; every high-score detection backs exactly one, and low-score ones neither create tracks nor revive LOST ones; a new id has the box the filter starts with, an old one its prediction corrected by that detection |
| TrackerMatches.HighPairIsReported | edge_runtime/tracking/byte_tracker.py:237-262 | in every update, whatever the solver, a track assigned a high detection that its prediction overlaps by the threshold is reported under its old id with that detection's score and class |
| TrackerMatches.LowPairIsReported | edge_runtime/tracking/byte_tracker.py:174-187 | so is a TRACKED track without such a high detection that is assigned a low one it overlaps enough |
| TrackerMatches.OldIdIsReportedExactly | edge_runtime/tracking/byte_tracker.py:164-187 | an old id is reported if and only if its track has one of these two kinds of pair |
| TrackerMatches.UnclaimedIsReported | edge_runtime/tracking/byte_tracker.py:198-211 | the k-th high detection that no track goes on with is reported under the k-th new id |
| TrackerMatches.LoneHighDetection | edge_runtime/tracking/byte_tracker.py:164-223 | one track and one high detection, every solver: the report is exactly the old id when prediction and detection overlap by the threshold, and exactly the next id otherwise |
| TrackerMatches.LoneLowDetection | edge_runtime/tracking/byte_tracker.py:174-187 | one track and one low detection, every solver: exactly the old id is reported when the track was TRACKED and overlaps enough, and nothing otherwise |
| TrackerAssignments.DominantIsPaired | edge_runtime/tracking/byte_tracker.py:237-242 | a pair whose cost undercuts its row, its column and every exchange is in every cheapest assignment |
| TrackerAssignments.StandingOutKeepsId | edge_runtime/tracking/byte_tracker.py:225-262 | with a solver of cheapest assignments, a track that overlaps a high detection by the threshold, and by more than any rival of the track and any rival of the detection together, keeps its id with it |
| TrackerBoxes.InitiateKeepsBox | edge_runtime/tracking/byte_tracker.py:30-45 | a new track has its detection's box if and only if that is not flatter than 1e-6 |
| TrackerBoxes.FirstPredictionStands | edge_runtime/tracking/byte_tracker.py:47-64 | the first prediction leaves a new track's box where it is |
| TrackerBoxes.UpdateIsBetween | edge_runtime/tracking/byte_tracker.py:251-255 | the corrected box has its centre and height between those of the prediction and of the detection |
| TrackerBoxes.ReportsAreWhereSeen | edge_runtime/tracking/byte_tracker.py:156-223 | every report with a new id has exactly the box of the detection behind it, unless that is flatter than 1e-6; every other one has centre and height between its prediction and its detection |
| TrackerMemory.TracksAreBounded | edge_runtime/tracking/byte_tracker.py:156-223 | the number of stored tracks never exceeds the number of detections over the low threshold in the last track_buffer + 1 frames |
| XyahFilter.UpdatesAreSound | edge_runtime/tracking/byte_tracker.py:251-255 | the tracker's filter corrects every healthy estimate by any box without meeting a singular system, and the result is healthy and lies between prediction and measurement |
| ByteTracking.Track.constructor | edge_runtime/tracking/byte_tracker.py:116-125 | a new track has the given fields and is TRACKED |
| ByteTracking.ByteTracker.constructor | edge_runtime/tracking/byte_tracker.py:135-154 | a new tracker has no tracks, next id 1 and frame 0 |
| ByteTracking.ByteTracker.PredictTracks | edge_runtime/tracking/byte_tracker.py:161-162 | every candidate is predicted in place |
| ByteTracking.ByteTracker.Take | edge_runtime/tracking/byte_tracker.py:249-260 | a track that takes a detection is corrected, carries its score and class, and is TRACKED as of this frame |
| ByteTracking.ByteTracker.ApplyPairs | edge_runtime/tracking/byte_tracker.py:243-262 | the loop over the assigned pairs corrects exactly the accepted tracks and returns exactly their rows and columns |
| ByteTracking.ByteTracker.Associate | edge_runtime/tracking/byte_tracker.py:225-265 | one association stage in place: matched tracks are corrected, and the unmatched tracks and detections come back in order |
| ByteTracking.ByteTracker.MatchAll | edge_runtime/tracking/byte_tracker.py:170-187 | both stages in place equal the plan on values, with the leftover tracks in the order the program ages them |
| ByteTracking.ByteTracker.MarkMissing | edge_runtime/tracking/byte_tracker.py:192-196 | tracks left over become LOST, or REMOVED when they are older than the buffer |
| ByteTracking.ByteTracker.Spawn | edge_runtime/tracking/byte_tracker.py:198-211 | every unclaimed high detection becomes a new track with the next id, appended in order |
| ByteTracking.ByteTracker.DropRemoved | edge_runtime/tracking/byte_tracker.py:211 | exactly the REMOVED tracks leave the list |
| ByteTracking.ByteTracker.ReportMatched | edge_runtime/tracking/byte_tracker.py:212-223 | filtering by the recorded ids reports exactly the TRACKED tracks |
| ByteTracking.ByteTracker.Update | edge_runtime/tracking/byte_tracker.py:156-223 | the whole in-place update equals one frame on values, keeps every invariant, and reports exactly the TRACKED tracks |
| FrameSlots.WriteThenRead | shared/memory.py:131-194 | what write_frame stores, read_frame gives back; the other slot is untouched |
| FrameSlots.TextRoundTrip | shared/memory.py:205-236 | a text survives the result segment exactly when it is 3 to 8191 bytes long and contains no NUL; of any other a prefix is read, or nothing |
| BufferTurns.StepPublishes | inference/inference_worker.py:37-69 | step locks the slot it read, publishes under its number what the segment keeps of that slot's encoded detections, all of them exactly when they survive, and counts the sequence up |
| BufferTurns.ExchangeIsExact | edge/capture_loop.py:151-200 | from any state with a free slot: if the encoded detections survive the result segment, they are drawn on exactly the frame written there, and its slot is free again; if not, nothing is drawn and the slot stays LOCKED; the next frame is in the other slot if that was free |
| SharedMemory.FrameBuffer.constructor | shared/memory.py:78-85 | attaching resets slots and result whenever the frame counter is 0 |
| SharedMemory.FrameBuffer.PickFree | shared/memory.py:123-129 | the first FREE slot |
| SharedMemory.FrameBuffer.WriteFrame | shared/memory.py:131-158 | stores dimensions and pixels and marks the slot FILLED, or changes nothing when the frame is too large |
| SharedMemory.FrameBuffer.FindFilled | shared/memory.py:160-166 | the first FILLED slot |
| SharedMemory.FrameBuffer.Acquire | shared/memory.py:168-173 | only the slot's state changes, to LOCKED |
| SharedMemory.FrameBuffer.ReadFrame | shared/memory.py:175-194 | the slot's image, or nothing for an empty one |
| SharedMemory.FrameBuffer.Release | shared/memory.py:196-201 | only the slot's state changes, to FREE |
| SharedMemory.FrameBuffer.WriteResult | shared/memory.py:205-213 | stores the truncated, NUL-terminated text and the slot number, and counts the sequence up |
| SharedMemory.FrameBuffer.ReadResult | shared/memory.py:215-235 | a result exactly when the sequence is new and the text decodes; the sequence is taken note of either way |
| SharedMemory.CaptureDisplay.HandleFrame | edge/capture_loop.py:151-200 | one call on the segments equals the function on their contents, including the error for a frame that is too large |
| SharedMemory.InferenceWorker.Step | inference/inference_worker.py:37-69 | one call on the segments equals the function on their contents |
| DoubleBuffer.NextKeepsInv | shared/memory.py:123-235 | every single access of either process keeps the ownership invariant |
| DoubleBufferRuns.EveryRunIsSafe | edge/capture_loop.py:151-189 | in every interleaving each result is drawn on exactly the image it was computed from, and while results can be decoded at most one slot is stranded |
| DoubleBufferRuns.OnlyFreeSlotsAreWritten | shared/memory.py:123-158 | an image or its dimensions only ever change by the capture side, in a slot that is FREE: never FILLED or LOCKED |
| DoubleBufferRuns.SlotsOnlyCycle | shared/memory.py:123-201 | a slot only moves FREE to FILLED to LOCKED to FREE, each move by the process entitled to it |
| DoubleBufferRuns.StrandedExactlyByLoss | shared/memory.py:205-235 | an access strands a slot if and only if it loses the unread result that would have freed it |
| DoubleBufferRuns.StrandedForGood | shared/memory.py:196-235 | a stranded slot stays LOCKED over every continuation |
| DoubleBufferRuns.SecondIsLostByPolling | shared/memory.py:205-235 | when at most one slot is stranded, an access strands the second if and only if it polls an undecodable result of the other slot |
| DoubleBufferRuns.HaltsExactlyByFatalPoll | shared/memory.py:205-235 | over every run from the start, both slots are stranded if and only if some poll of the run was such a fatal one |
| DoubleBufferRuns.BothStrandedIsTheEnd | edge/capture_loop.py:153-189 | with both slots stranded nothing is drawn and no slot changes ever again |
| DoubleBufferRuns.AliveStaysAlive | inference/inference_worker.py:39-65 | as long as results can be decoded, a second slot is never stranded |
| DoubleBufferRuns.OversizedFramesStopPolling | edge/capture_loop.py:153-159 | while a slot is free, frames that do not fit keep the capture side from polling: over every run nothing is read or drawn |
| DoubleBufferLiveness.EveryAccessHelps | shared/memory.py:123-235 | every access frees or loses a slot, brings that closer, or belongs to the process whose turn it is not and sets nothing back |
| DoubleBufferLiveness.NeverBlocks | shared/memory.py:123-235 | from any state with at most one slot stranded, under every fair schedule of frames that fit and as long as no poll is fatal, some slot is freed later, whatever becomes of the results |
| DoubleBufferLiveness.OtherSlotKeepsCycling | shared/memory.py:123-235 | with one slot stranded, under every such schedule, the other slot is freed again and again |
| DoubleBufferLiveness.SlotsAreFreedExactly | shared/memory.py:123-235 | from the start, under every fair schedule of frames that fit, slots are freed again and again if and only if no poll is ever fatal |
| DoubleBufferLiveness.DrawsForeverExactly | edge/capture_loop.py:151-189 | from the start, under every fair schedule of frames that fit and are not empty, the number of results drawn passes every bound if and only if no poll is ever fatal |
| DoubleBufferLiveness.DecodableIsNeverFatal | shared/memory.py:205-235 | if all results can be decoded, no poll is ever fatal |
| DoubleBufferTurns.WriteFrameAlone | shared/memory.py:131-158 | the single accesses of write_frame add up to writing the whole frame |
| DoubleBufferTurns.CaptureAlone | edge/capture_loop.py:153-156 | undisturbed, the capture side's accesses store the frame in the first free slot or nowhere |
| DoubleBufferTurns.InferAlone | inference/inference_worker.py:39-65 | undisturbed, the inference side's accesses lock, read, detect and publish the first filled slot |
| DoubleBufferTurns.DrawAlone | edge/capture_loop.py:159-189 | undisturbed, the capture side's accesses draw the pending result on its image and free the slot |
| DoubleBufferTurns.OneSlotCanBeStranded | shared/memory.py:205-235 | the bound of one stranded slot is attained, by two results published between two polls |
| DoubleBufferTurns.OneGarbledResultCanHaltTheCamera | shared/memory.py:205-235 | a run from the start in which a single undecodable result, after an overwritten one, strands both slots |
| DoubleBufferTurns.SecondSlotCanWait | shared/memory.py:160-166 | for every n a run from the start in which n + 1 results for frames of the first slot are drawn while a frame in the second slot waits |
| LatestFrames.PublishBalances | edge_runtime/capture/latest_frame_buffer.py:88-97 | publishing keeps published = delivered + dropped + stale + pending, and leaves one frame pending |
| LatestFrames.ReadBalances | edge_runtime/capture/latest_frame_buffer.py:107-128 | a read keeps that account if and only if it does not ask for a frame already taken |
| LatestFrames.PublishThenRead | edge_runtime/capture/latest_frame_buffer.py:67-128 | a published frame is the one read next, under the next number, if and only if that number is unseen and its age within the limit; an unread one before it is counted as dropped, a late one as stale, and it is read once |
| LatestFrames.LatestFrameBuffer.constructor | edge_runtime/capture/latest_frame_buffer.py:27-50 | an empty buffer with all counters zero |
| LatestFrames.LatestFrameBuffer.Publish | edge_runtime/capture/latest_frame_buffer.py:67-97 | replaces the slot by the frame and its times, counts an unread one as dropped, or changes nothing when the frame is too large |
| LatestFrames.LatestFrameBuffer.ReadLatest | edge_runtime/capture/latest_frame_buffer.py:99-128 | delivers the newest frame published, bit by bit, or nothing when it is not new or too old; counters move accordingly |
| ResultQueue.PutKeepsAccount | edge_runtime/inference/scheduler.py:228-235 | whenever the consumer takes, the queue has room when the result is put, every loss is counted, and order is kept |
| ResultQueue.PutLosesExactly | edge_runtime/inference/scheduler.py:228-235 | a put loses a result if and only if it finds the queue full and the consumer leaves some until the drop; then exactly the oldest queued one is lost and counted |
| ResultQueue.SharedQueue.PutLatest | edge_runtime/phase2_runtime.py:139-146 | the bounded put of the pose runtime on its queue equals the put on values, whatever the consumer takes in between |
| SchedulerIntake.ReadTurnOfCamera | edge_runtime/inference/scheduler.py:212-223 | reading a camera keeps its account, with publishes at every point in between, including between the stale test and the sequence read |
| SchedulerIntake.TurnCollects | edge_runtime/inference/scheduler.py:205-225 | a turn collects at most one packet: newer than anything seen of its camera, at least the interval after its last one, scheduled at the clock of that moment |
| SchedulerIntake.CollectKeepsIntake | edge_runtime/inference/scheduler.py:196-226 | a batch keeps every camera's account, holds exactly the packets collected, never exceeds the batch size, and stops only when it is full or every camera had its turn |
| SchedulerRuns.DeliverProduces | edge_runtime/inference/scheduler.py:177-186 | delivering a result appends exactly it to those produced and keeps the queue's account and bound |
| SchedulerRuns.DeliverIsPut | edge_runtime/inference/scheduler.py:177-186 | delivering is that put of the built result, with the consumer's takes between its accesses |
| SchedulerOutputs.RunOncePairs | edge_runtime/inference/scheduler.py:141-188 | a call whose pipeline answers in time, with one output a frame, produces one result for each frame it collected, in order, the k-th with the k-th frame and the k-th output; any other call produces none and loses the frames it collected |
| SchedulerOutputs.ResultsCarryTheirAnswers | edge_runtime/inference/scheduler.py:141-188 | over every run, each result produced carries what the pipeline answered for that very frame in the call that collected it |
| SchedulerOutputs.TakenCarryTheirAnswers | edge_runtime/inference/scheduler.py:190-194 | so does every result the consumer takes |
| SchedulerOutputs.AgeIsElapsed | edge_runtime/inference/scheduler.py:178-185 | the age a result is given is the time since its frame was captured, or 0 if that is in the future |
| SchedulerRuns.FailingKeepsBreaker | edge_runtime/inference/scheduler.py:159-169 | a failed batch keeps the circuit breaker's invariant, opening it when it is one too many |
| SchedulerRuns.RunOnceKeepsSystem | edge_runtime/inference/scheduler.py:141-188 | one run_once keeps all accounts, orders and bounds, whatever pipeline, cameras and consumer do |
| SchedulerRuns.EveryFrameIsAccounted | edge_runtime/inference/scheduler.py:196-226 | over every run, each camera's published = delivered + dropped + stale + pending, and consumed is at most last-seen, which is at most the sequence |
| SchedulerRuns.EveryResultIsAccounted | edge_runtime/inference/scheduler.py:141-188 | over every run, collected = processed + frames of failed batches, processed = taken + dropped + queued, and the queue keeps its bound |
| SchedulerRuns.ResultsComeInOrder | edge_runtime/inference/scheduler.py:177-194 | over every run, the frame ids of each camera strictly increase in the results taken |
| SchedulerRuns.OnlyNewFramesAreCollected | edge_runtime/inference/scheduler.py:212-225 | no frame at or below what was once seen of a camera is ever collected again |
| SchedulerSkips.SkipsExactly | edge_runtime/inference/scheduler.py:212-223 | reading a camera takes note of frames it has not read if and only if the newest frame was unseen and too old and the sequence number has grown by the later access; the frames skipped are those in between |
| SchedulerSkips.SkippedIsNeverCollected | edge_runtime/inference/scheduler.py:212-223 | over every run, none of the frame ids skipped at any turn of any call is ever collected afterwards |
| SchedulerSkips.FrameCanBeSkipped | edge_runtime/inference/scheduler.py:212-223 | a scheduler of one camera skips the second frame that camera publishes |
| SchedulerRuns.BreakerHolds | edge_runtime/inference/scheduler.py:141-171 | over every run, consecutive failures stay below the threshold, failed batches are at least threshold times openings plus consecutive failures, openings are a reset time apart, and no frame is scheduled within a reset time after an opening |
| SchedulerBreaker.CallMoves | edge_runtime/inference/scheduler.py:141-171 | a call without a batch leaves the breaker alone, a success resets its count, and a failure adds one and opens the circuit if and only if that completes the threshold |
| SchedulerBreaker.BreakerIsExact | edge_runtime/inference/scheduler.py:141-171 | over every run, the count is the number of failures since the last success less whole thresholds, the circuit was opened exactly by the failures that complete another threshold, and all failures are counted |
| SchedulerRuns.CameraRateIsLimited | edge_runtime/inference/scheduler.py:205-225 | over every run, at most span / interval + 1 frames of a camera are scheduled in any window |
| SchedulerRuns.DueAndFreshIsCollected | edge_runtime/inference/scheduler.py:205-225 | the camera whose turn it is enters the batch if and only if it has no interval or was scheduled that long ago, and its newest frame is unseen and fresh; and then with that frame |
| SchedulerRuns.NobodyStarves | edge_runtime/inference/scheduler.py:196-226 | every camera's turn comes within ceil(n / min(n, B)) collections, wherever a run starts |
| SchedulerFairness.FedCameraIsServed | edge_runtime/inference/scheduler.py:196-226 | a camera that is due, having no interval or having been scheduled that long ago, and that publishes a fresh frame before every access has a frame collected within ceil(n / min(n, B)) collections, wherever a run starts |
| SharedScheduler.SharedInferenceScheduler.constructor | edge_runtime/inference/scheduler.py:96-123 | the fields of a new scheduler show the initial state |
| SchedulerRuns.BeginIsInitial | edge_runtime/inference/scheduler.py:105-123 | the state the constructor shows is an initial one for the theorems, when the buffers are unread |
| SharedScheduler.SharedInferenceScheduler.GetResult | edge_runtime/inference/scheduler.py:190-194 | takes the oldest queued result, if any |
| SharedScheduler.SharedInferenceScheduler.CheckCamera | edge_runtime/inference/scheduler.py:205-225 | one round of the collecting loop on the fields equals the turn on values |
| SharedScheduler.SharedInferenceScheduler.CollectBatch | edge_runtime/inference/scheduler.py:196-226 | the loop on the fields equals collecting on values |
| SharedScheduler.SharedInferenceScheduler.PutResult | edge_runtime/inference/scheduler.py:228-235 | building and queueing a result on the fields equals delivering on values, drop included |
| SharedScheduler.SharedInferenceScheduler.CountFailure | edge_runtime/inference/scheduler.py:159-169 | the except branch on the fields equals the failed batch on values |
| SharedScheduler.SharedInferenceScheduler.RunOnce | edge_runtime/inference/scheduler.py:141-188 | one call on the fields equals run_once on values and keeps the whole system's invariant |
| Heaps.TopIsLeast | edge_runtime/inference/scheduler.py:38-42 | the first item of a heap comes before or with every other, by rank and then time |
| Heaps.RaiseStep | edge_runtime/inference/scheduler.py:64 | exchanging an item with its parent moves the only disorder up |
| Heaps.SinkStep | edge_runtime/inference/scheduler.py:86 | moving the smaller child into the hole keeps the order everywhere else |
| PoseQueue.WorstIndex | edge_runtime/inference/scheduler.py:66-72 | the first position of a request of highest rank and, within it, of lowest time |
| PoseQueue.BoundedPoseQueue.constructor | edge_runtime/inference/scheduler.py:48-54 | an empty queue |
| PoseQueue.BoundedPoseQueue.SiftDown | edge_runtime/inference/scheduler.py:64 | raising the last item restores the heap and permutes it |
| PoseQueue.BoundedPoseQueue.SiftUp | edge_runtime/inference/scheduler.py:86 | letting an item sink to a leaf and rise again restores the heap below it and permutes it |
| PoseQueue.BoundedPoseQueue.Heapify | edge_runtime/inference/scheduler.py:78 | any list becomes a heap of the same items |
| PoseQueue.BoundedPoseQueue.HeapPush | edge_runtime/inference/scheduler.py:64 | the heap gains exactly the item |
| PoseQueue.BoundedPoseQueue.HeapPop | edge_runtime/inference/scheduler.py:86 | a least item leaves the heap, and only it |
| PoseQueue.BoundedPoseQueue.Put | edge_runtime/inference/scheduler.py:56-80 | the heap refines the multiset queue: store when there is room, else reject a request of lower priority than the worst, else replace the worst; `dropped` counts the last two |
| PoseQueue.BoundedPoseQueue.Get | edge_runtime/inference/scheduler.py:82-86 | a least request is taken, or None exactly when the queue is empty |
| PoseQueueSpec.NothingVanishes | edge_runtime/inference/scheduler.py:56-86 | over every run from any contents, each request held at the start or offered is taken, lost or held, with its multiplicity |
| PoseQueueSpec.SizeIsBounded | edge_runtime/inference/scheduler.py:56-86 | over every run the queue holds at most maxsize, offered = taken + lost + held in number, and `dropped` is the number lost |
| PoseQueueSpec.AcceptedAreAccounted | edge_runtime/inference/scheduler.py:56-86 | over every run, accepted = taken + evicted + held, and dropped = rejected + evicted |
| PoseQueueSpec.PutDecides | edge_runtime/inference/scheduler.py:56-80 | a put is stored if and only if there is room; otherwise the request to go is a least urgent one and the oldest of those, and the newcomer is turned away if and only if that one is more urgent: HIGH over MEDIUM over LOW |
| PoseQueueSpec.PutKeepsBest | edge_runtime/inference/scheduler.py:62-80 | a put on a queue holding the best requests keeps it so if and only if it does not displace a newer request of the same priority |
| PoseQueueSpec.LatePutSpoilsBest | edge_runtime/inference/scheduler.py:62-80 | with room for one, an older request displaces a newer one of the same priority, and the queue no longer holds the best |
| PoseQueueSpec.PutsKeepTheBest | edge_runtime/inference/scheduler.py:56-80 | after any run of puts in order of time, from any contents, the queue holds exactly the maxsize best: no request left out is more urgent (HIGH over MEDIUM over LOW) than one held, or newer at the same priority |
| PoseQueueSpec.BestIsUnique | edge_runtime/inference/scheduler.py:66-72 | two best selections differ only between requests of the same priority and time |
| PoseQueueSpec.GetsComeInOrder | edge_runtime/inference/scheduler.py:82-86 | between puts, a later request is never more urgent than an earlier one, nor older at the same priority |
| PhaseTwo.Phase2Runtime.RequestPoses | edge_runtime/phase2_runtime.py:101-117 | the loop over a result's tracks equals the throttle on values and puts exactly the requests it allows, in order, with the worker taking requests in between |
| PoseRequests.RequestsAreForTheDue | edge_runtime/phase2_runtime.py:101-117 | a pose is asked for exactly those reports whose track was last accepted at least an interval ago and not yet in this result, in order, each with that track's camera, id, frame and box, the time, and MEDIUM priority |
| PoseRequests.RequestsAreRecorded | edge_runtime/phase2_runtime.py:101-117 | afterwards exactly the due tracks with an accepted request are recorded with the present time, and all others as before |
| PhaseTwo.PoseRateIsLimited | edge_runtime/phase2_runtime.py:101-117 | at most span / interval + 1 requests of one track are accepted in any window, whatever arrives and whatever the queue answers |
| PhaseTwo.Phase2Runtime.Drain | edge_runtime/phase2_runtime.py:122-128 | the worker's batch has at most eight requests, exactly the fresh ones of those taken, and fewer only when the queue is empty; with requests put before any of its gets, the queue goes through exactly those puts and gets, and what is taken after the last put is in queue order |
| PoseRequests.FreshAreInTime | edge_runtime/phase2_runtime.py:122-128 | the requests kept are exactly those whose frame is at most 10^9 ns old when they are taken, in order |
| Polygons.PointInPolygon | gpu/roi_checker.py:37-61 | the loop with its early return and toggled flag equals: some edge is near, or an odd number of edges is crossed |
| Polygons.FirstVertexDoesNotMatter | gpu/roi_checker.py:37-61 | the answer is the same from every starting vertex |
| Polygons.DirectionDoesNotMatter | gpu/roi_checker.py:37-61 | the answer is the same for the reversed vertex order |
| PolygonBounds.StraddlesAreEven | gpu/roi_checker.py:43-59 | a closed polygon crosses every horizontal level an even number of times |
| PolygonBounds.OddMeansBetween | gpu/roi_checker.py:56-57 | an odd number of crossings means an edge at the point's height on either side of it |
| PolygonBounds.NearIsWithinOne | gpu/roi_checker.py:48-54 | a point within the edge tolerance is less than a pixel outside the edge's own box |
| PolygonBounds.AcceptedIsWithinOne | gpu/roi_checker.py:37-61 | every accepted point is less than a pixel outside the vertices' box, and inside it when no edge is near |
| PolygonInside.CrossesExactly | gpu/roi_checker.py:56-57 | the ray crosses an edge at the point's height if and only if the point is strictly to the left of it, by the sign of the cross product |
| PolygonInside.NearExactly | gpu/roi_checker.py:48-54 | an edge is near if and only if the foot of the perpendicular from the point is on it and less than a pixel away |
| PolygonInside.ConvexAcceptsExactly | gpu/roi_checker.py:37-61 | for every strictly convex polygon in either direction and every point, the answer is yes if and only if some edge is near or the point is on the inner side of all edges |
| PolygonInside.TriangleIsConvex | gpu/roi_checker.py:37-61 | every triangle that is not flat is such a polygon |
| RoiZones.CollectCoordinates | gpu/roi_checker.py:14-21 | the nested loops collect the coordinates of all vertices of the enabled zones, in order |
| RoiZones.ComputeRoiBounds | gpu/roi_checker.py:6-34 | the rectangle from the extreme coordinates, the margin and the frame, truncated as int() does |
| RoiZones.ROIChecker.Reload | gpu/roi_checker.py:72-73 | the zones are replaced |
| RoiZones.ROIChecker.GetBounds | gpu/roi_checker.py:75-80 | the rectangle of the current zones |
| RoiZones.ROIChecker.CheckPerson | gpu/roi_checker.py:82-95 | exactly the enabled zones that accept the point, in order |
| RoiZones.ZonesAreThoseThatHold | gpu/roi_checker.py:82-95 | the zones found are the list of zones filtered by being enabled and accepting the point |
| RoiZones.BoundsHugTheZones | gpu/roi_checker.py:6-34 | there is a rectangle if and only if an enabled zone has a vertex; along each axis it starts at 0 or a margin before all vertices, no more than a pixel earlier than needed, and ends less than a pixel beyond the last vertex with its margin or the frame, and less than two pixels before the nearer of them |
| RoiZones.AcceptedIsInBounds | gpu/roi_checker.py:6-95 | every in-frame foot point check_person accepts lies inside the rectangle of get_bounds, for whole-pixel vertices and a margin of at least one |
| RoiZones.AcceptedIsAlmostInBounds | gpu/roi_checker.py:25-34 | with any vertices the rectangle misses an accepted in-frame point by less than two pixels |
| RoiMargins.MarginOneIsEnough | gpu/roi_checker.py:25-34 | a margin covers every accepted in-frame point of all zones with whole-pixel vertices, in every frame, if and only if it is at least one |
| RoiMargins.MarginThreeIsEnough | gpu/roi_checker.py:25-34 | without a frame size a margin covers every accepted point of all zones, whatever their vertices, if and only if it is at least three |
| RoiMargins.NoMarginIsEnoughInAFrame | gpu/roi_checker.py:25-34 | with a frame size no margin covers every accepted in-frame point of all zones |
| RoiMargins.FramedSquareEscapes | gpu/roi_checker.py:25-34 | the zone and the point that escape each margin in a frame; for the default 16 a square from 20.5 to 99.5 in a frame of 100 by 100 and the point (99.25, 50) |
| RoiMargins.ClearZonesAreCovered | gpu/roi_checker.py:25-34 | with a margin of at least three and a frame, the rectangle covers every accepted in-frame point when along each axis it starts on a whole pixel, or the vertices keep two pixels away from the frame's far side, or lie beyond it |
| RoiMargins.SpansAreSafeExactly | gpu/roi_checker.py:25-34 | among all zones whose vertices span a given box, not flat and meeting the frame, none has an accepted in-frame point outside the rectangle if and only if both axes meet that condition |
| RoiMargins.AcrossIsSafeExactly | gpu/roi_checker.py:27-32 | among all zones of a given span across that meet the condition down, in frames of any height, none has one if and only if the span meets it |
| RoiMargins.DownIsSafeExactly | gpu/roi_checker.py:28-32 | the same for a given span down |
| Letterbox.RoundingIsNear | edge_runtime/inference/pipelines/rtmdet.py:47-48 | rounding half to even moves a number by at most a half |
| Letterbox.ResizedFitsCanvas | edge_runtime/inference/pipelines/rtmdet.py:43-51 | the resized frame fits the canvas, is at least one pixel each way, and fills it completely on one side |
| Letterbox.RoundTripError | edge_runtime/inference/pipelines/rtmdet.py:43-54 | every coordinate of a side comes back within 1 / (2 scale) if and only if the scaled side is at least half a pixel |
| Letterbox.FrameRoundTripError | edge_runtime/inference/pipelines/rtmdet.py:43-54 | for a whole frame, with the sides and scale that preprocess returns, both coordinates of every point come back within that bound if and only if neither scaled side is shorter than half a pixel |
| Letterbox.SideComesBack | edge_runtime/inference/pipelines/rtmdet.py:78-84 | both ends of an object, reported where the resize put it, come back clipped within that bound, and an object longer than 1 / scale is not discarded |
| Letterbox.Postprocess | edge_runtime/inference/pipelines/rtmdet.py:56-86 | the loop keeps exactly the rows of persons over the threshold whose clipped box is not empty, in order; a length mismatch is an error |
| Letterbox.DetectionsAreInside | edge_runtime/inference/pipelines/rtmdet.py:73-86 | every detection returned is over the threshold, with an ordered box of positive area inside the frame |
| LetterboxBoxes.DetectedExactly | edge_runtime/inference/pipelines/rtmdet.py:73-86 | a row is shown if and only if it is a person over the threshold and its box, scaled back, meets the frame in a positive area; the detection has the row's score and, side by side, the nearest coordinates in the frame |
| LetterboxBoxes.DetectionsAreTheRowsShown | edge_runtime/inference/pipelines/rtmdet.py:73-86 | the detections are exactly those of the rows shown, each from one row and in order |
| LetterboxBoxes.ObjectIsFound | edge_runtime/inference/pipelines/rtmdet.py:43-86 | with the sides and scale that preprocess returns: a row that reports a person over the threshold where the resize put an object longer than 1 / scale each way yields a detection of that row, with its score and every side within 1 / (2 scale) of the object's |

## Left out

- Floating-point rounding, NaN and infinities: reals throughout.
- Wrap-around of the 64-bit sequence and counter fields.
- JSON encoding of results and `_build_result`: any pair of encode and decode functions stands for them, and a result that does not fit or parse is modelled as one that cannot be decoded.
- How `linear_sum_assignment` finds a cheapest assignment: that it does is a premise of `TrackerAssignments`, and nothing else depends on it.
- Restart of the inference process after its first acquire, several threads per process on one camera, and exceptions between taking a result and freeing its slot.
- Memory ordering of the shared segments below the level of single bytes, and `has_new_result`.
- The drawing, encoding and alerting that follow a result in `_handle_frame`, and the pause at the end of `step`.
- SharedScheduler.SharedInferenceScheduler.RunOnce: holds the cameras' buffers as values in a map, so that two names for one buffer object are not modelled; LatestFrames.LatestFrameBuffer is proved equal to those values, method by method.
- Latency metrics, threads, stop flags and sleeping of the scheduler and of the pose worker.
- The detector and pose networks, pixel resampling, normalisation, and `infer_frames`, which only pairs frames with outputs.
- JSON parsing of zone polygons, and zones whose text is malformed.
- Capture, supervision, streaming, alerting, storage and user interfaces around these parts.
