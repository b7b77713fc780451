# EdgeVision: a verified model

EdgeVision joins a camera thread, a scene builder, a viewer and a WebRTC streamer
through small hand-written components. This project models those components and
proves what they promise over every interleaving.

Each component comes in two layers. The first follows the code: classes with the
same fields, methods with the same branches and loops, each proved against a
function on plain values. The second takes those functions as the steps of a state
machine, at the grain at which the code takes and drops its locks, and proves
theorems about every run of it.

| Files | What they model |
| --- | --- |
| `SceneLock.dfy`, `SceneLockRuns.dfy` | the reader/writer lock of the shared scene: two policies, priority of a blocked read, versioned publication; any number of threads |
| `FrameModel.dfy`, `FrameStorage.dfy`, `FrameStoreRuns.dfy` | admission and the frame store: FIFO, two id sets, history with index, lifecycles; one submitter, one consumer, any acknowledger |
| `SdpFilter.dfy`, `SignallingServer.dfy`, `Negotiation.dfy`, `NegotiationRuns.dfy`, `NegotiationFields.dfy`, `NegotiationLimits.dfy` | the SDP filter, the signalling layer and the WebRTC session, with callbacks that may come after their session has gone; what each step leaves in the fields; what the session does not achieve, with exact conditions |
| `ViewConversion.dfy`, `SceneVersions.dfy`, `SceneBuilding.dfy`, `BuilderRuns.dfy` | view conversion, the version store, building one frame, and the builder thread beside the submitter |
| `ViewerStores.dfy`, `SceneViewing.dfy`, `ViewerRuns.dfy` | pose and output stores, the viewer's loop, and builder, viewer, other readers and clients together over the scene lock |
| `Capture.dfy`, `CaptureRuns.dfy` | from the camera to the builder with one ingestor |
| `SystemRuns.dfy` | submitter, builder, stores, lock, viewer and clients in one state machine |

Conventions. A wait on a condition variable splits its method: `Arrive` is the code
before it, `Admit` one evaluation of its predicate with the code that follows. Calls
into foreign libraries are oracles, that is, parameters that may be any value. Fields
such as a log of published outputs exist to state theorems. A scene's content is the
log of the changes made to it, and rendering is an arbitrary function of content and
request.

Results where the code does less than one might expect:

* `src/model/tests/model/scene/SharedScene.cpp:147-149` expects a blocked read to be
  granted before the next write. `BlockedReaderGoesFirstIff` says when it is, for both
  policies; under Balanced the priority belongs to whichever reader looks first
  (`PriorityIsTheFirstLook`), so one particular reader can wait through any number of
  writes (`OneReaderMayStarve`).
* A frame that is acknowledged before its dequeue has returned stays dispatched for
  ever (`StuckIffAcknowledgedEarly`, `StuckForEver`) and can fill the history. The
  builder thread never does that (`NothingGetsStuck`).
* Between the opening of a new client and its startup its messages act on the session
  of its predecessor (`MessageActsOnOwnSessionIff`, `EarlyMessageReachesOldSession`).
* The close after a negotiation timeout goes to whichever client is active by then
  (`TimeoutClosesItsClientIff`, `TimeoutMayCloseNewerClient`).
* A further answer arms the watchdog of a session that is already answered; if it does
  not parse the session times out while its media runs (`AnsweredSessionRearmedIff`,
  `SecondAnswerMayTimeOut`).
* A late connection-state callback switches the pushing of whatever session is live
  (`NotifySwitchesPushIff`). The pump stays shut until that session is answered
  (`PumpTakesOnlyAnswered`); after that a stale callback can open it
  (`StaleNotifyMayOpenPump`).
* A restarted Event loop may repeat its last output as cached (`RestartMayCache`).

## Model

| member | source | states |
|---|---|---|
| `SceneLock.SharedSceneState.ArriveRead` | src/model/src/scene/state/SceneAccessLease.cpp:50-53 | A read request that arrives during a write raises the priority flag; nothing else changes. |
| `SceneLock.SharedSceneState.AdmitRead` | src/model/src/scene/state/SceneAccessLease.cpp:55-58 | A read lease is granted exactly when the policy allows it; it records the current version, is counted and lowers the flag. A refused request changes nothing. |
| `SceneLock.SharedSceneState.ArriveWrite` | src/model/src/scene/state/SceneAccessLease.cpp:70-71 | A write request is counted as waiting. |
| `SceneLock.SharedSceneState.AdmitWrite` | src/model/src/scene/state/SceneAccessLease.cpp:72-75 | A write lease is granted exactly when nobody is inside and no blocked read has priority; it records the current version and stops being counted as waiting. |
| `SceneLock.SharedSceneState.Release` | src/model/src/scene/state/SceneAccessLease.cpp:33-42 | What a lease of either mode gives back, with the underflow guard. |
| `SceneLock.SharedScene.Publish` | src/model/src/scene/SharedScene.cpp:35-51 | Publication succeeds exactly for a write lease of this scene; it numbers the next version and moves the lease to it. Both failures change nothing. |
| `SceneLockRuns.StepKeepsInv` | src/model/src/scene/state/SceneAccessLease.cpp:28-82 | Every step of every interleaving keeps the whole lock invariant: exact counters, exclusion, current lease versions, a waiting reader behind a raised flag, no lost wake-up. |
| `SceneLockRuns.OnlyReleaseAdmitsSleepers` | src/model/src/scene/state/SceneAccessLease.cpp:28-45 | Under either policy no step but a release turns the predicate of a thread that stays asleep from false to true, and that release owes a notification. |
| `SceneLockRuns.StepKeepsWakeUps` | src/model/src/scene/state/SceneAccessLease.cpp:44-55 | No step loses a wake-up: a thread asleep although it could be admitted implies an owed notify_all; and a raised flag implies a waiting reader. |
| `SceneLockRuns.RunInvariant` | src/model/src/scene/state/SceneAccessLease.cpp:28-82 | The invariant holds at every state of every run, from the empty lock on. |
| `SceneLockRuns.DeadlockFree` | src/model/src/scene/state/SceneAccessLease.cpp:10-25 | With no lease out and somebody waiting, some waiting access would be admitted. |
| `SceneLockRuns.GrantIsNear` | src/model/src/scene/state/SceneAccessLease.cpp:44-72 | ... and it is at most one owed notification and one recheck away from its grant. |
| `SceneLockRuns.QuiescentWaitersHaveAHolder` | src/model/src/scene/state/SceneAccessLease.cpp:44-72 | When nobody is awake and nothing is owed, a waiting access implies that a lease is held. |
| `SceneLockRuns.CountersNeverUnderflow` | src/model/src/scene/state/SceneAccessLease.cpp:36-38 | A live read lease and a waiting write request are always counted, so the guard is never taken and no counter wraps. |
| `SceneLockRuns.WriteExcludesAll` | src/model/src/scene/state/SceneAccessLease.cpp:14-25 | While one access writes no other one reads or writes. |
| `SceneLockRuns.LeasesAreCurrent` | src/model/src/scene/SharedScene.cpp:47-50 | Every live lease, read or write, carries the current scene version, although publication changes it. |
| `SceneLockRuns.SnapshotStable` | src/model/src/scene/state/SceneAccessLease.cpp:55-58 | For the whole life of a read lease the scene version is the one it recorded. |
| `SceneLockRuns.ReadGrantBetweenWrites` | src/model/src/scene/state/SceneAccessLease.cpp:51-58 | If a read request arrives during a write, a read is granted before the next write, under both policies. |
| `SceneLockRuns.BalancedOvertakesOnce` | src/model/src/scene/state/SceneAccessLease.cpp:14-16 | Balanced: two read grants past a waiting writer have a write grant between them. |
| `SceneLockRuns.BlockedReaderFirst` | src/model/src/scene/state/SceneAccessLease.cpp:51-58 | A blocked reader goes before the next write if no other reader takes the grant. |
| `SceneLockRuns.FirstLookIsGranted` | src/model/src/scene/state/SceneAccessLease.cpp:10-25 | After the write is released the first read request that evaluates its predicate is granted, under either policy. |
| `SceneLockRuns.BlockedReaderGoesFirstIff` | src/model/src/scene/state/SceneAccessLease.cpp:51-74 | Under either policy a reader blocked by a write goes before the next one if and only if it evaluates its predicate before that write is granted and, under Balanced, it is the first reader to do so or no writer waits at that moment. |
| `SceneLockRuns.PriorityIsTheFirstLook` | src/model/src/scene/state/SceneAccessLease.cpp:14-16 | Balanced, with a writer waiting throughout: exactly one read is granted before the next write, to whichever read request evaluates its predicate first after the release. |
| `SceneLockRuns.OneReaderMayStarve` | src/model/src/scene/state/SceneAccessLease.cpp:51-53 | For every n there is a run in which one particular reader requests during a write and then waits through n writes: no bound holds for one reader. |
| `FrameModel.Validate` | src/model/src/frame/utils/FrameValidator.cpp:52-134 | Accepted exactly for a well-formed, strictly newer frame with room or something to evict; HistoryFull exactly when only the room is missing. |
| `FrameModel.VerdictInWords` | src/model/src/frame/utils/FrameValidator.cpp:52-134 | Ten complaints, each written out over the fields of the frame and the last accepted one; the verdict is the first of them that holds, and acceptance exactly when none does. |
| `FrameStorage.FrameHistory.Remove` | src/model/src/frame/state/FrameHistory.cpp:14-25 | Removes the first frame with the id from the deque and the id from the map; the latest frame stays remembered. |
| `FrameStorage.FrameHistory.Recent` | src/model/src/frame/state/FrameHistory.cpp:40-51 | The newest frames of the deque, oldest of them first, clamped to what is there. |
| `FrameStorage.FrameHistory.FindOldestEvictable` | src/model/src/frame/state/FrameHistory.cpp:73-83 | The id of the first frame that may be evicted. |
| `FrameStorage.WithoutAt` | src/model/src/frame/state/FrameHistory.cpp:15-22 | Removal cuts out exactly the first match and keeps the rest in order. |
| `FrameStorage.FirstWithAt` | src/model/src/frame/state/FrameHistory.cpp:76-82 | The search finds the first match, and none exactly when there is none. |
| `FrameStorage.FrameLifecycleTracker.RecordAcceptedReady` | src/model/src/frame/state/FrameLifecycleTracker.cpp:28-36 | The whole entry of an accepted frame. |
| `FrameStorage.FrameLifecycleTracker.RecordInvalid` | src/model/src/frame/state/FrameLifecycleTracker.cpp:38-49 | Records a rejected id unless it is zero or already known. |
| `FrameStorage.FrameLifecycleTracker.MarkDispatched` | src/model/src/frame/state/FrameLifecycleTracker.cpp:51-59 | A known id becomes dispatched; an unknown one changes nothing. |
| `FrameStorage.FrameLifecycleTracker.MarkConsumed` | src/model/src/frame/state/FrameLifecycleTracker.cpp:61-70 | A known id becomes consumed. |
| `FrameStorage.FrameLifecycleTracker.MarkFailed` | src/model/src/frame/state/FrameLifecycleTracker.cpp:72-81 | A known id becomes failed. |
| `FrameStorage.FrameLifecycleTracker.MarkDropped` | src/model/src/frame/state/FrameLifecycleTracker.cpp:83-91 | A known id becomes dropped. |
| `FrameStorage.ReadyFrameQueue.TryEnqueue` | src/model/src/frame/queue/ReadyFrameQueue.cpp:12-20 | Succeeds exactly below the capacity; then the frame is last in the FIFO and its id is ready. |
| `FrameStorage.ReadyFrameQueue.TryDequeue` | src/model/src/frame/queue/ReadyFrameQueue.cpp:22-32 | Takes the first frame, moving its id from ready to in flight; an empty queue is left alone. |
| `FrameStorage.ReadyFrameQueue.MarkCompleted` | src/model/src/frame/queue/ReadyFrameQueue.cpp:56-64 | Succeeds exactly for an id in flight, which then is not. |
| `FrameStorage.FrameStore.SubmitFrame` | src/model/src/frame/FrameStore.cpp:38-75 | Verdict and complete new state of a submission: rejected by validation, rejected by a full queue, or filed, queued and followed by eviction. |
| `FrameStorage.FrameStore.EvictOldFrames` | src/model/src/frame/FrameStore.cpp:173-191 | The loop evicts oldest-first, never the latest and never a protected frame, until the history fits or nothing may go. |
| `FrameStorage.FrameStore.RecordRejectedFrame` | src/model/src/frame/FrameStore.cpp:193-205 | A rejection touches only the lifecycle of an unknown id and the counters. |
| `FrameStorage.FrameStore.TryDequeueReadyFrame` | src/model/src/frame/FrameStore.cpp:92-101 | The first ready frame goes in flight and is marked dispatched. |
| `FrameStorage.FrameStore.MarkFrameConsumed` | src/model/src/frame/FrameStore.cpp:124-134 | Succeeds exactly for an id in flight; completes it, marks it, and evicts if needed. |
| `FrameStorage.FrameStore.MarkFrameFailed` | src/model/src/frame/FrameStore.cpp:136-146 | The same for a failed frame. |
| `FrameStoreRuns.StepKeepsInv` | src/model/src/frame/FrameStore.cpp:38-146 | Every micro-step of submission, dequeue and acknowledgement keeps the invariant that joins the FIFO, the two id sets, the deque, its map and the lifecycle map. |
| `FrameStoreRuns.BoundedHistory` | src/model/src/frame/FrameStore.cpp:41-52 | At every moment the history is within its bound, the map is exactly its index, and the frame accepted last is still stored. |
| `FrameStoreRuns.CommitEvictsVictim` | src/model/src/frame/FrameStore.cpp:45-72 | The check made before the push and the eviction made after it agree: a commit evicts nothing, or exactly the frame that the check had found. |
| `FrameStoreRuns.EvictsOnlyAcknowledged` | src/model/src/frame/FrameStore.cpp:173-191 | Only a submission evicts, at most one frame, and only a stored and acknowledged one. |
| `FrameStoreRuns.AcknowledgeEvictsNothing` | src/model/src/frame/FrameStore.cpp:131-145 | An acknowledgement never has anything to evict. |
| `FrameStoreRuns.UnacknowledgedFramesAreKept` | src/model/src/frame/FrameStore.cpp:92-122 | An accepted frame that nobody acknowledged is stored and protected, wherever it is between the queue and the consumer. |
| `FrameStoreRuns.DispatchFindsItsEntry` | src/model/src/frame/FrameStore.cpp:98-100 | Marking a dequeued frame as dispatched always finds its entry. |
| `FrameStoreRuns.ExactlyOnceInOrder` | src/model/src/frame/queue/ReadyFrameQueue.cpp:12-32 | What left the queue is a prefix of what entered it; ids and timestamps strictly increase; neither log is ever rewritten. |
| `FrameStoreRuns.Conservation` | src/model/src/frame/FrameStore.cpp:38-146 | Every accepted id is in exactly one place: queued, popped, in flight, consumed or failed; accepted frames are stored plus evicted. |
| `FrameStoreRuns.LifecycleExact` | src/model/src/frame/state/FrameLifecycleTracker.cpp:28-91 | The lifecycle map says exactly what has happened to each accepted frame. |
| `FrameStoreRuns.EntriesSayWhatHappened` | src/model/src/frame/state/FrameLifecycleTracker.cpp:28-91 | After every run there is one entry for every accepted frame and for every refused id but zero, and no other; every flag of every entry says what happened to its frame. |
| `FrameStoreRuns.LifecycleMovesForward` | src/model/src/frame/state/FrameLifecycleTracker.cpp:28-91 | A frame that is not acknowledged before its dequeue returns only moves forward through Ready, Dispatched, Consumed or Failed, Dropped, and no later rejection overwrites it. |
| `FrameStoreRuns.StuckIffAcknowledgedEarly` | src/model/src/frame/FrameStore.cpp:98-133 | A dequeued frame ends up dispatched for ever exactly when it was acknowledged before its dequeue returned. |
| `FrameStoreRuns.StuckForEver` | src/model/src/frame/FrameStore.cpp:98-133 | No step ever frees such a frame. |
| `FrameStoreRuns.StuckFramesFillHistory` | src/model/src/frame/FrameStore.cpp:45-52 | A history full of such frames accepts no submission. |
| `FrameStoreRuns.EarlyAcknowledgementLeaks` | src/model/src/frame/FrameStore.cpp:98-133 | Such a frame is reachable with any well-formed frame. |
| `FrameStoreRuns.AcceptedFramesAreWellFormed` | src/model/src/frame/utils/FrameValidator.cpp:52-134 | Every frame that was ever queued passed the admission checks. |
| `FrameStoreRuns.RejectionsAfter` | src/model/src/frame/FrameStore.cpp:52-66 | A submission is turned down at its validation or at its push, and no other step counts a rejection. |
| `FrameStoreRuns.CheckedQueueOnlyShrinks` | src/model/src/frame/FrameStore.cpp:52-58 | Between the check and the push other threads can only make room in the queue. |
| `FrameStoreRuns.PushInWords` | src/model/src/frame/FrameStore.cpp:52-66 | In every reachable state history and queue are within the configured limits, zero counting as one, and a push is turned down exactly if the queue is at its limit at that very step. |
| `FrameStoreRuns.RoomMayComeBeforePush` | src/model/src/frame/FrameStore.cpp:52-58 | A run in which the queue is full at the check and the frame goes in all the same. |
| `FrameStoreRuns.SubmissionWithoutInterference` | src/model/src/frame/FrameStore.cpp:38-75 | The micro-steps of a submission add up to the class method. |
| `FrameStoreRuns.DequeueWithoutInterference` | src/model/src/frame/FrameStore.cpp:92-101 | The micro-steps of a dequeue add up to the class method. |
| `SdpFilter.FilterRemoteAnswer` | src/streaming/webrtc/src/WebRtcServer.cpp:374-395 | The line loop computes the filtered text. |
| `SdpFilter.KeptExactly` | src/streaming/webrtc/src/WebRtcServer.cpp:384-392 | Of any list of lines the kept ones are exactly those that pass the test of the filter, each once and in order. |
| `SdpFilter.FilterInWords` | src/streaming/webrtc/src/WebRtcServer.cpp:374-395 | For every link and text, over the lines as they stand in it: the output has, in order and each ended by one carriage return, exactly the lines that do not start with "a=candidate:" and the candidate lines in which " udp " and " typ host", in any case, and the client address between blanks occur. |
| `SdpFilter.AllowedInWords` | src/streaming/webrtc/src/WebRtcServer.cpp:92-107 | The same condition, on indices into the text, says which remote and which local candidates pass. |
| `SdpFilter.RenderedRoundTrip` | src/streaming/webrtc/src/WebRtcServer.cpp:383-391 | Splitting a rendered text gives back its lines. |
| `SdpFilter.FilterKeepsExactlyTheSurvivors` | src/streaming/webrtc/src/WebRtcServer.cpp:374-395 | Re-reading the filtered text gives exactly the kept lines, for every text. |
| `SdpFilter.FilterIsIdempotent` | src/streaming/webrtc/src/WebRtcServer.cpp:374-395 | Filtering twice is filtering once, with and without a link. |
| `SdpFilter.EveryLineEndsInCrlf` | src/streaming/webrtc/src/WebRtcServer.cpp:374-395 | Every line of the filter's output ends in CRLF, for every text (section 5 of RFC 8866). |
| `SignallingServer.SignallingHandler.OnOpen` | src/streaming/webrtc/src/SignallingHandler.cpp:133-163 | The new client is active at once, its startup is posted, and the client it replaces is named. |
| `SignallingServer.SignallingHandler.OnClose` | src/streaming/webrtc/src/SignallingHandler.cpp:165-189 | Only the active client that closes is reported to the server. |
| `SignallingServer.SignallingHandler.CloseActiveClient` | src/streaming/webrtc/src/SignallingHandler.cpp:63-85 | Posts a close for whoever is active now, if anyone. |
| `SignallingServer.SignallingHandler.RunTask` | src/streaming/webrtc/src/SignallingHandler.cpp:73-84 | Tasks run in order, and each acts only if its client is still the active one. |
| `SignallingServer.TasksInWords` | src/streaming/webrtc/src/SignallingHandler.cpp:73-163 | A startup, a payload and a close do what they were posted for, for their own client, exactly if it is active and connected. |
| `Negotiation.WebRtcServer.ArmWatchdog` | src/streaming/webrtc/src/WebRtcServer.cpp:305-317 | Arms for the live session only. |
| `Negotiation.WebRtcServer.CheckWatchdog` | src/streaming/webrtc/src/WebRtcServer.cpp:329-340 | Reports the stage once the deadline has passed, and disarms. |
| `Negotiation.WebRtcServer.TearDownPipeline` | src/streaming/webrtc/src/WebRtcServer.cpp:1379-1424 | Nothing of the session is left. |
| `Negotiation.WebRtcServer.OnClientConnected` | src/streaming/webrtc/src/WebRtcServer.cpp:397-449 | The new session after any outcome of its setup calls; a failed setup leaves none. |
| `Negotiation.WebRtcServer.OnOfferCreated` | src/streaming/webrtc/src/WebRtcServer.cpp:506-563 | A missing offer tears down its own session; a stale one changes nothing. |
| `Negotiation.WebRtcServer.OnLocalDescriptionSet` | src/streaming/webrtc/src/WebRtcServer.cpp:622-660 | The offer is marked and sent exactly while its session and pipeline are current. |
| `Negotiation.WebRtcServer.OnAnswer` | src/streaming/webrtc/src/WebRtcServer.cpp:451-470 | An answer is taken exactly after a sent offer, and what is applied is the filtered text. |
| `Negotiation.WebRtcServer.OnRemoteAnswerApplied` | src/streaming/webrtc/src/WebRtcServer.cpp:719-750 | Applied answer, cleared watchdog, flushed candidates and started media, or a torn down session. |
| `Negotiation.WebRtcServer.StartMediaPipeline` | src/streaming/webrtc/src/WebRtcServer.cpp:752-770 | Succeeds when already started or when the pipeline plays. |
| `Negotiation.WebRtcServer.FlushPendingRemoteIce` | src/streaming/webrtc/src/WebRtcServer.cpp:1302-1315 | The loop hands over the pending candidates in order and empties the buffer. |
| `Negotiation.WebRtcServer.OnIceFromClient` | src/streaming/webrtc/src/WebRtcServer.cpp:1170-1194 | A candidate is dropped, buffered or handed over. |
| `NegotiationRuns.StepKeepsInv` | src/streaming/webrtc/src/WebRtcServer.cpp:397-770 | All 21 kinds of steps of the signalling thread, the callbacks and the pump keep the session invariant. |
| `NegotiationRuns.IceBufferingRefinesDirectDelivery` | src/streaming/webrtc/src/WebRtcServer.cpp:1170-1194 | Handed over plus pending is every admissible candidate of the session, in order; none before the remote description (section 3.5.2 of RFC 8829). |
| `NegotiationFields.PeerGetsEveryCandidate` | src/streaming/webrtc/src/WebRtcServer.cpp:1170-1194 | In every reachable state with the remote description applied the peer has been handed as many candidates as were received, in the same order, each with its own text and with its own media line index, modulo 2 to the 32. |
| `NegotiationFields.CandidatesWaitForTheAnswer` | src/streaming/webrtc/src/WebRtcServer.cpp:1188-1191 | Until then all of them are pending and none was handed over. |
| `NegotiationFields.ReceivedInWords` | src/streaming/webrtc/src/WebRtcServer.cpp:1170-1193 | A message counts as a received candidate exactly if its client is active, a session lives, it has a text and an index, and the direct link admits it. |
| `NegotiationFields.SetupInWords` | src/streaming/webrtc/src/WebRtcServer.cpp:397-449 | Every field of the session after a startup: the new session with its elements, client and first deadline five seconds away if all five setup calls succeed, nothing otherwise. |
| `NegotiationFields.DisconnectionInWords` | src/streaming/webrtc/src/WebRtcServer.cpp:1379-1424 | The close of the active client leaves no field of its session. |
| `NegotiationFields.FailuresEndTheSession` | src/streaming/webrtc/src/WebRtcServer.cpp:506-770 | A missing offer, an unanswered promise or media that will not play ends the session that it concerns. |
| `NegotiationFields.SuccessesAdvanceTheSession` | src/streaming/webrtc/src/WebRtcServer.cpp:506-770 | A promise that succeeds for the live session takes it to its next stage, with the deadline of that stage or, once answered, with none. |
| `NegotiationFields.AnswersInWords` | src/streaming/webrtc/src/WebRtcServer.cpp:451-470 | An answer changes something exactly if its client is active and an offer was sent; then it moves only the deadline. |
| `NegotiationFields.TimeoutsInWords` | src/streaming/webrtc/src/WebRtcServer.cpp:329-340 | The pump reports a timeout exactly from the deadline on, once, for the live session. |
| `NegotiationRuns.FlushDropsNothing` | src/streaming/webrtc/src/WebRtcServer.cpp:1302-1315 | The re-check in the flush drops none of them. |
| `NegotiationRuns.NegotiationOrder` | src/streaming/webrtc/src/WebRtcServer.cpp:532-770 | Media implies an applied answer, which implies a sent offer, which implies a live session with handles; no session marks two offers (section 3.2 of RFC 8829). |
| `NegotiationRuns.PumpTakesOnlyAnswered` | src/streaming/webrtc/src/WebRtcServer.cpp:1434-1441 | The video pump takes a source only from a session whose answer was applied. |
| `NegotiationRuns.StalePromiseIsHarmless` | src/streaming/webrtc/src/WebRtcServer.cpp:506-750 | A promise callback of another session changes nothing at all. |
| `NegotiationRuns.LocalIceRepliesForItsSession` | src/streaming/webrtc/src/WebRtcServer.cpp:1132-1168 | A local candidate is sent only for the session that found it, to its client, and only if it passes the local filter. |
| `NegotiationRuns.SessionOwnership` | src/streaming/webrtc/src/SignallingHandler.cpp:133-189 | A live session belongs to the active client, unless a newer client's startup or the disconnection is under way. |
| `NegotiationRuns.MessageActsOnOwnSessionIff` | src/streaming/webrtc/src/SignallingHandler.cpp:191-215 | Exactly when an answer or candidate message changes anything; what it changes is the live session, which is the sender's own exactly when the sender's startup has run. |
| `NegotiationLimits.EarlyMessageReachesOldSession` | src/streaming/webrtc/src/SignallingHandler.cpp:133-163 | A run in which the candidate of a new client lands in the session of the client before it. |
| `NegotiationRuns.SupersededClientIsInert` | src/streaming/webrtc/src/SignallingHandler.cpp:165-195 | A close or message of a client that is not active reaches no callback. |
| `NegotiationFields.ClosedForEver` | src/streaming/webrtc/src/SignallingHandler.cpp:165-189 | Over every run: once the close handler of a client has run it is never active again, nothing of it comes in, and no task left of it does anything. |
| `NegotiationRuns.SentOnlyToOwnClient` | src/streaming/webrtc/src/SignallingHandler.cpp:112-131 | A payload is for the one client of its session, and goes out exactly while that client is active. |
| `NegotiationRuns.WatchdogCoverage` | src/streaming/webrtc/src/WebRtcServer.cpp:305-340 | An armed watchdog names the live session; every live session is answered, watched, or already reported. |
| `NegotiationLimits.AnsweredSessionRearmedIff` | src/streaming/webrtc/src/WebRtcServer.cpp:451-464 | The watchdog of an answered session is armed again exactly by a further answer of the active client. |
| `NegotiationLimits.AnsweredSessionDisarmedIff` | src/streaming/webrtc/src/WebRtcServer.cpp:319-340 | While that session lives, it is disarmed exactly when an answer has been applied or when it fires. |
| `NegotiationLimits.SecondAnswerMayTimeOut` | src/streaming/webrtc/src/WebRtcServer.cpp:697-703 | A run in which a second answer does not parse and the watchdog fires for a session whose media runs. |
| `NegotiationLimits.TimeoutMayCloseNewerClient` | src/streaming/webrtc/src/WebRtcServer.cpp:1443-1445 | A run in which the close after a timeout goes to a newer client. |
| `NegotiationLimits.TimeoutClosesItsClientIff` | src/streaming/webrtc/src/WebRtcServer.cpp:1443-1445 | That close is for the client whose session timed out exactly while it is active. |
| `NegotiationLimits.NotifySwitchesPushIff` | src/streaming/webrtc/src/WebRtcServer.cpp:843-860 | In every reachable state a connection-state callback, of whichever session, sets the push flag of the live session and nothing else; it opens the pump exactly when it reports a connection, the flag was down, and media runs with its source. |
| `NegotiationLimits.StaleNotifyMaySwitchPush` | src/streaming/webrtc/src/WebRtcServer.cpp:843-860 | A run in which the callback of an old session raises the flag of a new session that is not answered yet. |
| `NegotiationLimits.StaleNotifyMayOpenPump` | src/streaming/webrtc/src/WebRtcServer.cpp:843-860 | A run in which it opens the pump of a new session that is answered, before any callback of that session. |
| `ViewConversion.SwizzleBgraRowToRgba` | src/builder/src/utils/InfiniTamViewConverter.cpp:30-64 | Batches of 16 pixels plus the scalar tail write exactly the swizzled row, for every width, with and without the vector loop. |
| `ViewConversion.SwizzleBatches` | src/builder/src/utils/InfiniTamViewConverter.cpp:41-53 | The vector loop does whole batches only and stops less than a batch before the end. |
| `ViewConversion.BatchExtendsRow` | src/builder/src/utils/InfiniTamViewConverter.cpp:42-52 | Loading four lanes, trading two and storing them again is 16 more pixels of the row. |
| `ViewConversion.CopyRgb` | src/builder/src/utils/InfiniTamViewConverter.cpp:105-112 | The strided rows become one packed image; every read and write is in bounds and every 32-bit product fits. |
| `ViewConversion.CopyDepth` | src/builder/src/utils/InfiniTamViewConverter.cpp:114-125 | The same for depths. |
| `ViewConversion.CopyFrameToView` | src/builder/src/utils/InfiniTamViewConverter.cpp:88-135 | Reports the first failed layout check with the view untouched, or fills the whole view. |
| `ViewConversion.RefusalsInWords` | src/builder/src/utils/InfiniTamViewConverter.cpp:93-103 | Which of the three failures is reported, over widths, heights and strides. |
| `ViewConversion.ViewPixel` | src/builder/src/utils/InfiniTamViewConverter.cpp:105-125 | For every convertible frame, row and column: the opaque, channel-swapped bytes that are stored, and the depth (data[k] + 256 * data[k + 1]) / 1000 with k = row * stride + 2 * column. |
| `ViewConversion.RgbPixel` | src/builder/src/utils/InfiniTamViewConverter.cpp:59-62 | The colour pixel at (row, column) of the packed image is the opaque, channel-swapped pixel at (row, column) of the strided one. |
| `ViewConversion.DepthPixel` | src/builder/src/utils/InfiniTamViewConverter.cpp:121-124 | The depth at (row, column) is the little-endian sample of two bytes at (row, column) over 1000. |
| `ViewConversion.ImageInsideBuffer` | src/model/src/frame/utils/FrameValidator.cpp:29-41 | What admission guarantees suffices for every strided read. |
| `SceneVersions.SceneVersionHistory.Add` | src/model/src/scene/state/SceneVersionHistory.cpp:7-11 | Appends to the deque, files in the map, becomes the latest. |
| `SceneVersions.SceneVersionHistory.Remove` | src/model/src/scene/state/SceneVersionHistory.cpp:13-25 | Removes the first version with the id, and the id. |
| `SceneVersions.SceneVersionStore.Add` | src/model/src/scene/SceneVersionStore.cpp:17-29 | Adds, then trims the oldest until the capacity holds. |
| `SceneVersions.StoreHoldsTheLast` | src/model/src/scene/SceneVersionStore.cpp:17-29 | After any number of versions the store holds exactly the newest, and its map is exactly their index. |
| `SceneVersions.GetAnswersTheLast` | src/model/src/scene/SceneVersionStore.cpp:36-39 | A lookup succeeds exactly for those. |
| `SceneBuilding.LostTrackingChangesNothing` | src/builder/src/state/SceneBuilder.cpp:35-46 | The exit for lost tracking never follows a reset of pipeline or scene. |
| `SceneBuilding.InfiniTamPipeline.PrepareView` | src/builder/src/state/InfiniTamPipeline.cpp:28-36 | Whatever the view was before, it ends with the frame's size and, if the layout is right, with the frame's pixels; a refused frame of the same layout leaves it alone. |
| `SceneBuilding.InfiniTamPipeline.EnsurePipelineForScene` | src/builder/src/state/InfiniTamPipeline.cpp:38-47 | Sets the pipeline up anew on the first frame and on a change of either size, and resets the scene on the first frame only; SystemRuns.AskedExactly says on runs, without this function, when that happens. |
| `SceneBuilding.SceneBuilder.BuildUnderLease` | src/builder/src/state/SceneBuilder.cpp:33-57 | A frame whose tracking is lost leaves no trace; any other is integrated, published as the next version and recorded, and the lease is released either way. |
| `BuilderRuns.StepKeepsInv` | src/builder/src/SceneBuilderRunner.cpp:66-83 | Every interleaving of submissions with dequeue, build, record and acknowledge keeps the builder's invariant. |
| `BuilderRuns.VersionsAreConsecutive` | src/builder/src/state/SceneBuilder.cpp:49-57 | Recorded versions are 1, 2, 3, ... and name strictly newer frames. |
| `BuilderRuns.LookupsFindTheNewest` | src/model/src/scene/SceneVersionStore.cpp:17-39 | A version id is found exactly if it is among the newest `capacity` ones, and the answer is what was recorded. |
| `BuilderRuns.RecordedFrameIsStored` | src/builder/src/state/SceneBuilder.cpp:55-57 | When a version is recorded the frame it names is stored and protected. |
| `BuilderRuns.AcknowledgementSucceeds` | src/builder/src/SceneBuilderRunner.cpp:73-80 | Every acknowledgement succeeds. |
| `BuilderRuns.ConsumedMeansRecorded` | src/builder/src/SceneBuilderRunner.cpp:73-80 | Between two frames the consumed frames are exactly those that a version names. |
| `BuilderRuns.NothingGetsStuck` | src/builder/src/SceneBuilderRunner.cpp:66-83 | The runner acknowledges only what its dequeue returned, so no frame gets stuck. |
| `BuilderRuns.BuilderSeesWellFormedFrames` | src/builder/src/SceneBuilderRunner.cpp:67-73 | What reaches the builder passed admission, so the view conversion is safe. |
| `ViewerStores.MultiplyRowMajor` | src/model/src/viewer/ViewerPoseStore.cpp:15-33 | The three loops compute the row-major product. |
| `ViewerStores.IdentityIsNeutral` | src/model/src/viewer/ViewerPoseStore.cpp:15-33 | The identity pose is neutral. |
| `ViewerStores.ProductEntry` | src/model/src/viewer/ViewerPoseStore.cpp:15-33 | Every entry of a product is the written-out sum of four products. |
| `ViewerStores.ProductAssociates` | src/model/src/viewer/ViewerPoseStore.cpp:15-33 | The product is associative. |
| `ViewerStores.ViewerPoseStore.Update` | src/model/src/viewer/ViewerPoseStore.cpp:49-62 | A pose is filed under its own generation, or the next free one if that is not newer. |
| `ViewerStores.ViewerPoseStore.ResetRelativeBaseline` | src/model/src/viewer/ViewerPoseStore.cpp:64-73 | The baseline becomes the latest pose, or none. |
| `ViewerStores.ViewerPoseStore.ApplyRelativePose` | src/model/src/viewer/ViewerPoseStore.cpp:75-100 | A relative pose is applied to the baseline and filed, unless it repeats the latest request. |
| `ViewerStores.RelativeMoveInWords` | src/model/src/viewer/ViewerPoseStore.cpp:83-84 | Every entry of the pose asked for after a relative move is the written-out sum of products of the relative pose, on the left, and the baseline; size and intrinsics are those of the baseline. |
| `ViewerStores.MovesCompose` | src/model/src/viewer/ViewerPoseStore.cpp:64-84 | Moving by a, rebasing and moving by b asks for what one move by b * a asks for. |
| `ViewerStores.MovesFileUnlessRepeated` | src/model/src/viewer/ViewerPoseStore.cpp:75-100 | A move changes nothing exactly without a baseline or if the latest request is already what it asks for; otherwise its generation is new. |
| `ViewerStores.FilingInWords` | src/model/src/viewer/ViewerPoseStore.cpp:49-62 | A pose keeps a generation that is free and takes the next free one otherwise; the next one follows. |
| `ViewerStores.RelativePosesDoNotAccumulate` | src/model/src/viewer/ViewerPoseStore.cpp:83-84 | Between two rebases only the last relative pose counts, however many came before. |
| `ViewerStores.IdentityAfterRebaseIsNoOp` | src/model/src/viewer/ViewerPoseStore.cpp:83-88 | After a rebase the identity asks for nothing new. |
| `ViewerStores.RenderOutputStore.Publish` | src/model/src/viewer/RenderOutputStore.cpp:13-22 | The history is the newest part of everything published. |
| `ViewerStores.RenderOutputStore.Recent` | src/model/src/viewer/RenderOutputStore.cpp:29-42 | The newest outputs still held, oldest of them first. |
| `SceneViewing.SceneViewer.RenderPose` | src/viewer/src/SceneViewer.cpp:42-62 | An invalid request publishes nothing; a valid one is rendered, compared with the latest output and published. |
| `SceneViewing.SceneViewerRunner.Iterate` | src/viewer/src/SceneViewerRunner.cpp:72-109 | What one iteration renders under either policy, and every counter after it. |
| `SceneViewing.RenderableInWords` | src/viewer/src/SceneViewer.cpp:14-30 | Which requests are rendered: sizes from 1 to 16384, finite intrinsics, positive focal lengths, no negative centre. |
| `SceneViewing.FoundInWords` | src/viewer/src/SceneViewerRunner.cpp:72-91 | HotLoop takes the latest pose, Event only one that is newer than the last rendered. |
| `ViewerRuns.StepKeepsInv` | src/viewer/src/SceneViewer.cpp:50-61 | All 17 kinds of steps of builder, viewer, other readers and clients keep the invariant that ties versions to contents and generations to requests. |
| `ViewerRuns.ReaderSeesPublishedContent` | src/viewer/src/SceneViewer.cpp:50-52 | Under a read lease the scene is what its version was published with. |
| `ViewerRuns.CachedMeansIdentical` | src/viewer/src/SceneViewer.cpp:54-60 | In every run an output is marked cached exactly when generation and version repeat, and then image and size are those of the output before it. |
| `ViewerRuns.CachedIffNothingHappened` | src/viewer/src/SceneViewer.cpp:50-60 | Under either policy and across restarts, an output is marked cached exactly when no pose was filed between the two polls and no version published between the two draws. |
| `ViewerRuns.EventCachesOnlyAcrossRestarts` | src/viewer/src/SceneViewerRunner.cpp:70-91 | Under the Event policy only the first output of a restarted run can be cached. |
| `ViewerRuns.HotLoopCaches` | src/viewer/src/SceneViewerRunner.cpp:72-91 | Under HotLoop drawing again with nothing filed or published in between does give a cached output. |
| `ViewerRuns.FirstEventRunNeverCaches` | src/viewer/src/SceneViewerRunner.cpp:70-91 | So the first run, from an empty store, caches nothing. |
| `ViewerRuns.RestartMayCache` | src/viewer/src/SceneViewerRunner.cpp:70 | That exception does happen, for every valid request. |
| `ViewerRuns.OutputsShowPublishedScenes` | src/viewer/src/SceneViewer.cpp:50-61 | Every output shows the content published as its version, rendered for the request its generation names. |
| `ViewerRuns.OutputsAreSane` | src/viewer/src/SceneViewer.cpp:42-48 | In every run every output has a size of 1 to 16384 either way and was asked for with finite intrinsics and positive focal lengths. |
| `ViewerRuns.NamesAreForEver` | src/model/src/viewer/ViewerPoseStore.cpp:52-57 | A version or generation never changes what it stands for. |
| `ViewerRuns.LostFrameLeavesNoTrace` | src/builder/src/state/SceneBuilder.cpp:37-46 | A frame given up for lost tracking leaves the published content in place. |
| `ViewerRuns.BuildWithoutInterference` | src/builder/src/state/SceneBuilder.cpp:33-53 | The builder's steps add up to the attempt that the class method makes. |
| `Capture.AlignDepthToColor` | src/capture/src/frame/utils/K4aDepthAligner.cpp:10-47 | The created depth image is asked for at the colour size with two bytes per pixel; the first failing call decides. |
| `Capture.SaneShapeMakesSaneBytes` | src/capture/src/frame/utils/K4aFrameValidator.cpp:28-51 | The capture-side shape check implies the admission-side one. |
| `Capture.BuiltFrames` | src/capture/src/frame/K4aFrameBuilder.cpp:19-62 | Every built frame is well-formed with its id and timestamp, and convertible exactly when the aligned image has the colour size. |
| `Capture.BuiltInWords` | src/capture/src/frame/utils/K4aFrameAssembler.cpp:19-56 | Every field of a built frame: colour image of the capture, aligned and not captured depth image, the calibration, and the id and timestamp given. |
| `Capture.FirstComplaintDecides` | src/capture/src/frame/K4aFrameBuilder.cpp:19-62 | Fourteen complaints in the order of the checks, each written out; building fails with the first that has cause, and succeeds exactly without any. |
| `Capture.NextMonotonicTimestamp` | src/capture/src/frame/utils/MonotonicTimestamp.cpp:7-25 | The branches compute the next timestamp. |
| `Capture.NextTicks` | src/capture/src/frame/utils/MonotonicTimestamp.cpp:14-24 | It is the least that is positive, not before now and after the last one. |
| `Capture.FrameIngestor.CaptureAndSubmit` | src/capture/src/frame/FrameIngestor.cpp:22-54 | Result, counters and frame store after every outcome; an id is used up only once capture and calibration are there. |
| `Capture.PreparedInWords` | src/capture/src/frame/FrameIngestor.cpp:22-44 | An id and a later timestamp are used up exactly if capture and calibration are there, whatever becomes of the frame, and the frame built carries them. |
| `CaptureRuns.IngestVerdict` | src/model/src/frame/FrameStore.cpp:41-56 | In every reachable state a built frame is strictly newer than all before; it is rejected at the check exactly when the history is full with nothing to evict, and waits for its push otherwise. |
| `CaptureRuns.PushVerdict` | src/model/src/frame/FrameStore.cpp:58-66 | The push rejects exactly when the queue is full at that very step. |
| `CaptureRuns.OnlyFullnessRejects` | src/capture/src/frame/FrameIngestor.cpp:39-51 | Over every run, with the ingestor as only submitter, every rejection ever counted is for a full history or a full queue. |
| `CaptureRuns.SubmissionInARun` | src/capture/src/frame/FrameIngestor.cpp:47-51 | A frame ingested at one step and pushed at a later one goes in exactly if the queue has room at the push, and the consumer can only have helped meanwhile. |
| `CaptureRuns.ConversionNeverFails` | src/capture/src/frame/utils/K4aDepthAligner.cpp:25-30 | With a faithful camera no frame ever fails the view conversion in the builder. |
| `SystemRuns.StepKeepsInv` | src/builder/src/state/SceneBuilder.cpp:15-65 | All threads but the streamer together: every step keeps builder, frame store, version store, scene and viewer in step. |
| `SystemRuns.VersionNamesItsFrame` | src/builder/src/state/SceneBuilder.cpp:49-57 | For every recorded version the content published under its number was changed last by integrating exactly the frame that the version names, with its timestamp and at the pose it records, and the version says tracked exactly if the frame before had the same sizes. |
| `SystemRuns.ScenesAreTheirFrames` | src/builder/src/state/InfiniTamPipeline.cpp:91-150 | The content of version k is one reset followed by the frames that versions 1 to k name, each once and in order, at the recorded poses; a change of size never resets it. |
| `SystemRuns.GivenUpExactly` | src/builder/src/state/SceneBuilder.cpp:33-49 | In every run: a frame is given up exactly if its layout does not fit, or the tracker says lost and the frame integrated last has the same colour and depth sizes; otherwise it is integrated and published. |
| `SystemRuns.AskedExactly` | src/builder/src/state/InfiniTamPipeline.cpp:91-150 | In every reachable state: once the lease is held the tracker is asked exactly for a frame of the sizes of the last one integrated; any other frame is integrated untracked. |
| `SystemRuns.IntegrationFixesSizes` | src/builder/src/state/InfiniTamPipeline.cpp:91-150 | After every integration the pipeline is set up for the sizes of the frame that was integrated. |
| `SystemRuns.OutputsShowTheRecordedFrame` | src/viewer/src/SceneViewer.cpp:50-61 | Whatever version an output names, if the store still has it, the image is a rendering of a scene whose last frame is the one that the version names. |
| `SystemRuns.VersionsAreRecordedInTurn` | src/builder/src/state/SceneBuilder.cpp:52-57 | The scene version is the number of recorded versions, or one more while the builder holds the newest. |

## Left out

- Foreign code: camera driver, CUDA, InfiniTAM, GStreamer and websocketpp are oracles; their internals are not modelled.
- The lock-free queue behind the ready frames is a FIFO that is full at exactly its capacity; its memory order and its rounding of the capacity are not modelled.
- Counters, ids, generations and ticks of 64 bits are unbounded; only the 32-bit sizes, strides and columns, the decrement of a size_t and the cast of a media line index wrap or are bounded as in the code.
- Floating point: finite values are reals, without rounding; all non-finite values are one value that equals itself, so a request with a NaN counts as repeated where the code would not.
- Texts of messages and errors, `lastError`, the status snapshots, SDP media ids and JSON type errors.
- The data channel and its pose messages, apart from the pose store they call; `startMediaPipelineLocked` and the other setup calls return what an oracle says.
- `FrameStore` queries that only read (`getFrame`, `getStatus`, `getFrameLifecycle`) and the two blocking dequeues, whose steps after the wait are those of the one modelled.
- The device copies after a view conversion, the clearing of the depth confidence, and the alignment of 16-bit reads.
- Time is a number that only grows; what is proved is that somebody is enabled or watched, not that a deadline is met.
- The streamer beside the other threads: it is joined to them only through the pose and output stores, and SystemRuns leaves it out.
- Stopping and joining of threads, `WebRtcServer::stop`, and exceptions thrown while a write lease is held.
- Status counters of the builder and ingestor runners, command line and configuration, enum names, logging, frame dumps and `RenderServer.cpp`.
- BlockedReaderFirst: goes one way; the condition that is also necessary is in BlockedReaderGoesFirstIff.
- OneReaderMayStarve: freedom from starvation of a single reader is not claimed, because it is false of the code.
- NextMonotonicTimestamp: does not model the end of the 64-bit range.
