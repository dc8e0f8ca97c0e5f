# Verified model of the reliable-delivery stack

This project models, in Dafny, how Roll carries runtime events, interactions and mutations across
connections that break, and a few self-contained algorithms around it. Every asynchronous method is
cut at its `await`s into atomic steps; what happens between two steps - a message, a response, a
policy's verdict, an abort, a lost connection - is an event of the environment, and the theorems
speak about every sequence of such events.

`dafny verify dfyconfig.toml` checks the whole project.

## Modules

- **Durable event recovery** of the Node client. `RuntimeCursors` (order and distance of cursors),
  `RecoveryBarrier` (the check that a replay is complete), `RecoveryBuffers` (buffer and window of
  delivered events), `RecoverySession` (one recovery as a machine over its awaits), `RecoverySafety`
  (what every step keeps), `RecoveryManager` (all sessions together, whole runs), `RecoveryProgress`
  (nothing that was accepted is lost).
- **Relay.** `RelayFrameBuffer` (retained frames of a workspace), `RelayBridge` (transport
  generations, advertised and acknowledged marks), `RelayRequestCache` (in-flight and settled
  requests), `RelayResend` (the browser client's pending requests on top of those caches),
  `RelayStream` (the browser client's sequence stream with gaps, epochs and refreshes).
- **Interactions.** `InteractionBroker` (single-shot settlement under racing candidates), `Leases`
  (linked attachments).
- **Node client.** `Capabilities` (revisions and acknowledgements of server-request handlers).
- **Protocol.** `FormNormalisation` (submitted form values).
- **Browser agent.** `InstanceLock` (the promise queue of one browser instance), `IframeInlining`
  (snapshots of nested frames), `WindowLayout` (tiling).
- **Terminal benchmark.** `ScreenReflow`, `VirtualScreen`, `ScreenText` (a terminal screen and its
  reflow), `TerminalQueries` (queries and lines in a chunked byte stream).

Most state machines are written twice: as functions on a value that records the whole state, about
which the theorems are proved, and as a class with the program's mutable fields, whose methods are
proved to do what those functions say. Values that end in `log` and counters of executions or uses
record what happened so that it can be talked about; the program does not keep them.

## What the code does differently from what one would expect

- The rejection of a `resumeThread` call removes the thread's entry by thread id. When the thread was
  stopped and resumed again in between, this drops the claim of the newer call
  (`RecoveryManager.StaleRejectionDropsTheNewClaim`); `ClaimLostIffStaleCallRejects` says exactly when.
- Cursor distance is not additive across logs that only `null` connects
  (`RuntimeCursors.DistanceThroughNullMayFail`).
- The barrier check alone does not notice two events with the same cursor; it relies on the buffer
  never holding a cursor twice (`RecoveryBarrier.DuplicateCursorsWouldPass`).
  `AcceptedIsCompleteIffDistinct` says exactly when an accepted batch is complete.
- After a failed recovery the browser client keeps frames buffered although no recovery runs
  (`RelayStream.FailureLeavesFramesBuffered`). `CaughtUpIff` says for every run when it does, and
  until which event.
- When a reply to a terminal query cannot be written, the program answers no more queries of the same
  read, so the answers depend on how reads split the stream
  (`TerminalQueries.FailedWriteMakesPiecesMatter`). `PiecesDoNotMatterIff` says exactly when they do.
- A control sequence with a superscript digit as its parameter raises an error, because `isdigit`
  accepts digits that `int` refuses (`VirtualScreen.SuperscriptRaises`). `SequenceRaisesIff` says for
  every control sequence whether it raises.
- A wide character that finds only the last column left leaves a blank cell behind, which later
  resizes take for text (`ScreenText.ReadsBackIff` says that nothing else changes what was typed).
- A settled mutation runs again when it is delivered after enough other requests
  (`RelayRequestCache.RerunsIffDisplaced` says how many).
- A wide character on a screen of one column leaves the cursor beyond the screen
  (`VirtualScreen.WriteKeepsShape`).

## Model

| member | source | states |
|---|---|---|
| `RuntimeCursors.DistanceAgreesWithCompare` | packages/protocol/src/index.ts:432-472 | distance and comparison fail on the same inputs, and the sign of the distance is the result of the comparison; `null` counts as the position before sequence 0 |
| `RuntimeCursors.DistanceIsAntisymmetric` | packages/protocol/src/index.ts:455-472 | swapping the two cursors negates the distance or fails alike |
| `RuntimeCursors.DistanceIsAdditive` | packages/protocol/src/index.ts:455-472 | the distances a→b and b→c add up to a→c exactly when a and c can be compared |
| `RuntimeCursors.DistanceThroughNullMayFail` | packages/protocol/src/index.ts:455-472 | a concrete counterexample to unconditional additivity: two logs joined by `null` |
| `RuntimeCursors.CompareIsTransitive` | packages/protocol/src/index.ts:432-453 | order of cursors is transitive among comparable ones |
| `RecoveryBarrier.SortByCursorSpec` | packages/client-node/src/runtime-event-recovery.ts:594-645 | sorting the buffered batch fails iff two events cannot be compared; otherwise it is a permutation in cursor order |
| `RecoveryBarrier.BarrierAcceptsIffComplete` | packages/client-node/src/runtime-event-recovery.ts:594-645 | the barrier check accepts a batch iff its part in (after, through] is the complete contiguous interval of the announced length |
| `RecoveryBarrier.CoveringRunIsExact` | packages/client-node/src/runtime-event-recovery.ts:594-645 | pigeonhole: as many distinct cursors as the interval is long fill it |
| `RecoveryBarrier.FullRunIsExact` | packages/client-node/src/runtime-event-recovery.ts:594-645 | a run of the announced length that reaches the barrier is the whole interval |
| `RecoveryBarrier.ReplayPassesIffExact` | packages/client-node/src/runtime-event-recovery.ts:594-645 | the step-by-step walk over the replay passes iff the replay is exact |
| `RecoveryBarrier.AcceptedBatchStartsWithTheReplay` | packages/client-node/src/runtime-event-recovery.ts:594-675 | what is delivered after an accepted barrier begins with exactly the replay |
| `RecoveryBarrier.ArrivalOrderIsIrrelevant` | packages/client-node/src/runtime-event-recovery.ts:594-645 | two buffers with the same events, however they arrived, get the same verdict and the same batch |
| `RecoveryBarrier.DuplicateCursorsWouldPass` | packages/client-node/src/runtime-event-recovery.ts:594-645 | a concrete batch that shows the check relies on the buffer never holding a cursor twice |
| `RecoveryBarrier.AcceptedIsCompleteIffDistinct` | packages/client-node/src/runtime-event-recovery.ts:594-645 | without assuming distinct cursors: an accepted batch is complete iff no cursor of the replayed interval occurs in it twice |
| `RecoveryBuffers.BufferEventKeepsConsistent` | packages/client-node/src/runtime-event-recovery.ts:709-767 | buffering any event keeps length, bytes and the two indexes of the buffer consistent and bounded |
| `RecoveryBuffers.RememberKeepsConsistent` | packages/client-node/src/runtime-event-recovery.ts:785-802 | the window of delivered events stays bounded and its two maps stay inverse to each other |
| `RecoveryBuffers.EvictExcessKeepsSeen` | packages/client-node/src/runtime-event-recovery.ts:785-802 | evicting the oldest entries keeps the window consistent and leaves it no larger than its limit |
| `RecoveryBuffers.DropSeenSpec` | packages/client-node/src/runtime-event-recovery.ts:647-675 | when no event conflicts, deduplication drops exactly the events that were delivered before, and what is left collides with nothing in the window |
| `RecoveryBuffers.DropSeenFailsIffConflict` | packages/client-node/src/runtime-event-recovery.ts:655-673 | deduplication fails iff some event has a delivered id with other content, or a delivered cursor under another id |
| `RecoveryBuffers.PrepareBatchSpec` | packages/client-node/src/runtime-event-recovery.ts:647-675 | preparing fails iff two cursors cannot be compared or an event conflicts with a delivered one; otherwise exactly the events not delivered before are left, each once, in the order of their cursors |
| `RecoveryBuffers.ThreadRecoveryBuffers.MarkIntegrityFailure` | packages/client-node/src/runtime-event-recovery.ts:804-812 | an earlier failure is never replaced, and the tables stay consistent |
| `RecoveryBuffers.ThreadRecoveryBuffers.Clear` | packages/client-node/src/runtime-event-recovery.ts:777-783 | afterwards exactly the delivered events are still known, and the tables are consistent |
| `RecoveryBuffers.ThreadRecoveryBuffers.Take` | packages/client-node/src/runtime-event-recovery.ts:769-775 | the batch is within the limits and repeats no id or cursor, and buffering it again restores the very state from before |
| `RecoveryBuffers.ThreadRecoveryBuffers.BufferDurableEvent` | packages/client-node/src/runtime-event-recovery.ts:709-767 | one event is ignored, rejected or pushed as the specification function says, and the tables stay consistent |
| `RecoveryBuffers.ThreadRecoveryBuffers.Push` | packages/client-node/src/runtime-event-recovery.ts:709-767 | an event that passed the checks is known from then on, no other is forgotten, and the tables stay consistent and bounded |
| `RecoveryBuffers.NothingIsLostSilently` | packages/client-node/src/runtime-event-recovery.ts:709-767 | whatever series of events arrives: as long as no integrity failure is noted, all of them and all known before are buffered or delivered, and the buffer only grew at its end |
| `RecoveryBuffers.TakenCanBeBufferedAgain` | packages/client-node/src/runtime-event-recovery.ts:709-775 | round trip: taking the buffer and buffering its events again gives the same state, indexes and byte count included |
| `RecoveryBuffers.ThreadRecoveryBuffers.Remember` | packages/client-node/src/runtime-event-recovery.ts:785-802 | the eviction loop leaves the window that the specification function describes |
| `RecoveryBuffers.ThreadRecoveryBuffers.Prepare` | packages/client-node/src/runtime-event-recovery.ts:647-675 | the deduplication loop returns the specified batch and changes nothing |
| `RecoverySafety.ContinueKeepsSafe` | packages/client-node/src/runtime-event-recovery.ts:522-707 | every continuation of a recovery, whatever awaited call returns or throws, keeps the safety invariant of the session |
| `RecoverySafety.AcceptKeepsSafe` | packages/client-node/src/runtime-event-recovery.ts:470-513 | an event that arrives in any phase keeps the safety invariant of the session |
| `RecoverySafety.StopKeepsSafe` | packages/client-node/src/runtime-event-recovery.ts:446-467 | stopping a thread at any point keeps the safety invariant of the session |
| `RecoverySafety.DeliverSafe` | packages/client-node/src/runtime-event-recovery.ts:677-707 | events are handed over one by one, each exactly one step behind the last |
| `RecoveryManager.EveryRunIsSafe` | packages/client-node/src/runtime-event-recovery.ts:349-886 | every session of every run of the manager satisfies the whole invariant, for any interleaving of calls, events, handlers and stops |
| `RecoveryManager.HandedEventsAreContiguous` | packages/client-node/src/runtime-event-recovery.ts:522-707 | between one starting cursor and the next, the events handed to the host have the sequence numbers c+1, c+2, … |
| `RecoveryManager.CheckpointIsTheLastConfirmed` | packages/client-node/src/runtime-event-recovery.ts:345-347 | the checkpoint is the last starting cursor or the last event whose handler completed |
| `RecoveryManager.AtMostTwoSnapshotsPerRecovery` | packages/client-node/src/runtime-event-recovery.ts:522-563 | one recovery requests at most two snapshots |
| `RecoveryManager.BuffersStayBounded` | packages/client-node/src/runtime-event-recovery.ts:709-802 | in every reachable state buffer and seen window respect their limits and their indexes are exact |
| `RecoveryManager.QuietMeansDelivered` | packages/client-node/src/runtime-event-recovery.ts:820-858 | a live session that waits for nothing has nothing buffered |
| `RecoveryManager.TerminalIsAbsorbingAndSilent` | packages/client-node/src/runtime-event-recovery.ts:860-886 | a failed or stopped session stays so and hands nothing over any more |
| `RecoveryManager.ClaimLostIffStaleCallRejects` | packages/client-node/src/runtime-event-recovery.ts:439-443 | a thread's claim disappears without being stopped iff a call that no longer owns it rejects |
| `RecoveryManager.StaleRejectionDropsTheNewClaim` | packages/client-node/src/runtime-event-recovery.ts:439-443 | a concrete run in which the rejection of an earlier call removes the claim of a later one |
| `RecoveryManager.DisciplinedRunsKeepClaims` | packages/client-node/src/runtime-event-recovery.ts:349-467 | runs that never resume a thread while an earlier call for it is unsettled keep every claim |
| `RecoveryProgress.AcceptedReplayReachesTheHost` | packages/client-node/src/runtime-event-recovery.ts:565-592 | once the barrier accepts, the host is handed the whole replay in order and the checkpoint ends at the barrier |
| `RelayFrameBuffer.EnforceLimitsDropsFewest` | packages/companion/src/relay-frame-buffer.ts:233-240 | enforcing the limits drops the fewest oldest entries that make the rest fit |
| `RelayFrameBuffer.AppendKeepsValid` | packages/companion/src/relay-frame-buffer.ts:221-231 | appending keeps the entries contiguous up to the highest sequence, the bytes summed up and both limits respected |
| `RelayFrameBuffer.DropThroughSpec` | packages/companion/src/relay-frame-buffer.ts:194-219 | an acknowledgement drops exactly the entries up to it |
| `RelayFrameBuffer.AcknowledgeKeepsValid` | packages/companion/src/relay-frame-buffer.ts:194-219 | an acknowledgement keeps the buffer valid and never moves its highest sequence |
| `RelayFrameBuffer.EveryHistoryIsValid` | packages/companion/src/relay-frame-buffer.ts:139-252 | every history of appends and acknowledgements leaves a valid buffer |
| `RelayFrameBuffer.ReplayTilesTheRest` | packages/companion/src/relay-frame-buffer.ts:175-192 | the gap and the frames of a replay tile (after, highest] exactly, in order |
| `RelayFrameBuffer.CompanionRelayFrameBuffer.Create` | packages/companion/src/relay-frame-buffer.ts:147-156 | construction succeeds iff both limits are at least one |
| `RelayFrameBuffer.CompanionRelayFrameBuffer.DropOldestEntry` | packages/companion/src/relay-frame-buffer.ts:242-252 | the entries stay contiguous up to the same highest sequence, the dropped mark moves by one, and no replay from behind it misses a frame |
| `RelayFrameBuffer.CompanionRelayFrameBuffer.EnforceLimitsNow` | packages/companion/src/relay-frame-buffer.ts:233-240 | the loop ends within both limits with the specified buffer |
| `RelayFrameBuffer.CompanionRelayFrameBuffer.AppendFrame` | packages/companion/src/relay-frame-buffer.ts:221-231 | the new frame gets the next sequence number and the buffer stays valid |
| `RelayFrameBuffer.CompanionRelayFrameBuffer.AppendRuntimeEvent` | packages/companion/src/relay-frame-buffer.ts:158-168 | an event without projection changes nothing, any other is appended |
| `RelayFrameBuffer.CompanionRelayFrameBuffer.AcknowledgeThrough` | packages/companion/src/relay-frame-buffer.ts:194-219 | out-of-range acknowledgements are refused or ignored, others drop the prefix |
| `RelayFrameBuffer.CompanionRelayFrameBuffer.ReplayFrames` | packages/companion/src/relay-frame-buffer.ts:175-192 | returns the retained suffix behind the given sequence and the gap before it |
| `RelayBridge.EveryRunKeepsInv` | packages/companion/src/relay-bridge-v11.ts:262-371 | every run of appends, connections, sends, losses and acknowledgements keeps the invariant of the bridge |
| `RelayBridge.OneRunPerConnection` | packages/companion/src/relay-bridge-v11.ts:272-371 | on every connection the frames and gap notices of a workspace form one contiguous run from the acknowledged mark to the highest sequence, and the sent part ends at the advertised mark |
| `RelayBridge.AckAdvancesWithinAdvertised` | packages/companion/src/relay-bridge-v11.ts:423-439 | an acknowledgement takes effect iff acknowledged < incoming ≤ advertised, and never trims a frame that was not advertised |
| `RelayBridge.AcknowledgedWasSent` | packages/companion/src/relay-bridge-v11.ts:703-730 | every sequence number that becomes acknowledged was carried by something this connection sent |
| `RelayBridge.TaskSettlesKeepsInv` | packages/companion/src/relay-bridge-v11.ts:349-371 | finishing or failing a queued send keeps the run and its advertised mark in step |
| `RelayBridge.CompanionRelayBridge.BufferedFrame` | packages/companion/src/relay-bridge-v11.ts:262-271 | a buffered frame is queued on the current connection |
| `RelayBridge.CompanionRelayBridge.ReplayWorkspace` | packages/companion/src/relay-bridge-v11.ts:300-317 | the items replayed for a workspace lead from its acknowledged to its highest sequence without a hole or an overlap |
| `RelayBridge.CompanionRelayBridge.ReplayEverything` | packages/companion/src/relay-bridge-v11.ts:294-317 | the announcement is followed by the replay of every workspace |
| `RelayBridge.CompanionRelayBridge.ConnectTransport` | packages/companion/src/relay-bridge-v11.ts:272-318 | a new connection starts with a fresh queue and fresh advertised marks |
| `RelayBridge.CompanionRelayBridge.TaskSettled` | packages/companion/src/relay-bridge-v11.ts:335-371 | a finished send advertises what it carried, a failed one ends the connection |
| `RelayBridge.CompanionRelayBridge.HandleAck` | packages/companion/src/relay-bridge-v11.ts:423-439 | the result is an advance exactly within (acknowledged, advertised] |
| `RelayRequestCache.EveryRunKeepsInv` | packages/companion/src/relay-bridge-v11.ts:503-613 | in every run the two caches share no key, hold no more settled entries than allowed, and account for every mutation ever executed |
| `RelayRequestCache.AtMostOnceUntilEvicted` | packages/companion/src/relay-bridge-v11.ts:503-553 | across deliveries and connections a mutation other than a candidate runs again only after its earlier entry was evicted |
| `RelayRequestCache.SameAnswerIffNotEvicted` | packages/companion/src/relay-bridge-v11.ts:508-532 | while an entry is not evicted, deliveries with its fingerprint get its one execution, others a conflict, and nothing is started; afterwards it answers nothing |
| `RelayRequestCache.InFlightLeavesOnlyBySettling` | packages/companion/src/relay-bridge-v11.ts:600-613 | a running mutation leaves the in-flight cache by settling only, and then is the newest settled entry |
| `RelayRequestCache.SettledAreTheMostRecentlyUsed` | packages/companion/src/relay-bridge-v11.ts:600-613 | the settled cache holds exactly the most recently used keys, oldest use first |
| `RelayRequestCache.RerunsIffDisplaced` | packages/companion/src/relay-bridge-v11.ts:503-613 | a settled mutation that is delivered again runs again iff at least as many other keys as the cache holds were used since |
| `RelayRequestCache.CandidatesEndWithTheirConnection` | packages/companion/src/relay-bridge-v11.ts:683-701 | in every run the candidates in flight came through the connection that is up |
| `RelayRequestCache.CompanionRequestCache.ResolveRuntimeRequest` | packages/companion/src/relay-bridge-v11.ts:503-553 | answers, touches or starts as the specification function says |
| `RelayRequestCache.CompanionRequestCache.SettleEntry` | packages/companion/src/relay-bridge-v11.ts:600-613 | moves the entry to the settled cache and evicts in a loop until it fits |
| `RelayRequestCache.CompanionRequestCache.ReleaseCurrentGeneration` | packages/companion/src/relay-bridge-v11.ts:683-701 | forgets exactly the in-flight candidates of the connection that ends |
| `RelayResend.OutcomesAreTruthful` | packages/relay-client/src/client.ts:1046-1098 | every settled request has one outcome; an answer comes from an execution of that very request; a mutation reported as not carried out never ran |
| `RelayResend.ResendingRunsOnce` | packages/relay-client/src/client.ts:1303-1309 | resending mutations after reconnects never makes one run twice while its cache entry is not evicted |
| `RelayResend.NothingIsForgotten` | packages/relay-client/src/client.ts:1420-1485 | a request is pending until it has an outcome, and never both |
| `RelayResend.LostConnectionKeepsMutations` | packages/relay-client/src/client.ts:1450-1463 | a lost connection rejects exactly the pending queries and leaves mutations as they are |
| `RelayResend.ReconnectResendsMutations` | packages/relay-client/src/client.ts:1303-1309 | back online, every pending mutation has been sent again, unchanged |
| `RelayResend.ArrivalIsAnswered` | packages/companion/src/relay-bridge-v11.ts:503-532 | a request that any client sent is never answered by a conflict |
| `RelayStream.EveryRunKeepsInv` | packages/relay-client/src/client.ts:1100-1228 | every run of frames, gaps, refreshes, failures and reconnects keeps the invariant of the stream |
| `RelayStream.AppliedInOrder` | packages/relay-client/src/client.ts:1100-1135 | within one epoch frames are applied in strictly increasing order, none twice |
| `RelayStream.AcknowledgedIsAccountedFor` | packages/relay-client/src/client.ts:1216-1228 | every acknowledged sequence number was applied or lies in a covered prefix |
| `RelayStream.CoveredMeansRefreshed` | packages/relay-client/src/client.ts:1137-1174 | a prefix counts as covered only behind the beginning of its recovery, in the same epoch, and after every thread open at that beginning was refreshed since |
| `RelayStream.AccountedForOnce` | packages/relay-client/src/client.ts:1100-1174 | a sequence number is applied once or covered once, never both |
| `RelayStream.StaleEndNeverMatters` | packages/relay-client/src/client.ts:1146-1173 | the end of a recovery from an older epoch, inserted anywhere in any run, leaves position, buffer, epoch and everything applied, covered and acknowledged ever after as it is without it |
| `RelayStream.CompletionCatchesUp` | packages/relay-client/src/client.ts:1147-1164 | after a completed recovery the buffer is empty or the next recovery runs |
| `RelayStream.NoFrameIsLost` | packages/relay-client/src/client.ts:1100-1214 | a frame that arrived in this epoch is applied, covered or still buffered |
| `RelayStream.FailureLeavesFramesBuffered` | packages/relay-client/src/client.ts:1165-1173 | a concrete run in which a failed recovery leaves frames buffered although none is running |
| `RelayStream.CaughtUpIff` | packages/relay-client/src/client.ts:1100-1214 | after any run, frames are buffered without a recovery iff some recovery failed over buffered frames and neither a new epoch nor a frame or gap ahead of the next frame has arrived since |
| `RelayStream.CaughtUpUnlessFailure` | packages/relay-client/src/client.ts:1100-1214 | one step breaks "no frame is buffered unless a recovery runs" iff it is the failure of a live recovery over buffered frames |
| `RelayStream.CaughtUpIffRestored` | packages/relay-client/src/client.ts:1100-1214 | one step restores it iff it is a frame or gap that opens a new epoch or lies ahead of the next frame |
| `RelayStream.RestartOpensAnEpoch` | packages/relay-client/src/client.ts:1176-1189 | a new epoch opens iff the first frame after a reconnect is not ahead of what was applied; that frame is then applied or kept behind a recovery |
| `RelayStream.DrainSpec` | packages/relay-client/src/client.ts:1197-1214 | a drain that starts with nothing stale ends with an empty buffer or a running recovery |
| `RelayStream.RelayClientStream.AcceptSequencedMessage` | packages/relay-client/src/client.ts:1100-1120 | the new state is the specified one and the invariant holds |
| `RelayStream.RelayClientStream.AcceptReconciledMessage` | packages/relay-client/src/client.ts:1103-1120 | a frame is accounted for, or buffered behind a running recovery; the position moves only to the very next frame while none runs; the invariant is kept |
| `RelayStream.RelayClientStream.BeginRecovery` | packages/relay-client/src/client.ts:1137-1146 | afterwards the number is behind the stream or exactly one recovery of this epoch is under way; the invariant is kept |
| `RelayStream.RelayClientStream.ReconcileStream` | packages/relay-client/src/client.ts:1176-1189 | the first number after a reconnect is ahead afterwards; when it opened an epoch, nothing is buffered and no earlier recovery counts; the invariant is kept |
| `RelayStream.RelayClientStream.DrainSequencedBuffer` | packages/relay-client/src/client.ts:1197-1214 | the loop applies what follows and begins the next recovery |
| `RelayStream.RelayClientStream.RecoverySucceeded` | packages/relay-client/src/client.ts:1146-1164 | a current recovery advances and drains, a stale one does nothing |
| `RelayStream.RelayClientStream.DiscardThrough` | packages/relay-client/src/client.ts:1151-1155 | the deletion loop keeps exactly the frames behind the covered prefix |
| `InteractionBroker.EveryRunKeepsInv` | packages/companion/src/interaction-broker.ts:282-951 | every run of registrations, candidates, policies, aborts, deadlines and releases keeps the invariant of the broker |
| `InteractionBroker.SettledExactlyOnce` | packages/companion/src/interaction-broker.ts:839-889 | the Runtime promise of an interaction is settled exactly once, when it stops being pending, and its lease is held exactly as long |
| `InteractionBroker.FirstOutcomeWins` | packages/companion/src/interaction-broker.ts:839-889 | no interaction is settled twice, so a rejection that settles first excludes every approval |
| `InteractionBroker.OneTerminalPerRequest` | packages/companion/src/interaction-broker.ts:839-889 | a published request is followed by exactly one terminal frame once settled, an unpublished one by none |
| `InteractionBroker.TerminalFollowsItsRequest` | packages/companion/src/interaction-broker.ts:869-882 | a terminal frame goes to the workspace that was sent the request before |
| `InteractionBroker.ApprovedOnlyIfAllowed` | packages/companion/src/interaction-broker.ts:717-823 | an approval through a connection reaches the Runtime only if its responder policy and the local policy allowed it while it was pending and the connection alive |
| `InteractionBroker.PolicyDecidesIffInTime` | packages/companion/src/interaction-broker.ts:801-823 | the decision of the local policy settles the interaction iff it is heard in time, and as decided |
| `InteractionBroker.RejectionSupersedes` | packages/companion/src/interaction-broker.ts:387-394 | an allowed rejection of a pending approval is its only outcome in every continuation of the run, whatever other candidates and policies do |
| `InteractionBroker.OutcomeIsFinal` | packages/companion/src/interaction-broker.ts:839-889 | once settled, an interaction keeps that outcome, and gets no other, in every continuation of the run |
| `InteractionBroker.NothingOutlivesTheBinding` | packages/companion/src/interaction-broker.ts:309-323 | once closed or unbound, every interaction ever registered is settled and both indexes are empty |
| `InteractionBroker.ApprovalIndexIsExact` | packages/companion/src/interaction-broker.ts:550-551 | the approval index is exactly the inverse of the pending approvals |
| `InteractionBroker.RegisterKeepsInv` | packages/companion/src/interaction-broker.ts:637-700 | registration with any interference during activation keeps the invariant |
| `InteractionBroker.PendingIffAdmitted` | packages/companion/src/interaction-broker.ts:637-700 | a registration becomes pending with its request published iff the broker is bound, nothing of it is pending, and it is neither expired nor aborted |
| `InteractionBroker.TurnEndCancelsItsTurn` | packages/companion/src/interaction-broker.ts:470-481 | the end of a turn cancels exactly the pending interactions of that turn |
| `InteractionBroker.StaleCandidateMakesRoom` | packages/companion/src/interaction-broker.ts:343-350 | a candidate that lost its connection never approves in any continuation, and the next candidate can still be approved |
| `InteractionBroker.EndedCandidateNeverApproves` | packages/companion/src/interaction-broker.ts:717-823 | a candidate that has not approved when its connection ends never does, whatever happens later |
| `InteractionBroker.CompanionInteractionBroker.FinishInteraction` | packages/companion/src/interaction-broker.ts:839-889 | settles once, removes the index entry, releases the lease and publishes the terminal frame |
| `InteractionBroker.CompanionInteractionBroker.CancelPending` | packages/companion/src/interaction-broker.ts:470-481 | the loop cancels every pending interaction, or those of one turn |
| `InteractionBroker.CompanionInteractionBroker.ReleaseBinding` | packages/companion/src/interaction-broker.ts:309-323 | everything pending is cancelled before the workspace is unbound |
| `InteractionBroker.CompanionInteractionBroker.CloseBroker` | packages/companion/src/interaction-broker.ts:483-490 | closing cancels everything and unbinds |
| `InteractionBroker.CompanionInteractionBroker.LocalPolicyDecided` | packages/companion/src/interaction-broker.ts:801-823 | accepted iff allowed, in time and with a live signal |
| `InstanceLock.MutualExclusion` | agents/browser-use/src/browser-instance-lock.ts:27-74 | at most one operation runs on an instance at any time |
| `InstanceLock.StartsInArrivalOrder` | agents/browser-use/src/browser-instance-lock.ts:27-74 | operations on an instance start in call order, each after the end of the one before |
| `InstanceLock.ReleasedInOrder` | agents/browser-use/src/browser-instance-lock.ts:46-59 | released tickets form a prefix of the queue, so a cancelled waiter lets nobody overtake |
| `InstanceLock.TailIffUnfinished` | agents/browser-use/src/browser-instance-lock.ts:133-137 | the map has an entry iff some call for the instance is unfinished, and it is the last one |
| `InstanceLock.QueueDrains` | agents/browser-use/src/browser-instance-lock.ts:27-74 | from every reachable state all queued calls can finish without any further call or cancellation |
| `InstanceLock.OldestCanProgress` | agents/browser-use/src/browser-instance-lock.ts:84-108 | the oldest unfinished call can always take its next step |
| `InstanceLock.StartsIffNotCancelled` | agents/browser-use/src/browser-instance-lock.ts:62-74 | a call runs iff it has its turn, is not cancelled and its wait callback returns |
| `InstanceLock.GivenUpNeverStarts` | agents/browser-use/src/browser-instance-lock.ts:46-59 | a waiter that gave up is not run in any continuation, whatever happens later |
| `InstanceLock.BrowserInstanceLock.Enter` | agents/browser-use/src/browser-instance-lock.ts:27-43 | a call runs at once iff nobody is queued and it is not cancelled |
| `InstanceLock.BrowserInstanceLock.ReleaseTicket` | agents/browser-use/src/browser-instance-lock.ts:133-137 | releasing the oldest unfinished call keeps the queue in order, and the map forgets the instance iff nobody is queued behind it |
| `InstanceLock.BrowserInstanceLock.ContinueCall` | agents/browser-use/src/browser-instance-lock.ts:43-74 | a call that has its turn runs unless cancelled or its wait callback throws |
| `InstanceLock.BrowserInstanceLock.FinishRun` | agents/browser-use/src/browser-instance-lock.ts:69-73 | the end of a run releases the turn |
| `Leases.WorkspaceLeaseManager.Acquire` | packages/companion/src/lease-manager.ts:23-50 | the new attachment becomes the head of its chain |
| `Leases.WorkspaceLeaseManager.ReleaseAttachment` | packages/companion/src/lease-manager.ts:31-49 | releasing out of order or twice leaves the newest held attachment as head |
| `Leases.WorkspaceLeaseManager.RestoreNewest` | packages/companion/src/lease-manager.ts:40-48 | the walk along the chain ends at the newest attachment that is held |
| `Leases.WorkspaceLeaseManager.ReleaseByForce` | packages/companion/src/lease-manager.ts:52-54 | a forced release reports whether the lease was held and forgets its attachments |
| `Leases.WorkspaceLeaseManager.HeldIffPresent` | packages/companion/src/lease-manager.ts:60-66 | a key is present iff some attachment acquired since the last forced release is unreleased |
| `Leases.WorkspaceLeaseManager.Has` | packages/companion/src/lease-manager.ts:60-62 | true iff the lease is held |
| `Leases.WorkspaceLeaseManager.CanStopRuntime` | packages/companion/src/lease-manager.ts:64-66 | true iff no lease is held |
| `Leases.WalkEnds` | packages/companion/src/lease-manager.ts:40-48 | the place where the walk stops is the newest held attachment |
| `Capabilities.DispatchIffDecided` | packages/client-node/src/index.ts:1545-1566 | a request is dispatched iff a revision at least as new as the one that first advertised the current registration was acknowledged and the last acknowledgement accepted the method |
| `Capabilities.DispatchedOnlyIfDecided` | packages/client-node/src/index.ts:1524-1566 | no request is ever dispatched on the strength of an acknowledgement for an earlier registration |
| `Capabilities.AcknowledgementsIncrease` | packages/client-node/src/index.ts:820-849 | acknowledged revisions increase |
| `Capabilities.AcknowledgedWasAdvertised` | packages/client-node/src/index.ts:820-849 | every acknowledgement that takes effect, the first included, accepts only methods advertised with its revision |
| `Capabilities.WithdrawnMethodIsQuiet` | packages/client-node/src/index.ts:953-983 | a withdrawn method has no request in flight |
| `Capabilities.EveryRunKeepsInv` | packages/client-node/src/index.ts:746-849 | every run of registrations, withdrawals, acknowledgements and requests keeps the tables in step with what happened |
| `Capabilities.NodeClientCapabilities.QueueCapabilitySync` | packages/client-node/src/index.ts:759-788 | a new revision advertises the present handlers and marks the newly offered ones |
| `Capabilities.NodeClientCapabilities.RegisterHandler` | packages/client-node/src/index.ts:917-952 | a first handler is advertised, a replacement inherits what was |
| `Capabilities.NodeClientCapabilities.RetireRequests` | packages/client-node/src/index.ts:1686-1692 | the loop retires exactly the requests of the method |
| `Capabilities.NodeClientCapabilities.UnregisterHandler` | packages/client-node/src/index.ts:953-983 | withdrawing retires requests and advertises the rest, or fails the connection for a required method |
| `Capabilities.NodeClientCapabilities.AcceptAcknowledgement` | packages/client-node/src/index.ts:820-849 | an acknowledgement of another revision or of methods not requested fails the connection |
| `Capabilities.NodeClientCapabilities.HandleServerRequest` | packages/client-node/src/index.ts:1524-1566 | dispatched exactly when the history of the method allows it |
| `IframeInlining.InlineIframeSnapshots` | agents/browser-use/src/browser-observation.ts:123-213 | the frames inlined are exactly those that the work list, the browser's answers and the budget call for; the result is the page with exactly these inlined in its mode, keeps the node budget, numbers its references through, and holds every node as often as page and collected frames do; it says "truncated" iff a part was or the budget ended the loop |
| `IframeInlining.CollectFrames` | agents/browser-use/src/browser-observation.ts:138-186 | the work list is the page's targets followed by those of each collected frame in turn; a target looked at is collected iff it is allowed, has a reference, is the first of its frame and gets a usable answer; each collected snapshot is the answer for its target; the loop ends early only without nodes left for an allowed target |
| `IframeInlining.LookAt` | agents/browser-use/src/browser-observation.ts:146-186 | one round keeps all of this and uses up nodes or a place of the work list |
| `IframeInlining.InlineAll` | agents/browser-use/src/browser-observation.ts:196-213 | both modes hold every collected node |
| `IframeInlining.OneMoreFrame` | agents/browser-use/src/browser-observation.ts:104-121 | inlining one more frame adds exactly its nodes to the result |
| `IframeInlining.FlatCollectsTheSame` | agents/browser-use/src/browser-observation.ts:90-121 | the flat and the tree mode collect the same nodes |
| `IframeInlining.CollectedAtMost` | agents/browser-use/src/browser-observation.ts:33-48 | an iframe is collected at most as often as it occurs |
| `IframeInlining.NextRefCountIs` | agents/browser-use/src/browser-observation.ts:86-88 | numbering goes on behind the last reference of the last snapshot |
| `VirtualScreen.ResizeKeepsText` | benchmarks/chat-pty/benchmark.py:307-389 | a resize that drops no row keeps every logical line up to trailing blank cells |
| `VirtualScreen.ResizeDropsOldest` | benchmarks/chat-pty/benchmark.py:349-383 | after a resize that drops rows the screen says exactly the newest logical lines, the oldest of them possibly without its first rows, and they fill it |
| `VirtualScreen.CursorKeepsItsCell` | benchmarks/chat-pty/benchmark.py:362-387 | a cursor on a cell is on the same cell after a resize, unless its row was dropped |
| `VirtualScreen.ResizeKeepsShape` | benchmarks/chat-pty/benchmark.py:307-389 | a resize leaves a screen of the new shape with both cursors on it |
| `VirtualScreen.Run` | benchmarks/chat-pty/benchmark.py:417-641 | for every input and all sizes of at least two columns and one row both buffers keep their shape, so no index fails; parameters that `int` refuses leave the screen as it is |
| `VirtualScreen.SequenceRaisesIff` | benchmarks/chat-pty/benchmark.py:540-592 | a control sequence raises an error iff a parameter consists of digits that are not all decimal, or of more digits than are converted; then nothing on the screen changes |
| `VirtualScreen.SuperscriptRaises` | benchmarks/chat-pty/benchmark.py:540-545 | a concrete input that raises: a superscript digit as a parameter |
| `VirtualScreen.WriteKeepsShape` | benchmarks/chat-pty/benchmark.py:485-497 | writing keeps the shape iff the screen has two columns or the character is not wide |
| `VirtualScreen.PlainKeepsShape` | benchmarks/chat-pty/benchmark.py:590-641 | every control sequence keeps the shape |
| `VirtualScreen.CutLine` | benchmarks/chat-pty/benchmark.py:354-360 | the chunk loop gives the rows of a line and their soft-wrap marks |
| `VirtualScreen.CutLines` | benchmarks/chat-pty/benchmark.py:349-360 | all lines are cut and their first rows remembered |
| `VirtualScreen.CollectLines` | benchmarks/chat-pty/benchmark.py:310-347 | the collecting loop gives the logical lines and the places of both cursors in them |
| `VirtualScreen.ReflowBuffer` | benchmarks/chat-pty/benchmark.py:309-387 | the body of a resize computes the specified buffer |
| `VirtualScreen.Display.Feed` | benchmarks/chat-pty/benchmark.py:417-483 | the loop feeds the characters up to the first that raises, and says whether one did |
| `VirtualScreen.Display.ResizeTo` | benchmarks/chat-pty/benchmark.py:307-389 | both buffers are reflowed and keep their shape |
| `ScreenReflow.CutAllJoins` | benchmarks/chat-pty/benchmark.py:349-360 | rows joined along their soft-wrap marks give the lines they were cut from, padded with blanks |
| `ScreenReflow.CollectAgrees` | benchmarks/chat-pty/benchmark.py:323-347 | collecting with trimmed line ends loses only blanks |
| `ScreenReflow.BlankTailSaysNothing` | benchmarks/chat-pty/benchmark.py:314-323 | blank rows at the end say nothing, whatever their soft-wrap marks |
| `ScreenText.TypedTextSurvivesResizes` | benchmarks/chat-pty/benchmark.py:485-507 | text typed on an empty screen, blanks and wide characters included, is one logical line, wrapped or not, and stays that line through every series of resizes that drops no row |
| `ScreenText.ReadsBackIff` | benchmarks/chat-pty/benchmark.py:485-497 | that line is what was typed, up to blanks at its end, iff no wide character met the last column |
| `ScreenText.TypedShows` | benchmarks/chat-pty/benchmark.py:485-507 | typing cuts a line exactly as a resize would |
| `TerminalQueries.PiecesDoNotMatter` | benchmarks/chat-pty/benchmark.py:1062-1100 | while every reply can be written, bytes fed, queries answered and the places of the answers depend only on the stream, not on how reads split it |
| `TerminalQueries.PiecesDoNotMatterIff` | benchmarks/chat-pty/benchmark.py:1062-1100 | whatever writes fail: the attempted answers and their places are those of the whole stream iff every failing write answers the last query that ends in its piece; otherwise answers are missing |
| `TerminalQueries.BytesFedDoNotDependOnPieces` | benchmarks/chat-pty/benchmark.py:1062-1100 | whatever writes fail, the bytes fed to the screen depend only on the stream |
| `TerminalQueries.FailedWriteMakesPiecesMatter` | benchmarks/chat-pty/benchmark.py:1086-1100 | a concrete stream and failing write for which reading it at once answers fewer queries than reading it in two pieces |
| `TerminalQueries.RespondToTerminalQueries` | benchmarks/chat-pty/benchmark.py:1062-1100 | searching, sorting, feeding and answering a piece, with the break after a failed write, does what happens byte by byte, and keeps the right tail |
| `TerminalQueries.FindAll` | benchmarks/chat-pty/benchmark.py:1066-1075 | the search loop finds every occurrence that ends in the new piece |
| `TerminalQueries.FindMatches` | benchmarks/chat-pty/benchmark.py:1065-1087 | the sorted matches are exactly the queries that end in the new piece |
| `TerminalQueries.FindTail` | benchmarks/chat-pty/benchmark.py:1077-1084 | the kept tail is the longest end that some query may continue |
| `TerminalQueries.TailOfTail` | benchmarks/chat-pty/benchmark.py:1077-1084 | the new tail follows from the old one and the new bytes |
| `TerminalQueries.ActionsInTail` | benchmarks/chat-pty/benchmark.py:1062-1100 | what a piece causes depends on the past only through the tail |
| `TerminalQueries.FeedRpcOutput` | benchmarks/chat-pty/benchmark.py:881-886 | splitting a piece completes the lines that receiving it byte by byte completes |
| `TerminalQueries.LinesOfPieces` | benchmarks/chat-pty/benchmark.py:881-886 | the lines received depend only on the stream |
| `FormNormalisation.NormalizeForForm` | packages/protocol/src/index.ts:2813-2858 | succeeds iff ids are unique and known, values allowed and nothing required missing; then the specified sequence comes back |
| `FormNormalisation.CheckValues` | packages/protocol/src/index.ts:2824-2842 | no issue arises iff every submitted value is unique, known and allowed |
| `FormNormalisation.SelectionIssues` | packages/protocol/src/index.ts:2764-2798 | no issue arises iff the selections are distinct, known and within their bounds |
| `FormNormalisation.NothingIsLost` | packages/protocol/src/index.ts:2850-2857 | the same pairs of id and value come back, each once |
| `FormNormalisation.ComesBackInFormOrder` | packages/protocol/src/index.ts:2850-2857 | values come back in the order of the form |
| `FormNormalisation.OrderOfSubmissionIsIrrelevant` | packages/protocol/src/index.ts:2813-2858 | permuting the submission changes neither acceptance nor result |
| `FormNormalisation.NormalisingTwice` | packages/protocol/src/index.ts:2813-2858 | normalising the result changes nothing |
| `WindowLayout.RowCountsSpec` | agents/browser-use/src/auto-window-layout.ts:48-67 | row counts sum up to the total, are between one and four and differ by one at most |
| `WindowLayout.ResolveBounds` | agents/browser-use/src/auto-window-layout.ts:69-108 | fails iff the index is out of range; otherwise the tile of its cell |
| `WindowLayout.CellsAreDistinct` | agents/browser-use/src/auto-window-layout.ts:84-94 | windows and cells correspond one to one |
| `WindowLayout.EveryPixelIsCovered` | agents/browser-use/src/auto-window-layout.ts:96-107 | every pixel of the work area lies in the tile of some window |
| `WindowLayout.TilesAreDisjoint` | agents/browser-use/src/auto-window-layout.ts:96-107 | no pixel lies in the tiles of two windows |
| `WindowLayout.AreasAddUp` | agents/browser-use/src/auto-window-layout.ts:96-107 | the areas of all tiles add up to the area of the work area |
| `WindowLayout.TilesStayInside` | agents/browser-use/src/auto-window-layout.ts:96-107 | no tile reaches beyond the work area |

## Left out

- Zod schemas, JSON, UTF-8 sizes, SHA-256, UUIDs and clocks: sizes, fingerprints and ids are plain
  values, and ids that the code draws at random are assumed to be fresh.
- Sockets, child processes, timers and ciphers: they appear only as events such as a message, a timeout
  or a lost connection.
- Asynchronous methods (`resumeThread`, `snapshotAndResume`, `resumeFrom`, `deliverBatch`, `drainLive`) are
  modelled on values as steps between their awaits, so aliasing between two sessions is not captured.
- An event that a durable-event handler feeds back synchronously into the manager is not modelled; events
  arrive between steps.
- The snapshot-only path of `resumeThread` for protocol versions without event recovery is left out.
- Oversized relay messages close the transport; the model treats this as a connection lost in the same step.
- Relay requests denied by the request policy, unknown workspaces and encryption errors never reach the
  request cache and are left out.
- RelayResend.NothingIsForgotten: the pending-request table is modelled on values, not as a class, and
  timers are expiry events.
- RelayStream.CoveredMeansRefreshed: an exception thrown while a frame is applied is not modelled, and
  the refresh of all threads at the start of a new epoch is not awaited by the program and not recorded.
- The fingerprint of a repeated interaction candidate only decides which answer it gets, starts nothing, and
  is left out of `InteractionBroker`; so are the eight attempts to draw a fresh interaction id.
- InteractionBroker.ApprovedOnlyIfAllowed: approvals through the legacy path have no responder policy, so
  the responder part is stated for candidates that came through a connection.
- A publisher that calls back into the broker while it publishes is not modelled.
- Protocol versions without dynamic capabilities accept all registered handlers at once and are left out of
  `Capabilities`, as are the exhaustion of revisions and the reuse of interaction ids.
- The UTF-8 decoder and the Unicode tables are outside `VirtualScreen`: characters arrive decoded, with their
  width and their value as a digit.
- ScreenText.TypedTextSurvivesResizes: combining characters of width zero, which join the cell before them, are
  left out.
- VirtualScreen.Display.Feed: the dispatch of control sequences and the erasing loops are functions on the
  buffer, so updates of single cells in place are not captured.
- IframeInlining.InlineIframeSnapshots: taking a snapshot is a parameter that returns any snapshot the
  browser layer may return; how that layer builds one is not modelled.
- FormNormalisation.NormalizeForForm: text is measured in characters, not UTF-16 units, and a cancelled
  submission, which is returned unchanged, is left out.
- WindowLayout.ResolveBounds: the program divides floating-point numbers and rounds down; the model divides
  integers, which agrees as long as the products are exact.
- Detection of the work area, overlays, mouse motion, configuration, benchmark statistics, the frozen
  Wire 1.0 bridge and its event buffer, and the deprecated approval broker: easy or repeated.
