# TRUYN: proofs about receipts, node protocols, A2A tasks and codecs

This project models the parts of TRUYN that keep promises over whole runs, and
proves these promises. An asynchronous part is a state machine whose steps are
the stretches between two `await`s; crashes, lost responses, stale reads and the
steps of other hosts come in between in any order. Objects that the program
changes in place are classes here, each method proved against the step function
that the run results are about.

| files | what they model |
|---|---|
| `EffectRecord`, `EffectSize`, `EffectProtocol`, `EffectRuns`, `Witness` | the shared document of one paid effect: compare-and-swap, claim, capture, witness recovery, stored recovery |
| `Persistence`, `PeerSequence`, `Propagation`, `Rebalance`, `NetworkNode`, `Reach` | the background protocols of a network node, and the node object |
| `TaskLog`, `TaskIndex`, `TaskLookup`, `ReplayGuard`, `TaskServer`, `MarkerOwners`, `TaskStore` | A2A tasks, the four maps of the task store, lookups that evict, replay markers and their owners, the server's call order, and the store object |
| `TaskStreaming`, `PushDelivery` | what streams and push configurations get of a task's log |
| `Utf16`, `JsonText`, `CanonicalJson` | canonical JSON and its reader |
| `Utf8`, `Base64`, `HeaderCodec`, `SseFraming`, `SseWriting`, `SseReaders` | MCP header values and server-sent events |
| `ByteBudget`, `ArtifactPart`, `ArtifactBundle` | outbound artifacts under a byte budget |
| `ByokProfile`, `ProfileFile` | migration and rollback of a BYOK profile file |

## What the proofs found

Each of these is a lemma with a condition that holds exactly, or with a
reachable run that shows the failure.

- **An announced sequence can be reused.** `start()` publishes whatever
  `localPeerRecord` is at the end (`network/runtime.js:877`). A refresh or renewal
  while `start()` is still pending puts a record there that is not stored
  (`PeerSequence.NewRecordIsUnstored`). Sending it is safe, in that no later run
  reuses a sequence, exactly when the store holds its sequence
  (`StartPublishesSafelyExactlyWhen`); callers that wait for `start()` to return
  are always safe (`CalmRunsAreSound`).
- **Persisting before loading erases the stored state.** `persistState` does not
  check that the state was loaded. Called on a new process before `start()`, it
  replaces all that is stored by an empty state
  (`Persistence.PersistingBeforeLoadingErases`), and announced sequences are used
  again (`PeerSequence.PersistingBeforeLoadingReuses`). The results on what stays
  stored are for runs that load first.
- **Reopening can leave unsaved state with nothing on the way.** It does so
  exactly when no flush is pending and a call of `persistState` made after the
  close's own one has failed, or not yet returned, with its generation unsaved
  (`Persistence.ReopeningLosesDirtExactlyWhen`), which a run reaches
  (`ReopeningCanLoseDirt`). In runs that reopen only with all generations saved,
  nothing is ever lost (`NoLostDirtInRuns`).
- **A stream can end without any event.** When a task becomes terminal between
  the opening snapshot and the client's next read, the check at
  `adapters/a2a/server.js:521` ends the stream: all events and the terminal status
  are dropped. Otherwise a finished stream is complete (`TaskStreaming.StreamTask`).
- **Migration of a BYOK profile is one-shot.** The checkpoint is never removed,
  so after a rollback, or after a crash that followed the start of the checkpoint,
  migration is refused for good (`ProfileFile.MigrationIsOneShot`).
- **Some migrated profiles cannot be rolled back.** The rollback compares five
  fields with `===` against a second parse, so an object or list in one of them,
  or a number too large for a double, makes it refuse
  (`ByokProfile.RollbackChecksPass`, `ObjectsCannotBeRolledBack`). The same check
  after a migration can never fail (`MigrationKeepsAuthority`).
- **A lookup can throw, or evict what it looks for.** `get` prunes as if a task
  were to be added. In a store full of unexpired, unfinished tasks every lookup
  throws, and with it polling, cancelling and subscribing
  (`TaskLookup.LookupThrowsExactly`, `OneUnfinishedTaskBlocksLookups`). If some task
  is terminal, the oldest such task is removed, the requested one included
  (`LookupFindsExactly`).
- **`start` and `reject` have no guard of their own.** On a terminal task they
  would break the log (`TaskLog.ApplyKeepsShape`); the server never calls them
  there (`TaskServer.CallsAreInOrder`). Nor does `start` check that its request id
  is not in use; it keeps the maps in lock-step exactly when no live task has it
  (`TaskIndex.StartKeepsExactly`).
- **Push delivery needs its promptness.** A configuration created between an
  append and its drain would take the cursor past the event
  (`PushDelivery.CreatingAConfigCanSkipEvents`); the server drains in the same step.
- **A reset to another record loses acknowledgements** (`Propagation.ResetKeepsAcksExactly`);
  while a record stays the current one, no reshuffle does (`AcksSurviveChurn`).

## Assumptions

Hashes do not collide; execution tokens, ids of tasks, requests and records, and
etags are fresh. Other writers of the effect document raise its version by one
and keep claim and receipt. A save and a rename replace the old contents or fail. The clock of the network
node does not run backwards; the task store is proved at any readings of the
clock, except for replay protection, which names the assumption. Signatures,
hashing, URL parsing, number printing and `closest()` are parameters; what is
assumed of them is a predicate (`Faithful`, `IsEnv`, `IsTrimmer`, `IsCodecFor`),
and a lemma shows that each can be met (`DecimalFormatIsFaithful`, `EnvExists`,
`CodecExists`).

## Model

| member | source | states |
|---|---|---|
| EffectProtocol.AtMostOnePost | runtime/g5-durable-response-receipt.js:49-124 | in every run of any number of hosts, with stale reads, 412s, lost responses and crashes, at most one paid POST is issued, and under the token that the document holds |
| EffectRuns.OneHostSucceeds | runtime/g5-durable-response-receipt.js:171-193 | from every row that may be claimed and has room, some run of one host ends with exactly one POST under its own token, the receipt of the response in the document, and success |
| EffectRuns.WitnessRecovers | runtime/g5-independent-response-witness.js:116-168 | when the paying host stops after its POST, some run of another host recovers the receipt from a witness without a second POST |
| EffectRuns.StoredReceiptIsRead | runtime/g5-durable-response-receipt.js:200-221 | a stored receipt is read again by another host without a second POST |
| EffectProtocol.ClaimsAndReceiptsFollow | runtime/g5-durable-response-receipt.js:113-142 | in every run the version that adds a claim follows a started one without claim and receipt, the one that adds a receipt follows a claimed one that is not failed, and neither changes anything else |
| EffectProtocol.ClaimReadsDecide | runtime/g5-durable-response-receipt.js:113-124 | which claim a call sends after reading a row, exactly when, and when it stops |
| EffectProtocol.CaptureReadsDecide | runtime/g5-durable-response-receipt.js:126-141 | the same for a capture; a receipt that is there already ends it |
| EffectProtocol.AnswersDecide | runtime/g5-durable-response-receipt.js:88-107 | a 412 leads to another read up to five attempts; any doubt stops the call |
| EffectProtocol.InputsDecide | runtime/g5-durable-response-receipt.js:181-192 | a response or a witness moves a call on exactly when its receipt is well-formed and of the call's scope, with the correlation echoed where it was asked for |
| EffectProtocol.RecoveryReadsDecide | runtime/g5-independent-response-witness.js:116-168 | exactly which rows a witness recovery goes on with at each of its three reads |
| EffectProtocol.StoredReadsDecide | runtime/g5-durable-response-receipt.js:200-218 | exactly which rows a stored recovery accepts before and after the fetch |
| EffectProtocol.AmbiguousClaimNeverPosts | runtime/g5-durable-response-receipt.js:171-180 | a host whose claim came back ambiguous never issues the POST, whatever happens next |
| EffectProtocol.ReceiptIsWrittenOnce | runtime/g5-durable-response-receipt.js:109-142 | across all later steps a committed version never changes, versions rise by exactly one, and a claim or receipt once set is that of every later version |
| EffectProtocol.SuccessesAgree | runtime/g5-independent-response-witness.js:116-168 | any two calls that succeed, by capture, witness recovery or stored recovery, return the receipt in the document and the same scope; captures and witness recoveries did so under one token and one claim, that of the document, and two normal captures are one call |
| EffectProtocol.CaptureIsNeverTooLarge | runtime/g5-durable-response-receipt.js:60-65 | from any version after the claim was committed a capture is not refused for size, if other writers added at most the slack |
| EffectProtocol.AttemptFollows | runtime/g5-durable-response-receipt.js:60-63 | what an attempt sends continues the row it read: version plus one, only a claim or a receipt added |
| EffectProtocol.RunKeepsInv | runtime/g5-durable-response-receipt.js:49-142 | every run keeps what reads, writes in flight, confirmed writes, calls and posts know of the document's history |
| EffectRecord.Retry | runtime/g5-durable-response-receipt.js:52-107 | the five-attempt loop sends one PUT an attempt, goes on only after a 412, and reports a change only for the row the store confirmed |
| EffectRecord.ClaimIsWrittenExactlyWhen | runtime/g5-durable-response-receipt.js:49-65 | a claim is sent if and only if identity and version are in order, the row is started, unclaimed and without receipt, and the bytes and both reserves fit; only claim and version change |
| EffectRecord.ClaimIsTakenExactlyWhen | runtime/g5-durable-response-receipt.js:113-115 | an own row refuses a claim as taken exactly when it is not started, is claimed, or has a receipt |
| EffectRecord.CaptureIsWrittenExactlyWhen | runtime/g5-durable-response-receipt.js:126-141 | a receipt is sent if and only if the row is claimed under this token and scope, is not failed, has none, and fits; only receipt and version change |
| EffectRecord.CaptureOfKnownReceipt | runtime/g5-durable-response-receipt.js:134-137 | nothing is sent exactly for the receipt that is there already; a different one is a conflict |
| EffectRecord.StrangeRowsAreRefused | runtime/g5-durable-response-receipt.js:12-19 | which error each kind of foreign or broken row gives, in order |
| EffectRecord.CaptureNeedsTheClaim | runtime/g5-durable-response-receipt.js:126-132 | an own row refuses a capture for its token exactly when it is not the claim's, then for its scope |
| EffectRecord.CaptureNeedsAnOpenStatus | runtime/g5-durable-response-receipt.js:133-133 | then exactly for a failed status |
| EffectRecord.CaptureNeedsRoom | runtime/g5-durable-response-receipt.js:63-65 | and a new receipt exactly for the size of what would be written |
| EffectRecord.ClaimIsTooLargeExactlyWhen | runtime/g5-durable-response-receipt.js:63-65 | an own row that may be claimed refuses the claim exactly for its size |
| EffectRecord.ReceiptIsTakenExactlyWhen | runtime/g5-durable-response-receipt.js:20-32 | exactly which receipts are taken |
| EffectRecord.WrittenExactlyWhen | runtime/g5-durable-response-receipt.js:88-101 | a write counts exactly when the reply shows the row that was sent |
| EffectSize.RowBytesAreItsJson | runtime/g5-durable-response-receipt.js:63-65 | the measured size is the UTF-8 length of the document's JSON text, with any other members |
| EffectSize.ClaimBytesAreItsJson | runtime/g5-durable-response-receipt.js:118-119 | so is that of the claim |
| EffectSize.ReceiptBytesAreItsJson | runtime/g5-durable-response-receipt.js:28-31 | and that of the receipt |
| EffectRecord.Mutate | runtime/g5-durable-response-receipt.js:49-108 | the loop reads, decides as `ClaimIsWrittenExactlyWhen` and `CaptureIsWrittenExactlyWhen` say, and sends one PUT an attempt |
| EffectRecord.AmbiguityIsFinal | runtime/g5-durable-response-receipt.js:88-104 | after an ambiguous reply no PUT follows and the call fails as unavailable |
| EffectRecord.HeadroomSuffices | runtime/g5-durable-response-receipt.js:114-120 | the 4096 bytes asked for at claim time cover the claim, the largest receipt and the 256-byte tail, up to the stated slack of other writers |
| EffectRecord.ClaimBytesBound | runtime/g5-durable-response-receipt.js:118-119 | the largest claim in bytes |
| EffectRecord.ReceiptBytesBound | runtime/g5-durable-response-receipt.js:20-32 | the largest receipt in bytes, a model of 256 units at six bytes each included |
| EffectRecord.SlackIsPositive | runtime/g5-durable-response-receipt.js:116-116 | the reserve leaves at least 1024 bytes for other writers |
| Witness.LookupAndVerify | runtime/g5-independent-response-witness.js:84-112 | evidence is selected if and only if there are 1 to 16 entries, all trusted, for this correlation and scope, in time, and of one outcome; it is the first |
| Witness.SigningTextInjective | runtime/g5-independent-response-witness.js:30-50 | equal signed texts mean equal payloads: a signature covers every field |
| Witness.CorrelationTextInjective | runtime/g5-independent-response-witness.js:18-23 | a correlation text names one binding, token and scope |
| Witness.OutcomeInjective | runtime/g5-independent-response-witness.js:104-107 | entries are compared on the whole outcome |
| Persistence.BarrierStoresTheCall | network/runtime.js:336-344 | in every run, when `persistState` has returned the store holds all that was known at the call |
| Persistence.BarrierIsDurable | network/runtime.js:336-344 | in runs that load before they persist it holds that for ever after, crashes included |
| Persistence.BarrierRecordsTheCall | network/runtime.js:336-339 | the barrier is about the state at the time of the call |
| Persistence.BarrierCanReturn | network/runtime.js:336-344 | from every reachable state without a pending flush, a new call of `persistState` whose save works returns with all of the live state stored |
| Persistence.FailedSaveFailsTheBarrier | network/runtime.js:336-342 | in every continuation without a crash, a call that waits for a flush whose save failed never returns; once the flush has settled, resuming it fails |
| Persistence.SavesNeverOverlap | network/runtime.js:306-328 | one save at a time, and no generation is persisted before it was requested |
| Persistence.StoredGrows | network/runtime.js:310-316 | in runs that load before they persist, what is stored never falls back |
| Persistence.PersistingBeforeLoadingErases | network/runtime.js:336-344 | a new process that persists before it loads replaces whatever is stored by an empty state |
| Persistence.NoLostDirtInRuns | network/runtime.js:284-334 | in runs with any closes, crashes and restarts that reopen a closed node only with all generations saved, unsaved generations of a ready, open node always have a flush or a timer |
| Persistence.DirtIsNeverLost | network/runtime.js:284-334 | no step does so, except reopening a closed node with unsaved generations |
| Persistence.ReopeningLosesDirtExactlyWhen | network/runtime.js:857-860 | reopening a closed node leaves unsaved generations with nothing on the way exactly when no flush is pending and a call made after the close's own has failed, or not yet returned, unsaved |
| Persistence.ReopeningCanLoseDirt | network/runtime.js:1094-1113 | some run of that kind does so |
| Persistence.CheckpointIsNeverOverrun | network/runtime.js:291-299 | once the checkpoint of the oldest pending change has passed, the armed timer is due |
| Persistence.ChurnKeepsTheDeadline | network/runtime.js:330-334 | churn of any length never moves the due time past the checkpoint, nor the time it counts from |
| Persistence.ChangeArmsTheTimer | network/runtime.js:291-299 | a first change is due exactly at the smaller of debounce and checkpoint, a later one at the smaller of its debounce and the checkpoint of the first, and never before now |
| Persistence.ChangeJoinsTheFlush | network/runtime.js:284-290 | a change during a flush arms no timer |
| Persistence.SavedCountsFromNow | network/runtime.js:317-321 | what is still unsaved after a save counts its checkpoint from then |
| Persistence.SettledArmsTheTimer | network/runtime.js:323-326 | a settled flush with more to save arms the timer exactly for it |
| PeerSequence.AnnouncedSequencesAreFresh | network/runtime.js:857-877 | with refreshes, renewals, failures, crashes and restarts in any order, if a start sends only a stored record and loading comes first: no two records are announced under one sequence, sequences grow, strictly from one life of the node to the next, and each is stored |
| PeerSequence.StartPublishesSafelyExactlyWhen | network/runtime.js:869-877 | at the end of a start, sending the local record is safe for all later runs exactly when the store holds its sequence |
| PeerSequence.CalmRunsAreSound | network/runtime.js:900-912 | runs whose callers make new records only when no start is under way keep to that condition |
| PeerSequence.NewRecordIsUnstored | network/runtime.js:900-912 | a refresh or renewal while a start recovers puts an unstored record in its way |
| PeerSequence.NewRecordDuringStartCanReuse | network/runtime.js:869-877 | and from there some run reuses a sequence |
| PeerSequence.EveryStartIsNewer | network/runtime.js:865-867 | the record of every start is newer than all that was announced or stored |
| PeerSequence.RenewalMakesARecord | network/runtime.js:900-964 | a renewal makes the next record and waits for a save that holds it; a refresh makes it and schedules a save |
| PeerSequence.RenewalAnnounces | network/runtime.js:964-973 | a renewal whose barrier returned announces its record exactly when that is still the local one and the node is open |
| PeerSequence.StartAnnounces | network/runtime.js:869-877 | the end of a start announces the local record of an open node |
| PeerSequence.PersistingBeforeLoadingReuses | network/runtime.js:336-344 | after anything was announced, persisting before loading can lead to a reused sequence |
| Propagation.ReadyMeansAcknowledged | network/runtime.js:838-846 | ready implies that every peer last required for the current record fulfilled an announcement of exactly it; acknowledged and pending partition the targets |
| Propagation.ReadyExactlyWhen | network/runtime.js:542-585 | in every run the targets are the peers last required by a new record, a discovery, a reset or a replacing round, and the node is ready if and only if each of them answered the current record |
| Propagation.RejectedTargetsStayPending | network/runtime.js:564-585 | a target that did not answer stays a target and pending |
| Propagation.LateAckNeverCounts | network/runtime.js:559-561 | a round for a record that is not current changes nothing |
| Propagation.AcksSurviveChurn | network/runtime.js:542-557 | acknowledgements of a record survive every reshuffle of the placement set |
| Propagation.ResetKeepsAcksExactly | network/runtime.js:536-540 | a reset keeps the acknowledgements exactly when it is for the current record |
| Rebalance.RequestIsNeverLost | network/runtime.js:375-401 | a request not yet covered by a later pass has a timer armed, or a pass in flight and the dirty flag set |
| Rebalance.RetriesAreBounded | network/runtime.js:412-435 | at most two retries between two fully successful passes |
| Rebalance.DirtyPassRearms | network/runtime.js:436-445 | the end of a pass with the dirty flag arms a timer |
| Rebalance.FailedPassIsRetried | network/runtime.js:412-445 | a clean failed pass arms its retry, after 5 s the first time and 15 s the second, and a third one none |
| Rebalance.SuccessEndsTheRetries | network/runtime.js:419-421 | a success resets the count and arms nothing |
| Rebalance.ClosingEndsThePass | network/runtime.js:436-439 | a pass that ends on a closing node arms nothing |
| Rebalance.RequestArmsTheTimer | network/runtime.js:375-389 | a request on an idle open node arms a timer between 250 ms and 30 s |
| Rebalance.TimerStartsAPass | network/runtime.js:391-401 | the timer of an idle node starts a pass that covers all requests so far |
| NetworkNode.TruynNetworkNode.RequestPersist | network/runtime.js:264-268 | a new generation, nothing else |
| NetworkNode.TruynNetworkNode.SchedulePersistCheckpoint | network/runtime.js:284-301 | the persistence fields become what the checkpoint step says, the other fields stay |
| NetworkNode.TruynNetworkNode.EnsurePersistFlush | network/runtime.js:306-328 | joins the pending flush or starts one and clears the timer |
| NetworkNode.TruynNetworkNode.SchedulePersist | network/runtime.js:330-334 | a request and a checkpoint on a ready, open node |
| NetworkNode.TruynNetworkNode.PersistState | network/runtime.js:336-344 | the synchronous part of a barrier: a request, no timer, a flush |
| NetworkNode.TruynNetworkNode.FlushSaved | network/runtime.js:315-321 | what the end of a save does to the fields |
| NetworkNode.TruynNetworkNode.FlushSettled | network/runtime.js:323-326 | the promise is cleared and pending generations get a timer |
| NetworkNode.TruynNetworkNode.HydrateState | network/runtime.js:346-357 | the sequence becomes the larger of its own and the stored one |
| NetworkNode.TruynNetworkNode.ResetPeerRecordPropagation | network/runtime.js:542-557 | targets, acknowledged and pending become those of the reset step |
| NetworkNode.TruynNetworkNode.RecordPeerRecordPropagation | network/runtime.js:559-585 | for the current record the targets stay, unless replaced or of another record, the fulfilled candidates are added to the acknowledgements, and the rest is pending |
| NetworkNode.TruynNetworkNode.StagePeerRecordPropagation | network/runtime.js:661-674 | readiness closes in the same step in which the targets change |
| NetworkNode.TruynNetworkNode.PeerRecordPropagationReady | network/runtime.js:838-846 | on a valid node, ready if and only if it is started and every target is among the peers that acknowledged the current record |
| NetworkNode.TruynNetworkNode.RefreshPeerRecord | network/runtime.js:900-912 | the next sequence, a new record that nobody acknowledged, and a scheduled save unless the caller persists on its own |
| NetworkNode.TruynNetworkNode.ScheduleDhtRecordRebalance | network/runtime.js:375-389 | a timer with the clamped delay, or the dirty flag while a pass is in flight |
| NetworkNode.TruynNetworkNode.RunDhtRecordRebalance | network/runtime.js:391-401 | a pass starts, or marks the one in flight dirty |
| NetworkNode.TruynNetworkNode.CompleteDhtPass | network/runtime.js:412-435 | the retry count and delay after a pass: at most two retries, none counted after a success |
| NetworkNode.TruynNetworkNode.FinishDhtPass | network/runtime.js:436-445 | the end of a pass: dirty first, then the retry |
| TaskLog.ReachableTasksHaveShape | adapters/a2a/task-store.js:183-355 | partial results are numbered from 0 in order under one artifact id, appending exactly after the first; a terminal task ends with its one status event |
| TaskLog.ApplyKeepsShape | adapters/a2a/task-store.js:168-201 | `start` and `reject` keep the shape exactly on tasks that are not terminal, all other operations always |
| TaskLog.TerminalIsFinal | adapters/a2a/task-store.js:206-226 | once terminal, the task never changes again |
| TaskLog.LogOnlyGrows | adapters/a2a/task-store.js:324-334 | the log is only appended to |
| TaskLog.StatusIsTheEnding | adapters/a2a/task-store.js:183-355 | in every run the status of a finished task is that of the operation that ended it |
| TaskLog.ResultDecides | adapters/a2a/task-store.js:225-274 | a result completes an unfinished task if and only if it is good, and fails it otherwise |
| TaskLog.PartialIsTakenExactlyWhen | adapters/a2a/task-store.js:302-355 | a partial result is taken exactly with the next sequence number and a delta that maps; any other fails the task |
| TaskLog.OperationDoes | adapters/a2a/task-store.js:168-355 | what each operation does to status, log, provider and counter of an unfinished task |
| TaskIndex.PruneKeeps | adapters/a2a/task-store.js:84-99 | pruning keeps the four maps in lock-step at any reading of the clock, and leaves nothing expired |
| TaskIndex.CreateKeeps | adapters/a2a/task-store.js:112-154 | creation keeps lock-step and both capacities, whether it succeeds or throws |
| TaskIndex.DeleteKeeps | adapters/a2a/task-store.js:101-110 | deletion keeps lock-step, with or without forgetting the marker |
| TaskIndex.TouchKeeps | adapters/a2a/task-store.js:75-82 | a touched task and its marker keep the same clock reading |
| TaskIndex.RunKeepsLockStep | adapters/a2a/task-store.js:75-232 | after any operations each live task with a message key has its marker, with its id and last-modified plus time-to-live, the request map holds exactly the requests of the live tasks, and both capacities hold |
| TaskIndex.StartKeepsExactly | adapters/a2a/task-store.js:168-181 | starting a submitted task keeps lock-step exactly when no live task has its request id |
| TaskIndex.LiveKeysAreDistinct | adapters/a2a/task-store.js:145-152 | live tasks have distinct message keys |
| TaskIndex.ResultConcernsExactly | adapters/a2a/task-store.js:276-291 | a result concerns exactly the live task of its request, if that has no provider or the sender is it |
| TaskIndex.CompactEventConcernsExactly | adapters/a2a/task-store.js:293-300 | a compact event likewise, or one without a sender |
| TaskIndex.DeleteForgetsExactly | adapters/a2a/task-store.js:101-110 | a deletion takes the task out of all maps, and its marker exactly when asked to |
| TaskLookup.LookupThrowsExactly | adapters/a2a/task-store.js:94-98 | `get` and `create` throw for capacity exactly when the store is full of unexpired tasks none of which is terminal |
| TaskLookup.CreateAnswers | adapters/a2a/task-store.js:112-125 | which of its errors a creation gives, exactly when |
| TaskLookup.LookupFindsExactly | adapters/a2a/task-store.js:84-99 | `get` finds a task exactly when it is unexpired and, in a store full of unexpired tasks, another one is the oldest terminal one |
| TaskLookup.OneUnfinishedTaskBlocksLookups | adapters/a2a/task-store.js:156-159 | with room for one task, a submitted task makes every lookup throw until it expires |
| TaskLookup.DropExpiredExactly | adapters/a2a/task-store.js:90-93 | expiry removes exactly the expired tasks and keeps the order of the others |
| MarkerOwners.EachTaskHasItsOneMarker | adapters/a2a/task-store.js:145-152 | in every run of the server a live task with a message key is named by exactly one marker, its own, and one without a key by none |
| ReplayGuard.PruneDropsOnlyExpired | adapters/a2a/task-store.js:87-98 | expiry and eviction of tasks never remove an unexpired marker |
| ReplayGuard.RefusedExactlyWhileMarked | adapters/a2a/task-store.js:113-119 | with room for a task a message is a replay exactly while its marker is unexpired |
| ReplayGuard.ReplayIsRefused | adapters/a2a/task-store.js:113-124 | under a clock that does not run backwards a repeated message is refused until time-to-live after the last touch, evictions included, unless a deletion forgets it |
| ReplayGuard.MarkersStayYoung | adapters/a2a/task-store.js:75-82 | no marker ever outlives the present by more than the time-to-live, so a touch never shortens its life |
| TaskServer.ServerKeepsEverything | adapters/a2a/server.js:421-516 | in every run of the server the maps are in lock-step in both directions, every log has its shape, and a task with a pending dispatch is still submitted |
| TaskServer.CallsAreInOrder | adapters/a2a/server.js:455-468 | the server starts a task only while it is submitted and for an unused request id, and rejects it only while it is submitted |
| TaskServer.SubmittedIsOutOfReach | adapters/a2a/task-store.js:276-300 | no event can reach a task that has no request yet |
| TaskServer.TerminalTasksNeverChange | adapters/a2a/server.js:493-516 | a terminal task stays the same as long as the store holds it, and an id that is gone stays gone |
| TaskServer.ForeignResultsChangeNothing | adapters/a2a/task-store.js:276-300 | a result from a node other than the provider leaves the whole server as it is |
| TaskServer.ProviderResultsEndTheTask | adapters/a2a/task-store.js:225-291 | a result from the provider ends its unfinished task, completed if it is good and failed if not |
| TaskServer.CompactResultsEndTheTask | adapters/a2a/task-store.js:293-355 | so does a compact result |
| TaskServer.ProviderPartialsReachTheTask | adapters/a2a/task-store.js:293-355 | the next partial result is logged and the task goes on, any other fails it |
| TaskServer.DispatchedTasksWork | adapters/a2a/server.js:455-468 | a dispatch that succeeded leaves its task working for the request |
| TaskServer.FailedDispatchesReject | adapters/a2a/server.js:455-468 | a dispatch that failed leaves its task rejected |
| TaskServer.AskedCancellationsAreCarriedOut | adapters/a2a/server.js:493-516 | a cancellation that was asked for can be revoked, and then the task ends canceled |
| TaskServer.RefusedConfigLeavesNothing | adapters/a2a/server.js:438-452 | a task whose push configuration is refused is gone, and so is its marker |
| TaskStore.A2aTaskStore.TouchReplayMarker | adapters/a2a/task-store.js:75-82 | renews the marker of a live key and changes nothing else |
| TaskStore.A2aTaskStore.DeleteTask | adapters/a2a/task-store.js:101-110 | the maps become those of the deletion function |
| TaskStore.A2aTaskStore.PruneStore | adapters/a2a/task-store.js:84-99 | three loops in place do what the pruning function says, and throw exactly when it does |
| TaskStore.A2aTaskStore.FindTerminal | adapters/a2a/task-store.js:95-95 | finds the first terminal task in insertion order |
| TaskStore.A2aTaskStore.CreateTask | adapters/a2a/task-store.js:112-154 | the new state and the error are those of the creation function |
| TaskStore.A2aTaskStore.Get | adapters/a2a/task-store.js:156-159 | a lookup prunes first, may evict a terminal task, and throws exactly when pruning does |
| TaskStore.A2aTaskStore.StartDispatched | adapters/a2a/task-store.js:168-181 | the task record and the maps become those of the start function; missing task and missing request are errors |
| TaskStore.A2aTaskStore.RejectDispatched | adapters/a2a/task-store.js:183-201 | status, log and marker become those of the reject function |
| TaskStore.A2aTaskStore.CancelRequested | adapters/a2a/task-store.js:203-223 | cancels an unfinished task, answers a canceled one, and gives nothing for other terminal ones |
| TaskStore.A2aTaskStore.CompleteResult | adapters/a2a/task-store.js:225-274 | an unfinished task becomes completed if the result did not fail and mapped, and failed otherwise; one status event is logged, the marker renewed |
| TaskStore.A2aTaskStore.CompleteFromTruynEvent | adapters/a2a/task-store.js:276-291 | acts exactly on verified results about a known request from its provider, and then ends the task by the result |
| TaskStore.A2aTaskStore.RecordCompactEvent | adapters/a2a/task-store.js:293-355 | the same for compact events; the next partial result that maps is logged, any other fails the task |
| TaskStore.A2aTaskStore.StreamEventsSince | adapters/a2a/task-store.js:357-364 | the events from the cursor on, nothing beyond the end, everything for an invalid cursor |
| TaskStreaming.StreamTask | adapters/a2a/server.js:518-544 | yields every event from the cursor exactly once and in order; a finished stream is complete exactly when the task was unfinished at the first resume |
| TaskStreaming.StreamRunning | adapters/a2a/server.js:522-544 | the polling loop: a stream that finishes has delivered the whole log from the cursor |
| TaskStreaming.ReadOn | adapters/a2a/server.js:528-533 | one read through the cursor continues what was delivered without gap or repetition |
| TaskStreaming.TerminalAddsAnEvent | adapters/a2a/server.js:556-560 | a task that finishes after a subscription has a terminal event beyond the cursor |
| TaskStreaming.StreamCanDropEverything | adapters/a2a/server.js:520-521 | a task may finish while the opening snapshot is being sent |
| PushDelivery.PushedAtMostOnce | adapters/a2a/server.js:339-360 | however drains interleave, no event is pushed twice to one configuration |
| PushDelivery.PushedExactlyOnce | adapters/a2a/server.js:362-388 | with the server's prompt drains, when all have ended each event was pushed once to each configuration present when it was logged, and to no other |
| PushDelivery.CursorNeverFallsBack | adapters/a2a/server.js:341-343 | the push cursor only moves forward |
| PushDelivery.CreatingAConfigCanSkipEvents | adapters/a2a/server.js:575-582 | a configuration created before a drain would skip events for the others |
| PushDelivery.ConfigsAreAsAsked | adapters/a2a/server.js:575-582 | a creation adds the configuration and takes the cursor to the end of the log; a deletion removes it and leaves the cursor |
| PushDelivery.PushesInOrder | adapters/a2a/server.js:347-359 | one drain pushes event by event, each to the configurations in order |
| PushDelivery.JobsPushInOrder | adapters/a2a/server.js:347-359 | a drain pushes what it took up in order, one at a time |
| CanonicalJson.CanonicalTextDecides | adapters/a2a/artifact-integrity.js:69-71 | two values have the same canonical text exactly when they are the same JSON value, objects as finite maps and -0 as 0 |
| CanonicalJson.CanonicalTextReadsBack | adapters/a2a/artifact-integrity.js:41-71 | a reader turns the canonical text back into the canonical value |
| CanonicalJson.CanonicalValueDecides | adapters/a2a/artifact-integrity.js:41-67 | canonicalization identifies exactly the values that are the same |
| CanonicalJson.ArrangedUnique | adapters/a2a/artifact-integrity.js:54-63 | the order of members, integer-like keys first, depends on the members alone |
| CanonicalJson.KeysInOrder | adapters/a2a/artifact-integrity.js:54-63 | array indices come first and grow, the other keys follow in UTF-16 order |
| CanonicalJson.IndexIsDecimal | adapters/a2a/artifact-integrity.js:54-63 | a key is an index exactly when it is the decimal text of a number up to 4294967294 |
| CanonicalJson.RefusedExactlyWhen | adapters/a2a/artifact-integrity.js:41-67 | a value is refused exactly when a number in it is not finite or something in it is no JSON value |
| JsonText.ReadInvertsPrint | adapters/a2a/artifact-integrity.js:69-71 | reading undoes printing, string escapes included, before any text that does not continue a number |
| JsonText.PrintInjective | adapters/a2a/artifact-integrity.js:69-71 | different values print differently |
| JsonText.LiteralsAsWritten | adapters/a2a/artifact-integrity.js:69-71 | the literals and empty lists, objects and strings as RFC 8259 writes them |
| JsonText.ListAsWritten | adapters/a2a/artifact-integrity.js:69-71 | a list is its items between brackets, with commas |
| JsonText.ObjectAsWritten | adapters/a2a/artifact-integrity.js:69-71 | an object is its quoted keys, colons and values between braces |
| JsonText.UnitAsWritten | adapters/a2a/artifact-integrity.js:69-71 | which units are escaped, and by which letters |
| JsonText.ControlAsWritten | adapters/a2a/artifact-integrity.js:69-71 | other control characters and lone surrogates are four hex digits |
| JsonText.HexDigitsAsWritten | adapters/a2a/artifact-integrity.js:69-71 | the hex digits 0 to 9 and a to f |
| Base64.DecodeInvertsEncode | adapters/a2a/artifact-integrity.js:141-142 | base64 decoding undoes encoding |
| Base64.StrictBytesExact | adapters/a2a/artifact-integrity.js:137-144 | a raw part is accepted for some bytes exactly when it is what the encoder writes for them |
| Base64.DigitIsTheAlphabet | adapters/a2a/artifact-integrity.js:137-144 | the alphabet of section 4 of RFC 4648 |
| Base64.EncodedInGroups | adapters/a2a/artifact-integrity.js:137-144 | a text is encoded three bytes at a time |
| Base64.ThreeBytesAreFourDigits | adapters/a2a/artifact-integrity.js:137-144 | the four digits of three bytes hold their 24 bits in order |
| Base64.KnownEncodings | adapters/a2a/artifact-integrity.js:137-144 | the first four encodings of section 10 of RFC 4648, with two, one and no padding |
| ByteBudget.ThreadAcceptsExactly | adapters/a2a/artifact-integrity.js:359-365 | a budget threaded through items accepts exactly those acceptable one by one, with distinct keys, that fit together; it is never found overdrawn |
| ByteBudget.ThreadSettles | adapters/a2a/artifact-integrity.js:355-367 | accepted items pass again unchanged under every budget that covers them |
| ByteBudget.ThreadBudget | adapters/a2a/artifact-integrity.js:394-405 | the loop with its running rest and set of keys does just that |
| ArtifactPart.PartIsNormal | adapters/a2a/artifact-integrity.js:277-313 | a normalized part declares a size within the budget and is normal under every budget that covers it |
| ArtifactPart.BudgetOnlyLimits | adapters/a2a/artifact-integrity.js:146-162 | the budget decides nothing but whether the size fits |
| ArtifactPart.InlineIsSealed | adapters/a2a/artifact-integrity.js:284-305 | a claim that an inline part came with had to agree with what it leaves with |
| ArtifactPart.TextPartIsMeasured | adapters/a2a/artifact-integrity.js:284-290 | a text part is accepted if and only if the UTF-8 bytes of its text fit and a claim agrees with them; it leaves with their digest and length |
| ArtifactPart.DataPartIsMeasured | adapters/a2a/artifact-integrity.js:291-296 | the same for a data part and its canonical JSON bytes |
| ArtifactPart.RawPartIsMeasured | adapters/a2a/artifact-integrity.js:297-305 | the same for a raw part and the bytes whose base64 it is |
| ArtifactPart.UrlPartKeepsItsClaim | adapters/a2a/artifact-integrity.js:306-313 | a URL part is accepted exactly with a verified claim that fits, and keeps it |
| ArtifactPart.OneContentField | adapters/a2a/artifact-integrity.js:277-283 | a part with no or several content fields is refused |
| ArtifactPart.BadContentIsRefused | adapters/a2a/artifact-integrity.js:137-144 | so is content that is no text, no canonical JSON or no base64 |
| ArtifactPart.ClaimReadsBack | adapters/a2a/artifact-integrity.js:87-116 | an attached claim is read back as it is |
| ArtifactBundle.BundleWithinBudget | adapters/a2a/artifact-integrity.js:388-407 | an accepted bundle has 1 to 64 parts, distinct artifact ids and declared sizes within the budget; the overdrawn check never fires |
| ArtifactBundle.ArtifactNeverOverdraws | adapters/a2a/artifact-integrity.js:362-363 | nor does the one inside an artifact |
| ArtifactBundle.BundleIsNormal | adapters/a2a/artifact-integrity.js:388-407 | normalizing an accepted bundle again under the same budget returns it unchanged |
| ArtifactBundle.BundleAcceptedExactlyWhen | adapters/a2a/artifact-integrity.js:388-405 | a bundle is accepted exactly when its artifacts are acceptable alone, differ in id, have at most 64 parts and fit together |
| ArtifactBundle.ArtifactIsNormal | adapters/a2a/artifact-integrity.js:315-367 | a normalized artifact keeps its number of parts, has a trimmed id, and stays as it is |
| ArtifactBundle.ArtifactAcceptedExactlyWhen | adapters/a2a/artifact-integrity.js:315-367 | exactly when an artifact is accepted, by its fields and its parts |
| ArtifactBundle.ArtifactKeepsItsFields | adapters/a2a/artifact-integrity.js:315-338 | the fields an artifact leaves with are its own, trimmed |
| ArtifactBundle.NormalizeOutboundBundle | adapters/a2a/artifact-integrity.js:388-407 | the nested loops over artifacts and their parts do what the bundle function says, errors included |
| HeaderCodec.HeaderRoundTrip | adapters/mcp/http-headers.js:16-33 | decoding an encoded header gives the value back, for every well-formed string |
| HeaderCodec.TravelsAsItIsExactlyWhen | adapters/mcp/http-headers.js:5-20 | a value is sent as it is exactly when it is printable ASCII without outer space and does not look wrapped |
| HeaderCodec.EncodedHeaderIsSafe | adapters/mcp/http-headers.js:9-20 | an encoded header is printable ASCII without outer space |
| HeaderCodec.DecodesExactly | adapters/mcp/http-headers.js:22-33 | exactly which headers decode to a value |
| HeaderCodec.SentinelLookalikesAreWrapped | adapters/mcp/http-headers.js:5-14 | text that looks like a wrapped value is itself wrapped |
| HeaderCodec.OverlappingSentinel | adapters/mcp/http-headers.js:26-27 | the overlapping `=?base64?=` counts as a sentinel and does not decode |
| Utf8.DecodeInvertsEncode | adapters/mcp/http-headers.js:30-31 | UTF-8 decoding undoes encoding |
| Utf8.EncodedAsInTheTable | adapters/mcp/http-headers.js:17-20 | each scalar value takes the bytes of table 3-6 of the Unicode Standard |
| Utf16.ByteLengthIsUtf8 | runtime/g5-durable-response-receipt.js:64-65 | the byte length of a text is that of its UTF-8 encoding |
| SseWriting.SseDataIsPayload | adapters/mcp/client.js:36-41 | a written frame, with any blanks, line ends and other fields, has as its data the payloads of its `data:` lines joined by line feeds |
| SseWriting.StreamCarriesPayloads | adapters/mcp/client.js:33-41 | a written stream carries the payloads of its frames, in order |
| SseReaders.IterateSseMessages | adapters/mcp/resources-client.js:147-179 | for every chunking of a written stream the incremental reader passes on its payloads in order, stopping early only at bad JSON or at a frame without three bytes to spare; when it finishes no frame was over the limit |
| SseReaders.ParseSseJsonRpc | adapters/mcp/client.js:33-46 | the batch reader finds the first payload of a written stream that answers the request, or none does |
| SseReaders.BothReadersAgree | adapters/mcp/resources-client.js:139-179 | on a stream of valid JSON that fits, the first reply of the incremental reader is the batch reader's |
| SseFraming.BlankCodePoints | adapters/mcp/resources-client.js:139-146 | the 25 blanks that JavaScript trims |
| SseFraming.FirstMatchStable | adapters/mcp/resources-client.js:156-159 | a separator found in the buffer is the one the whole text has |
| SseFraming.PendingBufferIsSmall | adapters/mcp/resources-client.js:167-167 | a buffer without a separator exceeds its frame by at most three bytes |
| ByokProfile.MigrationIsValid | runtime/byok-profile-migration.js:10-34 | a migrated profile is valid and differs in schema and credential fields only |
| ByokProfile.MigratableExactlyWhen | runtime/byok-profile-migration.js:36-54 | exactly which schema-1 profiles can be migrated |
| ByokProfile.MigratedCredential | runtime/byok-profile-migration.js:23-29 | a variable name becomes a reference with backend `env` and that name as key; otherwise the reference stays |
| ByokProfile.ValidExactlyWhen | runtime/byok-profile-migration.js:36-54 | exactly which migrated profiles are valid |
| ByokProfile.MigrationIsIdempotent | runtime/byok-profile-migration.js:15-18 | migrating a migrated profile changes nothing |
| ByokProfile.MigrationKeepsAuthority | migrations/p13-byok-file.js:72-74 | the drift error after a migration is unreachable for every schema-1 profile |
| ByokProfile.RollbackChecksPass | migrations/p13-byok-file.js:99-101 | the checks of a rollback pass exactly when the authority fields are plain values and the credential reference survives printing |
| ByokProfile.ObjectsCannotBeRolledBack | migrations/p13-byok-file.js:37-40 | a profile with an object as access mode is migrated but not rolled back |
| ProfileFile.RunKeepsSafe | migrations/p13-byok-file.js:59-111 | after any migrations and rollbacks, each interrupted anywhere, the file is byte for byte the original or its migration, and the migration only beside a complete checkpoint |
| ProfileFile.RollbackRestoresExactlyWhen | migrations/p13-byok-file.js:93-111 | wherever a run ended with the migrated file, a rollback restores the exact bytes under the stated condition and otherwise changes nothing |
| ProfileFile.MigrationSucceedsExactlyWhen | migrations/p13-byok-file.js:71-91 | an uninterrupted migration succeeds exactly without a checkpoint |
| ProfileFile.MigratedFileIsKeptExactlyWhen | migrations/p13-byok-file.js:59-71 | a file of schema 2 is left alone exactly when it is valid and any checkpoint is about it |
| ProfileFile.OnlyCrashesLeaveFiles | migrations/p13-byok-file.js:82-90 | only a crash leaves a temporary file behind |
| ProfileFile.MigrationIsOneShot | migrations/p13-byok-file.js:75-75 | once a checkpoint exists, the original file is never migrated again |
| ProfileFile.RollbackInvertsMigration | migrations/p13-byok-file.js:41-58 | with any file and any checkpoint, forged ones included, a rollback puts back only bytes whose own migration is the present file |
| ProfileFile.CheckpointReadsBack | migrations/p13-byok-file.js:76-78 | a complete checkpoint gives back the original bytes |
| ProfileFile.ProfileFiles.MigrateProfile | migrations/p13-byok-file.js:59-92 | step by step on the files, the migration does what the run results are about, at every interruption |
| ProfileFile.ProfileFiles.RollbackProfile | migrations/p13-byok-file.js:93-111 | the same for the rollback |
| ProfileFile.ProfileFiles.ReplaceProfile | migrations/p13-byok-file.js:82-90 | temporary file, rename and cleanup, with a crash or a failed call at each step |

## Left out

- Utf8.DecodeInvertsEncode: malformed bytes become one U+FFFD each here, while the runtime may merge some of them; the header codec refuses both.
- PeerSequence.AnnouncedSequencesAreFresh: false of a `start` that sends an unstored record and of a process that persists before loading; it is about the announcements of `start` and renewals; the PING callback and the queued propagation can hand out a record before its barrier.
- Persistence.BarrierIsDurable: a node without a state path keeps nothing, and the copy of the snapshot that `persistState` returns is not modelled.
- Persistence.FailedSaveFailsTheBarrier: the queue-depth telemetry and the record of the last error are not modelled.
- TaskStreaming.StreamTask: the deadline is a number of polls, since the clock is not modelled there.
- TaskStore.A2aTaskStore.CompleteResult: the artifacts of a result are not stored; whether their mapping succeeds is a parameter, and a task already deleted from the store is not passed to it.
- SseReaders.IterateSseMessages: chunks are decoded text; splitting a character between byte chunks and the byte-order mark are the decoder's business.
- ProfileFile.RunKeepsSafe: runs do not overlap, so the errors for a source changed in between do not occur; symbolic links, file modes and power loss of directory entries are not modelled.
- ByokProfile.MigratableExactlyWhen: `String(value).trim()` of a value that is not text is a parameter.
- ArtifactPart.PartIsNormal: budgets that are not numbers, and metadata entries other than the claim and the source URL, which are only carried along.
- CanonicalJson.CanonicalTextDecides: cyclic values, which the program refuses, cannot be written down as a Dafny datatype.
- Two overlapping calls of `start()`, of `close()`, or of both on one node.
- Peer-record retry timers and the dirty flag of the publish loop (`network/runtime.js:633-659`, `749-797`): no liveness is claimed for them.
- Verified remote parts and artifacts with their URL resolver: the same budget and sealing as outbound ones, around a network call.
- SSE framing in the A2A lifecycle client and the prompts client: the former is chunk-independent for LF streams only, the latter is the same loop without the tail.
- Authentication, access checks, contexts, histories and skills of the A2A server: independent of the maps and the log.
- Key parsing and Ed25519 verification of witnesses: one abstract predicate.
- Configuration validators, linear phase machines, the push-notification store, provider adapters, observability, CLI and secret stores: easy members or I/O.
