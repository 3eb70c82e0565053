# Verified model of the Wasm platform's coordination, billing and trust logic

This project models, in Dafny 4.11, the parts of the platform whose correctness spans several functions or
whole runs, and proves what they keep:

1. **Deploy-ingress leader lease** (`LeaderLease`, `LeaderLeasePass`, `LeaderLeaseAnswers`,
   `LeaderLeaseExample`): instances compete for one key of a compare-and-set store with a time-to-live. The network
   is fully asynchronous: requests may be applied late or never, replies may be lost, instances restart, entries
   expire.
2. **Recovery actions of the monitor** (`SlowIoSections`, `SlowIoWorker`, `RecoveryActions`, `RecoveryHistory`,
   `FallbackMonitor`): backpressure, degraded mode with two causes, recovery timers, the slow-I/O worker at the
   granularity of its lock sections, and the userspace fallback as a pressure source.
3. **Billing** (`BillingRecord`, `BillingChain`, `BillingWriter`, `BillingEvents`, `BillingStorage`, `KeyOrder`,
   `BillingExport`, `BillingReport`): the hash preimage, chain verification, the batching writer with crashes and
   restarts, the events it bills, the table scan behind the verification of a node, the export watermark, and tenant
   reports.
4. **Signed statements** (`CanonicalPayload`, `Readings`, `ManifestText`, `ReleaseText`, `Signatures`,
   `ArtifactManifest`, `ReleaseProvenance`): the line-based text that is signed, artifact transfer manifests, and
   release provenance under a delegated key.
5. **gRPC framing** (`GrpcFraming`): the length-prefixed message rule of the "Requests" section of the gRPC over
   HTTP2 protocol document.
6. **Hot configuration** (`HotConfiguration`, `HotConfigHandle`): merge, validation, and the
   save-then-publish handle over every run of updates, resets, crashes and restarts.

`Wrappers` and `Encoding` hold the shared result types, byte encodings, decimal numerals and wrapping counters.
`dafny verify dfyconfig.toml` checks everything.

Objects that the source updates in place are classes whose methods are proved equal to a function of the old
state; the run theorems are about those functions. What those functions do is stated once more without them: by the
history of a run, field by field, byte by byte, or as a table of faults in their order. A run is a sequence of steps,
each enabled where it is taken; the theorems hold for every legal run.

## Where a promise does not hold

The code is modelled as it is. Where a documented or expected property is false, the model has a
counterexample and the exact condition under which it holds.

- *Only the lease holder accepts deploy writes* (docs/deploying-applications.md:146). The flag outlives the
  lease: `TwoRawLeaders`. `LeadersOwnIffYoung` is exact: in every run every leader whose lease was written a given
  time ago owns the entry if and only if that time is below the time-to-live.
- *An owner's pass ends at the current revision.* An update of an earlier pass may be applied after the entry was
  read: `OldRequestLeavesOldRevision`. `PassesEndCurrentIffUnraced` is exact: every error-free pass before expiry ends
  at the current revision if and only if no older update of the owner is on its way at that revision, or the pass
  itself starts from it.
- *A flush is one transaction* (crates/billing/src/collector.rs:186-194). Records are written one by one. A
  crash inside a flush is modelled: `FlushVerdict` says exactly when a flush leaves a good chain, in every run, and
  `InterruptedFlushBreaksChain` is a run that breaks one.
- *A node's chain verifies as its number of records.* The table scan matches a text prefix, so node `a` also
  reads records of a node `a:b`. `NodeVerdictIsRight` gives the exact condition, `IntruderRun` a run that fails it.
- *Export is at least once.* One watermark is shared by all nodes, keys are read in text order, and records may be
  written, or written again, between the read, the export and the save. `AtLeastOnceIffAbove` is exact for any nodes
  while reads can take all that is pending: no record may be written at a number that the watermark has passed, and
  no save may pass a record written since the read. `SecondNodeIsLost` and `WriteDuringExportIsLost` are runs that
  break the one and the other. For a single node `BoundIsExact` gives the exact bound on the pending records, and
  `SingleNodeLosesRecord` is a run above it.
- *Every recovery follows an announced pressure.* A pressure level above 2 is recorded but not announced:
  `RecoveriesAnnounced` is exact, `UnknownLevelBreaksOrder` is a run that breaks the order.
- *Degraded mode follows its causes.* Not in every interleaving of the lock sections: `RaceLosesDegradedMode`.
  `FlagFollowsCauses` proves it for every interleaving in which no step falsifies what another thread has read or
  done and is about to write the flag for; `RaceIsDisturbed` shows that the race breaks that condition.
  `UndisturbedIffEndsRight` shows that no step is barred needlessly: while one other thread has the flag to write,
  a step that the condition bars can end with the flag wrong, and no other step can.
- *The hash binds every field.* The four identifying texts run together: `TextBordersNotBound`.
  `SameRecordIffSameBorders` is exact.
- *A signed text determines its fields.* Values are not escaped. `TextSharedIffHidden` is exact for manifests,
  `DelegationSharedIffHidden` and `ProvenanceSharedIffHidden` for the two release statements;
  `IssuerReadsAsAudience` shows two manifests with one text.
- *A grant is good only for its audience and its time.* `MisusedIffSecondWindow` is exact: a grant can be used for
  its digest against its terms if and only if its audience or its transfer id contains the lines of a time window.
  `AudienceIsMisused` is such a grant.
- *A restart restores the hot configuration.* NaN passes validation and is saved as null: `RestartOutcome` is
  exact, `NanIsValidAndFatal` is an example. A failed read at start is treated as nothing saved: `LiveConfiguration`
  holds in every run in which no session that started so saves an update, `BlindSaveIsRight` says exactly when such
  a save does no harm, and `BlindSaveLosesUpdate` is a run in which it does.
- *Report totals are the sums.* The 64-bit counters wrap: `Conservation` says exactly when a total is the true sum,
  and that rows and totals agree in any case.

## Assumptions

- The key-value store updates only at the current revision, creates only if the key is absent, answers a read with
  the current entry, and removes an entry only after its time-to-live. Ingress ids are distinct. The timestamp
  inside a lease record is never read and is omitted.
- In `RecoveryActions` one dispatched event, one timer firing, one lock section of the worker and one manual exit
  are atomic. Fewer than 2^64 generation changes happen during one sleep.
- The fallback's product of kilobytes and 1024 does not overflow.
- SHA-256 is any function with 64-character results; no theorem assumes that collisions do not exist: they say
  "or there is a collision" or assume that the records at hand do not collide.
- Ed25519 is any scheme that accepts what it signed. Unforgeability is a hypothesis about the signatures at hand:
  if one passes, its text was signed under that key.
- In the runs of the billing writers record writes succeed and saved cursors read back; cursor and watermark saves
  may fail. Sequence numbers stay below 2^64.
- One export loop runs, and its saved watermark reads back; the code takes an unreadable one for 0
  (crates/storage/src/billing.rs:202-210). A read of the table is one snapshot. A crash of the loop is a failed
  export or an unnoticed failed save. The single-node theorems are about a node that writes each record once; a
  record written again after an interrupted flush is a step of `AtLeastOnceIffAbove`.
- Additions wrap, as in the release profile (Cargo.toml:100-103), which does not enable overflow checks.
- A failed write of the metadata table changes nothing. Saved configurations read back except for floats that
  JSON cannot hold.
- Strings are their UTF-8 bytes.

## Model

| member | source | states |
|---|---|---|
| LeaderLease.IngressInstance.constructor | crates/deploy-ingress/src/ha.rs:212-213 | a lease task starts without a revision and without a leader |
| LeaderLease.IngressInstance.RenewOrObserve | crates/deploy-ingress/src/ha.rs:224-296 | one pass, answer by answer: who leads, under which id and url, at which revision; no entry means no leader; a failing pass keeps the leader state |
| LeaderLease.StepInv | crates/deploy-ingress/src/ha.rs:224-282 | every step of the asynchronous protocol, by any number of instances, keeps the invariant tying memories and messages in flight to the write history |
| LeaderLease.BeliefIsOwnership | crates/deploy-ingress/src/ha.rs:224-282 | a leader belief based on an unexpired lease is ownership of the live entry |
| LeaderLease.WriteGateExclusive | crates/deploy-ingress/src/http.rs:117-131 | in every run two instances never both pass the write gate on unexpired leases |
| LeaderLease.TenuresDisjoint | crates/deploy-ingress/src/ha.rs:236-259 | in every run a write by another owner comes only after the earlier owner's lease ran out |
| LeaderLease.LiveEntryKept | crates/deploy-ingress/src/ha.rs:236-262 | in every run no step removes a live entry or replaces it by another instance's |
| LeaderLeasePass.PassObservesOwner | crates/deploy-ingress/src/ha.rs:236-275 | after any run, an error-free pass that ends before expiry leaves an instance leading if and only if it owns the entry, naming the owner, and an owner that no older update races at the current revision: after restarts, lost replies and stale flags alike |
| LeaderLeasePass.PassesEndCurrentIffUnraced | crates/deploy-ingress/src/ha.rs:236-275 | after any run, every error-free pass of the owner that ends before expiry ends at the current revision if and only if no older update of it is in flight at that revision, or it remembers that revision |
| LeaderLeaseAnswers.AnswersAreBelieved | crates/deploy-ingress/src/ha.rs:236-296 | in every run: a successful write makes the instance leader under its own id and url; an entry makes it believe what the entry says; no entry leaves it without a leader, id and url; a failed update is followed by a create, a failed create by a read, with the belief kept |
| LeaderLeaseAnswers.ErrorsKeepBelief | crates/deploy-ingress/src/ha.rs:246-268 | in every run an error counts as a failed write, or ends the pass with the belief kept |
| LeaderLeaseAnswers.PassBegins | crates/deploy-ingress/src/ha.rs:236-257 | in every run a pass begins with an update at the remembered revision, or without one with a create |
| LeaderLeaseAnswers.LeadersAreNamedTruly | crates/deploy-ingress/src/ha.rs:284-296 | in every run whoever an instance names as leader is named with the url it joined with, and a leader names itself |
| LeaderLeaseAnswers.PassNamesUrl | crates/deploy-ingress/src/ha.rs:264-275 | after a pass as in PassObservesOwner the owner is named with the url of its entry |
| LeaderLeaseAnswers.AbsentLeaseIsAcquired | crates/deploy-ingress/src/ha.rs:236-263 | after any run that left the key absent, whatever an instance remembers, one error-free pass acquires it for a full time-to-live |
| LeaderLeaseAnswers.LeaseIsRenewed | crates/deploy-ingress/src/ha.rs:236-245 | after any run an owner that remembers the current revision can renew in one error-free pass |
| LeaderLeaseAnswers.GateRefuses | crates/deploy-ingress/src/http.rs:117-131 | the gate refuses exactly writes to a follower with high availability on |
| LeaderLease.AcquireRuns | crates/deploy-ingress/src/ha.rs:255-263 | with an empty key a pass creates the entry and leads |
| LeaderLease.TwoRawLeaders | docs/deploying-applications.md:146-146 | for every age from the time-to-live on, a run in which two instances hold the leader flag, one of them on a lease of that age |
| LeaderLease.LeadersOwnIffYoung | crates/deploy-ingress/src/ha.rs:224-282 | in every run every leader on a lease of a given age owns the entry, if and only if that age is below the time-to-live |
| LeaderLeaseExample.OldRequestLeavesOldRevision | crates/deploy-ingress/src/ha.rs:236-275 | a run in which an error-free pass of the owner ends at an old revision because an update of an earlier pass was applied late |
| SlowIoWorker.StepInv | crates/ebpf-monitor/src/actions.rs:675-768 | every access of any interleaving keeps the worker invariant |
| SlowIoWorker.WorkerRunningIsExact | crates/ebpf-monitor/src/actions.rs:675-728 | in every interleaving there is at most one worker, the flag says exactly whether there is one, and an active degradation always has one |
| SlowIoWorker.RecoversOnlyAfterQuietCooldown | crates/ebpf-monitor/src/actions.rs:699-727 | a waking worker ends the degradation exactly if nothing marked or exited since it looked, and then the last mark is a full cooldown old; otherwise it looks again |
| SlowIoWorker.OnlyWorkerOrExitRecovers | crates/ebpf-monitor/src/actions.rs:719-760 | nothing but a worker's wake-up or a manual exit ends an active degradation |
| SlowIoWorker.CausesChange | crates/ebpf-monitor/src/actions.rs:675-768 | what each access does to the two causes: a mark turns slow I/O on and restarts the cooldown, an exit turns both off, a memory event stores its value, the worker only ends what it saw unchanged |
| SlowIoWorker.FlagFollowsCauses | crates/ebpf-monitor/src/actions.rs:675-768 | in every interleaving in which no step takes away the grounds on which another thread will write the flag, it is on exactly while memory pressure or slow I/O requires it, whenever no thread has yet to write it |
| SlowIoWorker.UndisturbedIffEndsRight | crates/ebpf-monitor/src/actions.rs:675-768 | after any undisturbed run, while one other thread has the flag to write, a move takes no grounds away if and only if every further undisturbed way to a state without pending writes has the flag right |
| SlowIoWorker.RaceIsDisturbed | crates/ebpf-monitor/src/actions.rs:719-747 | the race below breaks that condition |
| SlowIoWorker.RaceLosesDegradedMode | crates/ebpf-monitor/src/actions.rs:719-747 | an interleaving that ends with critical memory pressure recorded and the degraded flag off |
| RecoveryActions.ActionDispatcher.constructor | crates/ebpf-monitor/src/actions.rs:61-76 | a new dispatcher is in the initial state |
| RecoveryActions.ActionDispatcher.Dispatch | crates/ebpf-monitor/src/actions.rs:171-465 | dispatching an event is the state change and the callbacks, in order, of the event function |
| RecoveryActions.ActionDispatcher.DispatchMemPressure | crates/ebpf-monitor/src/actions.rs:364-421 | as above for the four branches of a pressure level |
| RecoveryActions.ActionDispatcher.ActivateBackpressureIfNeeded | crates/ebpf-monitor/src/actions.rs:627-634 | the callback is made only when the flag was off |
| RecoveryActions.ActionDispatcher.DeactivateBackpressureIfNeeded | crates/ebpf-monitor/src/actions.rs:636-643 | the callback is made only when the flag was on |
| RecoveryActions.ActionDispatcher.MarkSlowIoDegraded | crates/ebpf-monitor/src/actions.rs:675-699 | a mark activates, bumps the generation, and starts a worker if there is none |
| RecoveryActions.ActionDispatcher.FireTimer | crates/ebpf-monitor/src/actions.rs:653-668 | a timer acts only at its own generation and level 1 |
| RecoveryActions.ActionDispatcher.WorkerWakes | crates/ebpf-monitor/src/actions.rs:708-727 | the three outcomes of a worker's wake-up |
| RecoveryActions.ActionDispatcher.ExitDegradedMode | crates/ebpf-monitor/src/actions.rs:750-768 | a manual exit clears both causes and, if degraded, backpressure |
| RecoveryActions.StepInv | crates/ebpf-monitor/src/actions.rs:364-421 | every atomic step keeps the invariant and publishes at most once, in order unless unannounced |
| RecoveryActions.DegradedIsEitherCause | crates/ebpf-monitor/src/actions.rs:719-768 | in every run the node is degraded exactly while memory pressure or slow I/O requires it |
| RecoveryActions.BackpressureAlternates | crates/ebpf-monitor/src/actions.rs:627-643 | in every run activations and deactivations strictly alternate from an activation on, and the flag follows |
| RecoveryActions.OneLiveTimer | crates/ebpf-monitor/src/actions.rs:645-669 | in every run a medium level has exactly one pending timer of its generation; that one ends the pressure, every other timer changes nothing |
| RecoveryActions.RecoveriesAnnounced | crates/ebpf-monitor/src/actions.rs:373-417 | in a run every recovery is published directly after an under-pressure publication if and only if no step goes from an unknown level to 0 unannounced |
| RecoveryActions.KnownLevelsAnnounce | crates/ebpf-monitor/src/actions.rs:373-417 | runs with levels 0 to 2 meet that condition |
| RecoveryActions.UnknownLevelBreaksOrder | crates/ebpf-monitor/src/actions.rs:418-420 | level 3 followed by level 0 publishes a recovery that no pressure preceded |
| RecoveryActions.TimerLeavesDegraded | crates/ebpf-monitor/src/actions.rs:655-667 | the timer of a medium level after a critical one leaves the node degraded at level 0 |
| RecoveryHistory.HistoryDecides | crates/ebpf-monitor/src/actions.rs:171-465 | in every run each flag, the level and the list of callbacks are what the history of steps alone calls for: the last step that asks for a flag or ends it |
| RecoveryHistory.PressureMeansBackpressure | crates/ebpf-monitor/src/actions.rs:373-417 | in every run levels 1 and 2 mean backpressure unless a manual exit came after the last pressure event; a fall to 0 leaves it off; critical pressure degrades and level 0 ends that |
| FallbackMonitor.Monitor.SampleMemory | crates/ebpf-monitor/src/fallback.rs:72-94 | a sample dispatches its level exactly when it differs from the last one |
| FallbackMonitor.FallbackAgreesWithDispatcher | crates/ebpf-monitor/src/fallback.rs:72-94 | with the fallback as only source, in every run the dispatcher's level is the sampled one, or 0 while that is 1; a sampled 0 means no memory degradation |
| FallbackMonitor.ChangesAreDispatched | crates/ebpf-monitor/src/fallback.rs:72-94 | in every run the level is that of the last readable sample, with thresholds in pages of four kilobytes, and exactly its changes are dispatched |
| BillingRecord.ComputeHash | crates/common/src/billing.rs:24-40 | feeding the hasher field by field hashes the preimage |
| BillingRecord.PreimageReads | crates/common/src/billing.rs:24-40 | reading the preimage from outside gives back number, timestamp, fuel, quota, memory, wall clock, status and trap, at their offsets and least significant byte first |
| BillingRecord.TextsRead | crates/common/src/billing.rs:24-40 | the link and the four identifying texts stand in this order after the number |
| BillingRecord.PreimageBinds | crates/common/src/billing.rs:24-40 | with equally long links, preimages are equal if and only if sequence number, link, every fixed-width field and the run-together identity are |
| BillingRecord.SameRecordIffSameBorders | crates/common/src/billing.rs:24-40 | records with one preimage, equally long links and one stored hash are the same record if and only if their identifying texts are equally long |
| BillingRecord.TextBordersNotBound | crates/common/src/billing.rs:28-31 | moving a byte between two identifying texts keeps the preimage |
| BillingChain.VerifyChain | crates/billing/src/lib.rs:56-81 | accepts exactly the good chains, with their length, and otherwise reports the first fault, a broken link before a tampered record |
| BillingChain.ChainIs | crates/billing/src/lib.rs:56-81 | a good chain begins with an empty link, links each record to the hash before it and seals each |
| BillingChain.FaultNames | crates/billing/src/lib.rs:60-75 | a reported fault names the record's number, the expected and the actual hash |
| BillingChain.ChainBinding | crates/billing/src/lib.rs:56-81 | two accepted chains of one length and last hash agree everywhere on all that a preimage binds, or two records at one position collide |
| BillingChain.AcceptedIffPrefix | crates/billing/src/lib.rs:56-81 | an in-order selection of a numbered chain is accepted if and only if it is a prefix |
| BillingWriter.NodeWriter.constructor | crates/billing/src/collector.rs:93-110 | a writer resumes from the cursor, else, also if it does not read back, from its newest stored record |
| BillingWriter.NodeWriter.FlushBatch | crates/billing/src/collector.rs:195-225 | a flush writes the batch record by record, skipping failed writes, empties it and saves the cursor |
| BillingWriter.NodeWriter.OnInput | crates/billing/src/collector.rs:128-161 | an event becomes the next linked record; a full batch is flushed at once |
| BillingWriter.StepInv | crates/billing/src/collector.rs:83-225 | every step of all writers over one store keeps the invariant |
| BillingWriter.CursorPrefixVerifies | crates/billing/src/collector.rs:195-225 | in every run, with crashes inside flushes and failed cursor saves, a node's records are numbered without gaps and sealed, and those up to the cursor are a good chain ending in the cursor's hash |
| BillingWriter.CrashLosesOnlyTheBatch | crates/billing/src/collector.rs:110-120 | in every run a crash between flushes loses at most 63 records and nothing stored |
| BillingWriter.StoredChainVerifies | crates/billing/src/collector.rs:83-184 | in every run whose flushes complete, all a node has stored is a good chain from 1, and outside a flush the cursor is its last number and hash |
| BillingWriter.StoredAcceptedIffPrefix | crates/billing/src/lib.rs:56-81 | after such a run an in-order selection of a node's records is accepted if and only if it is a prefix |
| BillingWriter.InterruptedFlush | crates/billing/src/collector.rs:209-225 | after a crash inside a flush that stored records beyond the cursor the chain is good and the restarted writer resumes below them |
| BillingWriter.DrainOverlays | crates/billing/src/collector.rs:213-218 | a flush overlays the stored chain from the writer's base on |
| BillingWriter.FlushingIsGeneral | crates/billing/src/collector.rs:195-218 | every flush of every run has its base inside the stored chain, so DrainOverlays covers it |
| BillingWriter.OverlayVerifies | crates/billing/src/collector.rs:213-218 | overlaying any sealed records, in a good chain or a broken one, gives a good chain if and only if nothing is left of the old one or the rest links to the last new record and is linked itself |
| BillingWriter.FlushVerdict | crates/billing/src/collector.rs:195-225 | in every run a flush leaves the node a good chain if and only if its batch joins what is stored beyond it |
| BillingWriter.InterruptedFlushBreaksChain | crates/billing/src/collector.rs:195-225 | a run with one crash inside a flush whose stored chain is good if and only if the record written again has the hash of the one it replaces |
| BillingEvents.RecordsCarryEvents | crates/billing/src/collector.rs:128-161 | in every run, with crashes and restarts, stored records and the writer's line carry in order tenant, application, instance, fuel, quota, memory, wall clock, status, trap and time of the events behind them |
| BillingEvents.NothingIsMadeUp | crates/billing/src/collector.rs:128-161 | in every run every stored record carries an event that arrived at its node |
| BillingEvents.EveryEventIsBilledOnce | crates/billing/src/collector.rs:128-161 | in every run in which the node does not crash, stored records and batch are one by one the events that arrived, and the fuel billed is the fuel consumed |
| BillingEvents.SixtyFourthEventFlushes | crates/billing/src/collector.rs:155-161 | in every run the event that makes a batch of 64 starts its flush and no other does |
| BillingEvents.FlushStores | crates/billing/src/collector.rs:209-218 | a flush stores each record that does not fail under its own key and changes nothing else |
| BillingEvents.FlushIsDrain | crates/billing/src/collector.rs:209-218 | a flush without failures is the flush of the runs |
| BillingStorage.KeyTextInjective | crates/storage/src/billing.rs:14-16 | different nodes or numbers have different keys |
| BillingStorage.KeyTextReads | crates/storage/src/billing.rs:14-16 | a key is the node id, a colon and the number without leading zeros |
| BillingStorage.ScanFinds | crates/storage/src/billing.rs:128-154 | the prefix scan of a node finds its own keys and exactly those of nodes whose id continues it after a colon |
| BillingStorage.VerifyNode | crates/billing/src/collector.rs:244-257 | verification sorts what the scan finds and verifies that |
| BillingStorage.NodeVerdictIsRight | crates/billing/src/collector.rs:244-257 | after every run whose flushes complete, a node verifies with its number of records if and only if no other node with records has an id starting with this id and a colon |
| BillingStorage.IntruderRun | crates/storage/src/billing.rs:128-154 | a run of two nodes with one record each, one id continuing the other, after which the shorter one does not verify as one record |
| KeyOrder.OneKeyBefore | crates/storage/src/billing.rs:14-16 | the text order of the keys is total and strict on records |
| KeyOrder.BeforeMeans | crates/storage/src/billing.rs:14-16 | texts compare at their first difference, a prefix first |
| KeyOrder.DecimalLess | crates/storage/src/billing.rs:14-16 | numerals of one length compare as texts as they do as numbers |
| BillingExport.Exporter.ReadBatch | crates/billing/src/export.rs:180-201 | the loop takes hold of the first 10000 records above the watermark, or of nothing |
| BillingExport.Exporter.ExportBatch | crates/billing/src/export.rs:206-222 | an export covers what was read and not written again since; a failed one gives it up |
| BillingExport.Exporter.SaveWatermark | crates/billing/src/export.rs:204-218 | a save moves the watermark to the last number read; a failed one goes unnoticed |
| BillingExport.StepInv | crates/billing/src/export.rs:174-224 | every step of the loop and of the writers keeps the invariant: what the loop holds is in the table above the watermark, and exported before the save unless written again |
| BillingExport.WatermarkGrows | crates/billing/src/export.rs:200-216 | the watermark never decreases |
| BillingExport.BatchIsFirst | crates/storage/src/billing.rs:177-191 | a record above the watermark is left out of a read only if 10000 others that come before it are taken |
| BillingExport.TurnExports | crates/billing/src/export.rs:183-220 | a turn without failures exports what it read and moves the watermark to the number of the last record in key order; a failed read or export changes neither |
| BillingExport.AtLeastOnceIffAbove | crates/billing/src/export.rs:174-224 | a run of any nodes, writing between any operations of the loop, whose reads can take all that is pending keeps every record at or below the watermark exported if and only if no record is written at a number the watermark has passed and no save passes a record written since the read |
| BillingExport.LostForever | crates/storage/src/billing.rs:177-191 | a record that the watermark passed unexported is never exported |
| BillingExport.SingleNodeAtLeastOnce | crates/billing/src/export.rs:174-224 | for one node, writing between any operations of the loop, every run is at least once in which each read finds at most 10000 pending records, or pending numbers of equally many digits |
| BillingExport.BoundIsExact | crates/billing/src/export.rs:183-184 | a bound on the pending records guarantees at-least-once export of a single node, in every run, if and only if it is at most 10000 |
| BillingExport.SecondNodeIsLost | crates/storage/src/billing.rs:177-226 | after one node's first export another node's first record is never exported, nor is the first record written again |
| BillingExport.WriteDuringExportIsLost | crates/billing/src/export.rs:183-214 | a run in which every record is written above the watermark of its time and one, written between the read and the save, is lost |
| BillingExport.BacklogLosesRecord | crates/storage/src/billing.rs:177-191 | with records 9999 to 19999 pending a turn of the loop moves the watermark past record 9999 without exporting it |
| BillingExport.SingleNodeLosesRecord | crates/billing/src/export.rs:174-224 | a run of one node from the empty table reaches that backlog, and the record is lost though every operation succeeds |
| BillingReport.GenerateReport | crates/billing/src/report.rs:27-91 | the report holds the 64-bit sums and the peak of the selected records and one row per application, by falling fuel |
| BillingReport.FoldIsUsage | crates/billing/src/report.rs:48-78 | the running map equals, application by application, the sums over that application's records alone |
| BillingReport.OneRecordMore | crates/billing/src/report.rs:33-71 | a further record of the tenant in the period adds its fuel, wall clock, trap and one request to the totals and to its application's row, and raises the peak to its memory; any other record changes nothing |
| BillingReport.EmptyReport | crates/billing/src/report.rs:27-91 | without records a report is zero and has no rows |
| BillingReport.SortByFuel | crates/billing/src/report.rs:79-79 | the same rows, each once, by falling fuel, rows of equal fuel in their old order |
| BillingReport.Conservation | crates/billing/src/report.rs:27-91 | requests, fuel, wall clock and traps of the rows add up to the totals, modulo 2^64 always and as numbers if the true sum fits; exactly then is the total the true sum |
| BillingReport.AverageIsWholePart | crates/billing/src/report.rs:72-78 | every row has a request and its average is the whole part of fuel per request |
| BillingReport.PeakIsMaximum | crates/billing/src/report.rs:51-51 | the peak bounds every record and is attained |
| BillingReport.PeriodsAddUp | crates/billing/src/report.rs:33-38 | totals of adjacent periods add up, modulo 2^64, to the whole period's, with the peak as maximum |
| BillingReport.TenantReport | crates/billing/src/collector.rs:266-290 | filtering the stored records first does not change the report |
| CanonicalPayload.SecondLabelTells | crates/common/src/upgrade_provenance.rs:44-56 | texts of different kinds differ, newlines or not |
| Signatures.HexRoundTrip | crates/common/src/artifact_transfer.rs:81-91 | decoding hexadecimal text gives back the bytes |
| Signatures.HexDecodes | crates/common/src/artifact_transfer.rs:81-91 | a text decodes to bytes if and only if, in lower case, it is their encoding |
| Signatures.TrimStrips | crates/common/src/artifact_transfer.rs:81-91 | white space on both sides is stripped and nothing else |
| Signatures.CheckPasses | crates/common/src/artifact_transfer.rs:81-97 | a signature passes if and only if, padding and case aside, it writes 64 bytes that the scheme accepts |
| Signatures.CheckFails | crates/common/src/artifact_transfer.rs:81-97 | otherwise the error says whether the length or the scheme is at fault |
| Signatures.KeyParses | crates/common/src/upgrade_provenance.rs:10-19 | a key text parses to exactly the 32 bytes it writes, if they are a key |
| Signatures.SignedPasses | crates/common/src/artifact_transfer.rs:81-97 | a signature passes for the message it was made for |
| Readings.ReadingIffMark | crates/common/src/artifact_transfer.rs:56-71 | texts run together with marks between them have a second reading if and only if some text contains a mark of the place before or after it |
| ManifestText.TextSharedIffHidden | crates/common/src/artifact_transfer.rs:56-71 | a manifest shares its text with a different one if and only if one of its free texts contains what may stand between it and a neighbour: a label, or the lines of the fixed-form fields between them and a label |
| ManifestText.PayloadBinds | crates/common/src/artifact_transfer.rs:56-71 | otherwise texts are equal exactly if the manifests are, up to an absent audience reading like an empty one |
| ManifestText.ManifestLines | crates/common/src/artifact_transfer.rs:56-71 | the ten signed lines of a manifest without newlines, label by label |
| Signatures.PublicKeyParses | crates/common/src/upgrade_provenance.rs:10-19 | the hexadecimal text of a public key parses to it |
| ManifestText.PlainTextIsBound | crates/common/src/artifact_transfer.rs:56-71 | text fields without newlines are enough for that |
| ManifestText.IssuerReadsAsAudience | crates/common/src/artifact_transfer.rs:56-71 | with a newline in the issuer two manifests share one text |
| ArtifactManifest.IssuedAccepted | crates/common/src/artifact_transfer.rs:146-168 | an issued manifest is accepted if and only if digest, method and requester are the granted ones, the ttl is positive, and it is less than 1000 times the ttl after issue, within the range of the clock |
| ArtifactManifest.AcceptedUntil | crates/common/src/artifact_transfer.rs:163-163 | in milliseconds: until the time of issue plus 1000 times the ttl, or if that is past 2^64 - 1, until then |
| ArtifactManifest.VerifyReports | crates/common/src/artifact_transfer.rs:204-272 | a bad signature is reported first, otherwise the first of nine faults in the order of the checks, otherwise the manifest is accepted |
| ArtifactManifest.AcceptanceGoesBack | crates/common/src/artifact_transfer.rs:204-272 | in every history whose grants are safe for the digest shown, each acceptance goes back to an earlier grant of this authority for the same digest, method, audience, transfer id and use, less than 1000 times its ttl ago |
| ArtifactManifest.MisusedIffSecondWindow | crates/common/src/artifact_transfer.rs:204-272 | a manifest with a grant's text can be accepted for its digest against its terms if and only if the grant's audience or transfer id contains the lines of a time window: exactly then is the grant not safe for its own digest |
| ArtifactManifest.AudienceIsMisused | crates/common/src/artifact_transfer.rs:204-272 | if the audience contains the lines of a window, the one whom its first part names is accepted in that window |
| ManifestText.DigestsTell | crates/common/src/artifact_transfer.rs:56-71 | manifests for different digests without newlines have different texts, so every grant is safe for other digests |
| ManifestText.OneWindowBinds | crates/common/src/artifact_transfer.rs:56-71 | if neither audience nor transfer id contains the lines of a window, a manifest with the same text, digest, path and issuer and a window is the same |
| ArtifactManifest.PlainGrantIsBound | crates/common/src/artifact_transfer.rs:146-168 | grants whose texts have no newline share their text with no other manifest |
| ArtifactManifest.HonestShowing | crates/common/src/artifact_transfer.rs:146-272 | granting and showing a manifest in time is a history that AcceptanceGoesBack speaks about |
| ReleaseText.DelegationSharedIffHidden | crates/common/src/upgrade_provenance.rs:43-56 | a delegation shares its text with a different one if and only if one of its four free texts contains a newline and the label of its own or the next free field |
| ReleaseText.ProvenanceSharedIffHidden | crates/common/src/upgrade_provenance.rs:107-125 | a provenance shares its text with that of another release if and only if one of its eight free texts contains what may stand between it and a neighbour: a label, or a protocol version line and a label |
| ReleaseText.DelegationBinds | crates/common/src/upgrade_provenance.rs:43-56 | otherwise delegation texts are equal exactly if the delegations are |
| ReleaseText.ProvenanceBinds | crates/common/src/upgrade_provenance.rs:107-125 | otherwise provenance texts are equal exactly if the statements are, up to absent details reading like empty ones |
| ReleaseText.DelegationLines | crates/common/src/upgrade_provenance.rs:43-56 | the seven signed lines of a delegation without newlines, label by label |
| ReleaseText.ProvenanceLines | crates/common/src/upgrade_provenance.rs:107-125 | the twelve signed lines of a provenance without newlines, label by label |
| ReleaseProvenance.OnlyDelegations | crates/common/src/upgrade_provenance.rs:43-56 | the text of a delegation is the text of no provenance and no manifest |
| ReleaseProvenance.OnlyReleases | crates/common/src/upgrade_provenance.rs:107-125 | the text of a provenance is the text of no delegation and no manifest |
| ReleaseProvenance.VerifyReports | crates/common/src/upgrade_provenance.rs:149-236 | a bundle is refused for the first of sixteen faults in the order of the checks, and accepted if it has none |
| ReleaseProvenance.SignedBundleAccepted | crates/common/src/upgrade_provenance.rs:136-236 | a bundle signed by the root and the delegated key, however the public keys are written, is accepted exactly for the upgrade it names while both statements are in force |
| ReleaseProvenance.AcceptanceIsAuthorised | crates/common/src/upgrade_provenance.rs:149-236 | every accepted upgrade has a delegation of the right scope signed by the root key and a release for this url, digest and versions signed by the very key it names, both in force |
| ReleaseProvenance.PlainDelegationIsBound | crates/common/src/upgrade_provenance.rs:43-56 | delegations whose texts have no newline meet the condition of AcceptanceIsAuthorised |
| ReleaseProvenance.PlainReleaseIsBound | crates/common/src/upgrade_provenance.rs:107-125 | the same for provenance statements |
| ReleaseProvenance.HonestDelegation | crates/common/src/upgrade_provenance.rs:65-79 | a delegation signed under the root key meets the hypothesis of AcceptanceIsAuthorised |
| ReleaseProvenance.HonestRelease | crates/common/src/upgrade_provenance.rs:136-147 | so does a release signed under the delegated key |
| GrpcFraming.DecodeStream | apps/wasi-grpc-echo/src/lib.rs:314-343 | the loop computes the recursive reading of the stream, errors included |
| GrpcFraming.EncodeMessage | apps/wasi-grpc-echo/src/lib.rs:345-359 | a message becomes one frame, its length in the low 32 bits |
| GrpcFraming.WriteMessages | apps/wasi-grpc-echo/src/lib.rs:224-228 | a response body is the frames of its messages in order |
| GrpcFraming.RoundTrip | apps/wasi-grpc-echo/src/lib.rs:314-359 | what a response writes decodes to the same messages |
| GrpcFraming.FitsIffRoundTrips | apps/wasi-grpc-echo/src/lib.rs:345-359 | one message comes back if and only if it is shorter than 2^32 bytes |
| GrpcFraming.AcceptedIff | apps/wasi-grpc-echo/src/lib.rs:314-343 | an input is accepted with given messages exactly when it is the frames of payloads that decode to them |
| GrpcFraming.FramesInjective | apps/wasi-grpc-echo/src/lib.rs:314-343 | there is only one way to cut an input into frames |
| GrpcFraming.FrameBytes | apps/wasi-grpc-echo/src/lib.rs:354-357 | a frame is a zero byte, four bytes of length with the most significant first, and the payload |
| GrpcFraming.FirstFrameDecides | apps/wasi-grpc-echo/src/lib.rs:320-341 | which error the first bytes of an input decide on, or how the rest is read |
| GrpcFraming.DecodeJoins | apps/wasi-grpc-echo/src/lib.rs:314-343 | after a part that decodes, the rest decodes as if alone, errors included |
| GrpcFraming.CutIsRefused | apps/wasi-grpc-echo/src/lib.rs:319-334 | a stream cut inside a frame is refused with the matching error |
| GrpcFraming.FiveBytesEach | apps/wasi-grpc-echo/src/lib.rs:319-341 | every message takes at least five bytes of input |
| HotConfiguration.Merge | crates/config/src/hot.rs:213-261 | field-by-field assignment on a copy is the merge function |
| HotConfiguration.MergeIsUpdate | crates/config/src/hot.rs:213-261 | the merge is the one configuration in which each of the fifteen fields has the value asked for, or else the base's, and nothing else changed |
| HotConfiguration.MergeTwice | crates/config/src/hot.rs:213-261 | two updates in turn are one update in which the later wins |
| HotConfiguration.Validate | crates/config/src/validation.rs:693-764 | accepts exactly the valid configurations and otherwise reports exactly the broken rules, in order; the checked products equal the mathematical ones |
| HotConfiguration.ValidIff | crates/config/src/validation.rs:693-764 | the limits of a valid configuration, written out |
| HotConfiguration.RulesInOrder | crates/config/src/validation.rs:693-764 | broken rules are reported in the order of the checks, each once |
| HotConfigHandle.Handle.Open | crates/config/src/hot.rs:57-81 | a start comes up with the snapshot, or the cold configuration if there is none or it cannot be read, or fails on an unreadable snapshot |
| HotConfigHandle.Handle.ApplyUpdate | crates/config/src/hot.rs:91-116 | an update is saved and published, every field asked for with its value, or nothing changes; it succeeds exactly if valid and saved |
| HotConfigHandle.Handle.Reset | crates/config/src/hot.rs:119-138 | a reset removes the snapshot and publishes the cold configuration, or nothing changes |
| HotConfigHandle.AlwaysValid | crates/config/src/validation.rs:307-365 | from a valid cold configuration no run, whatever fails, makes an invalid configuration live or saves one |
| HotConfigHandle.LiveConfiguration | crates/config/src/hot.rs:57-138 | after every run in which no blind session, started on a failed read over a snapshot and not reset since, saves an update: the snapshot is the cold configuration with the combined updates saved since the last reset, and a live configuration is valid and is that one, or the cold one in a blind session |
| HotConfigHandle.LastUpdateWins | crates/config/src/hot.rs:57-138 | after every such run each live field has the value of the last update since the reset that asked for it, or else the cold one |
| HotConfigHandle.BlindSaveIsRight | crates/config/src/hot.rs:65-104 | after every such run a save in a blind session keeps the snapshot right if and only if the old snapshot and the cold configuration agree on every field the update leaves alone |
| HotConfigHandle.BlindSaveLosesUpdate | crates/config/src/hot.rs:65-104 | a run in which a start cannot read the snapshot and the next saved update loses the one before |
| HotConfigHandle.RestartOutcome | crates/config/src/hot.rs:65-73 | after every run in which no blind session saves, exactly when the next restart fails, and what it comes up with otherwise |
| HotConfigHandle.NanIsValidAndFatal | crates/config/src/validation.rs:705-707 | a run from a valid cold configuration, with one update, after which every start that reads the store fails and changes nothing |

## Left out

- HotConfiguration.Validate: states which rules are reported and in which order, not the wording of the messages.
- Signatures.Trim: strips ASCII white space only, not the other Unicode white space.
- BillingWriter.StepInv: a failed write of a single record, after which the code goes on, and a cursor that does not
  read back are modelled for one writer object but are not steps of the runs.
- ArtifactManifest.AcceptanceGoesBack: exact for the granted digest and for digests without newlines; for another
  digest that contains newlines, which no SHA-256 digest does, the condition on the grant is only sufficient.
- SlowIoWorker.UndisturbedIffEndsRight: with two or more other threads that have yet to write the flag a barred step
  may be harmless, since one of them may clear the cause again.
- BillingExport.SingleNodeAtLeastOnce: equally many digits are sufficient for more than 10000 pending records, not
  necessary; the exact statement is BoundIsExact.
- Debug builds, in which an overflowing addition panics.
- Relaxed memory ordering: `SlowIoWorker` interleaves atomic accesses as if they were sequentially consistent.
- System-call and namespace events of the monitor: they stop instances or publish incidents and touch no state here.
- Key derivation and the header encoding of manifests: one hash call and a JSON round trip.
- `single_use` of a manifest: carried and bound by the signature, not enforced in the modelled code.
- File-descriptor, child-process and disk sampling of the fallback monitor, and the parsing of kernel events: host
  input with easy branches.
- Exporter bodies, the text form of reports and the list of tenants: output plumbing.
- Configuration loading and overrides, URL, TLS, Vault and key-management checks: one branch each.
- Deploy intents, authentication, credentials, the tenant cache, application identifiers, health checks, metrics
  and logging: easy members that no theorem here needs.
