# AxonFlow agent: verified models

Dafny models of the stateful cores of the AxonFlow agent, with proofs of what they promise. `dafny verify dfyconfig.toml`
checks the whole project.

| file | what it models |
|---|---|
| `Encoding.dfy`, `DecisionRecord.dfy` | the length-prefixed pre-image of a decision record, and a parser for it |
| `AuditPreimage.dfy` | the text behind a record's audit hash |
| `DecisionChain.dfy`, `ChainTracker.dfy` | hash chain, sealing, key rotation, the in-memory tracker and the verifier loop |
| `TamperEvidence.dfy` | what a verified chain is worth to a reader |
| `AppendProtocol.dfy`, `AppendInvariants.dfy`, `AppendChains.dfy`, `AppendRuns.dfy`, `AppendOrder.dfy` | the tracker over a database: queue, workers, advisory lock, rollback, shutdown |
| `OverrideCache.dfy` | the per-org cache of detection overrides |
| `AuditQueue.dfy`, `AuditOrder.dfy`, `AuditWriter.dfy`, `FallbackReplay.dfy` | the audit queue, its order and limits, its methods, and the replay of its fallback file |
| `TenantStore.dfy`, `TenantLifecycle.dfy`, `TenantAccess.dfy` | community tenants: registration, authentication, sweep, recovery |
| `CircuitBreaker.dfy`, `WindowLimiter.dfy` | shipping behind a breaker; the two fixed-window limiters |
| `DecisionPipeline.dfy`, `ContextCanonicalization.dfy` | verdict mapping, redaction merge, seam gate; request-context canonicalization |
| `HtmlEscape.dfy` | the attribute escaper of the recovery e-mails |

Code that changes state is a class or a method with loops, tied by its `ensures` to functions; the properties are proved
about those functions. Code that several goroutines, requests or sessions share is a machine whose actions are the steps
nobody can see the middle of, and the properties hold after every sequence of enabled actions. Bytes are characters.
SHA-256, Ed25519 (section 5.1 of RFC 8032), base64 and the Unicode tables are function values; what is needed of them is a
hypothesis of the lemma that needs it, and where collision-freedom is needed it is asked only of the records involved.
Database answers, file-system answers, clocks and fresh ids are parameters.

## Where the code differs from its documentation

Each of these has a lemma that reaches the difference from an initial state, and one with the exact condition.

- The comment over the field separators says that no two field tuples share a pre-image. Lists of two or more items can,
  when an item holds the unit separator 0x1F; this is the only exception (`PreimageCommitsIffClean`). Such an entry, once
  recorded, can be read back as another one (`RecordedUncleanCanBeAltered`).
- The audit hash is documented to be length-prefixed against collisions. Outcome and risk level carry no length, and fields
  are the only ones with their text if and only if neither holds a bar (`AuditTextCommitsIff`); all other fields are always
  determined (`SameAuditText`).
- The header of the signing file says that only truncation goes unseen. `recordToDB` signs before an INSERT that may roll
  back, and what is left is accepted as the whole chain (`RollbackLeavesAcceptedRecord`). After any run, the claim holds for a
  chain if and only if every record sealed for it was committed (`RunOnlyPrefixesIffNothingRolledBack`).
- `invalidate` is documented to make the next resolution read again. A `get` that has read and not yet stored defeats it
  (`PendingStoreIsReachable`), and nothing else does (`InvalidationForcesReadIffNothingPending`).
- The audit queue's closed check and its send are separate steps, and `LogMetric` has no check. A producer can be between the
  two when Shutdown sets its flag (`MidSendIsReachable`). From then on, leaving aside metric calls that begin later, a send on
  a closed channel is possible exactly when some producer is (`PanicReachableIffMidSend`). A metric call that begins after
  the close always makes one (`MetricAfterShutdownPanics`).
- `queued = processed + failed + backlog` fails without a database handle (`FlushWithoutDatabase`), exactly once a metric has
  been flushed (`QueuedIsConserved`). A queue made without workers shuts down cleanly with entries inside
  (`NoWorkersStrandEntries`), and no other does (`CleanShutdownSettlesAll`).
- The replay ignores write errors on its temporary file, so an entry can be lost (`FailedWriteLosesEntry`); this happens
  exactly when such an error is followed by the rename (`ReplayLosesNothingIff`). The queue keeps appending to the file it
  opened at its start: what it appends after a rename is out of the next replay's reach (`RenameStrandsAppends`), and only
  then (`AppendSurvivesIffNotRenamed`).
- The lock that is to keep a chain from forking hashes the text of the chain id, while the column is a UUID. Two spellings of
  one id with different locks fork it (`SpellingsFork`), and nothing else does (`NeverForksIffSpellingsShareLocks`). The
  program's own ids have one spelling (`CanonicalIdsAreSafe`).
- The sweep is to leave no data of a terminated tenant. A write that is between its credential check and its insert when the
  tick commits leaves a row (`OvertakenWriteLeavesOrphan`), and only such a write does (`OrphansIffOvertaken`).
- A comment in the recovery says that its retry after a taken id still works. PostgreSQL aborts a transaction at its first
  failed statement, so a recovery whose first id is taken fails where a registration would go on
  (`CollisionDefeatsRecovery`). The two loops agree exactly when the first id is free or registration fails too
  (`LoopsAgreeIff`).
- "n requests per minute" allows up to 2n - 1 in some intervals one minute long (`WindowBoundIsTight`), and no more where the
  clock is read under the lock (`WindowBound`), as for registrations. `checkRateLimit` reads it before, so requests can be
  handled out of clock order. If nobody waits longer than some lag for the lock (`LagIsLockWait`), the exact bound is
  w(n - 1) + 1, where w counts the windows that can reach such an interval (`LaggingBound`, `LaggingBoundIsTight`). That is
  2n - 1 for all traffic if and only if the lag is at most one nanosecond or n at most one (`KeepsTwiceIffLagAtMostOne`); two
  nanoseconds let seven pass where five are promised (`SevenInAMinute`), and without a bound on the lag there is none on the
  requests (`UnboundedLagUnboundedAdmissions`).

## Model

| member | source | states |
|---|---|---|
| `DigestEncoding.ParseRawsOfEncode` | platform/agent/decision_chain_signing.go:110-159 | a left-to-right parser recovers every scalar, and the count and joined text of every list, from the encoded fields, for all byte strings |
| `DigestEncoding.SplitJoin` | platform/agent/decision_chain_signing.go:65-73 | cutting a joined list at its unit separators gives the list back when no item of a longer list holds one |
| `DigestEncoding.JoinSeps` | platform/agent/decision_chain_signing.go:65-73 | a joined list of n items holds at least n - 1 separators, and exactly n - 1 iff no item holds one |
| `DigestEncoding.CleanListIsDetermined` | platform/agent/decision_chain_signing.go:65-73 | a clean list is the only list, clean or not, with its count and joined text |
| `DigestEncoding.AmbiguousListHasTwin` | platform/agent/decision_chain_signing.go:65-73 | every list that is not clean shares count and joined text with a different list |
| `DecisionRecord.ParsePreimageOfRecord` | platform/agent/decision_chain_signing.go:110-159 | round trip: parsing the pre-image of a record with clean lists yields all its digested fields and its position |
| `DecisionRecord.SamePreimage` | platform/agent/decision_chain_signing.go:110-159 | records with one pre-image agree on every scalar, and on the count and joined text of both lists |
| `DecisionRecord.PreimageCommitsIffClean` | platform/agent/decision_chain_signing.go:65-73 | a record is the only one with its pre-image if and only if its lists are clean |
| `DecisionRecord.TwinRecord` | platform/agent/decision_chain_signing.go:110-159 | a record with an unclean list has a different record of the same org and chain with the same pre-image |
| `AuditPreimage.SameAuditText` | platform/agent/decision_chain.go:918-937 | entries with one audit text agree on every audited field, but for where outcome and risk level are parted |
| `AuditPreimage.UnclearHasTwin` | platform/agent/decision_chain.go:918-937 | every entry with a bar in its outcome or risk level shares its text with another entry |
| `AuditPreimage.AuditTextCommitsIff` | platform/agent/decision_chain.go:918-937 | audited fields are the only ones with their text if and only if outcome and risk level hold no bar |
| `DecisionChain.SealIsStable` | platform/agent/decision_chain_signing.go:188-200 | sealing a sealed record at its own place changes nothing, and the signature is not part of the chain-hash; body, metadata and the given position stay; without a key there is neither signature nor key id |
| `DecisionChain.SealVerifies` | platform/agent/decision_chain_signing.go:188-200 | the signature made by sealing verifies under the signer's public key, and is reported as lacking a key exactly when the key id is not known |
| `DecisionChain.StrippingCostsOnlyAuthorship` | platform/agent/decision_chain_signing.go:514-562 | a record stripped of its signature or key id breaks no other record and passes if its link does, and authorship is then not proven |
| `DecisionChain.LinearExtend` | platform/agent/decision_chain_signing.go:165-200 | a record placed at the tail of a linear chain, with the tail's chain-hash and the next number, keeps the chain linear |
| `DecisionChain.AllSignedIffCounted` | platform/agent/decision_chain_signing.go:514-562 | the verifier's count equals the length iff every record is signed |
| `DecisionChain.RotatedChainBreaksAtDroppedKey` | platform/agent/decision_chain_signing.go:566-579 | in a chain recorded under any succession of keys a record checks iff it is unsigned or its key is retained |
| `ChainTracker.FirstBreakIsFirstDroppedKey` | platform/agent/decision_chain_signing.go:514-579 | record k of such a chain is the first break iff its key is the first that was dropped |
| `DecisionChain.SeededKeysMatch` | platform/agent/decision_chain.go:308-341 | with every retired key listed under its own id, the constructor's key table holds the right key for every record of a rotated chain |
| `ChainTracker.AppendKeepsStoreOk` | platform/agent/decision_chain.go:509-534 | appending for one org keeps every (org, chain) linear and sealed, also with several orgs under one chain id |
| `ChainTracker.RunRecordsAreLinear` | platform/agent/decision_chain.go:509-534 | after any sequence of calls every (org, chain) is one linear chain sealed by the tracker |
| `ChainTracker.RunRecordsKeepCalls` | platform/agent/decision_chain.go:381-448 | after any sequence of calls each (org, chain) holds exactly the entries of its own calls, in order |
| `ChainTracker.RecordingThenVerifyingSucceeds` | platform/agent/decision_chain_signing.go:583-601 | after any sequence of calls every (org, chain) with records verifies, and authorship is proven iff a signing key is set |
| `ChainTracker.AddRetainedKeys` | platform/agent/decision_chain.go:308-341 | the loop over retained keys adds every present key and never replaces one already in the table, whatever the iteration order |
| `ChainTracker.FindTail` | platform/agent/decision_chain.go:509-534 | the backward scan finds the chain-hash and next number of the org's own chain among interleaved orgs |
| `ChainTracker.ToMicros` | platform/agent/decision_chain.go:389-398 | the recorded time is the given one rounded down to whole microseconds |
| `ChainTracker.AuditHashCoversNineFields` | platform/agent/decision_chain.go:918-937 | without a collision and without bars in outcome and risk level, two entries have one audit hash iff they agree on all nine audited fields |
| `ChainTracker.CompleteCompletes` | platform/agent/decision_chain.go:381-411 | id, system id, risk level and audit hash are kept when given and otherwise get the fresh id, the tracker's system id, "limited" and the hash of what is stored; the time is cut to microseconds; every other field and the metadata stay |
| `ChainTracker.GivenFieldsAreStored` | platform/agent/decision_chain.go:381-411 | an entry that gives all of these is stored as it is, with its time cut to microseconds |
| `ChainTracker.NothingStaysBlank` | platform/agent/decision_chain.go:381-411 | no defaulted field of a stored record is blank |
| `ChainTracker.CompletingTwiceIsOnce` | platform/agent/decision_chain.go:381-411 | completing a completed entry, with any other fresh id, clock and system id, changes nothing |
| `ChainTracker.RecordedEntryIsStored` | platform/agent/decision_chain.go:381-448 | the store RecordDecision leaves: the entry's own (org, chain) gains one record, completed from the entry field by field as above, and no other (org, chain) changes |
| `ChainTracker.DeriveKeyId` | platform/agent/decision_chain_signing.go:179-182 | a derived key id is the first 16 hex digits of the hash of the public key |
| `ChainTracker.SignerFor` | platform/agent/decision_chain.go:308-325 | there is a signer iff a key is configured; a configured key id is kept, a blank one is the first 16 digits of the hash of the public key |
| `ChainTracker.DecisionChainTracker.constructor` | platform/agent/decision_chain.go:286-362 | the new tracker is empty, valid and holds the seeded key table; an unnamed signing key gets the id derived from its public half |
| `ChainTracker.DecisionChainTracker.RecordDecision` | platform/agent/decision_chain.go:381-448 | an empty org id is refused and counted as an error; otherwise the completed entry takes the next place of its chain and the call is counted; what is stored is given by `RecordedEntryIsStored` |
| `ChainTracker.DecisionChainTracker.RecordToMemory` | platform/agent/decision_chain.go:509-534 | the store becomes the one with the entry sealed at the tail of its (org, chain), and stays valid |
| `ChainTracker.DecisionChainTracker.VerifyEntries` | platform/agent/decision_chain_signing.go:514-562 | for any list: valid iff every link and every present signature checks; the reported break is the first failing record with its reason and counts; authorship proven iff moreover non-empty and all signed; the tracker's key id and public key are reported |
| `ChainTracker.DecisionChainTracker.VerifyChain` | platform/agent/decision_chain_signing.go:583-601 | a result exists iff the org is named and has visible records; it is then valid, with authorship proven iff a signing key is set |
| `ChainTracker.DecisionChainTracker.MemoryChainForOrg` | platform/agent/decision_chain_signing.go:665-675 | the returned records are the org's own, in append order |
| `TamperEvidence.ChainHashCommits` | platform/agent/decision_chain_signing.go:165-174 | without a collision between the two, equal chain-hashes mean equal digested fields, position and predecessor |
| `TamperEvidence.MatchedFollows` | platform/agent/decision_chain_signing.go:165-200 | position by position, a linked list of sealed records is the committed chain up to its last record |
| `TamperEvidence.AcceptedFollowsCommitted` | platform/agent/decision_chain_signing.go:18-38 | a list that earns authorship_proven without collision or forgery agrees with the committed chain in all records but its last, and its last was sealed for exactly that position |
| `TamperEvidence.OnlyTruncationGoesUnseen` | platform/agent/decision_chain_signing.go:18-38 | if no signed record was rolled back, an accepted list is a prefix of the committed chain: alteration, insertion, deletion and reordering are detected |
| `TamperEvidence.TruncationOrRollbackIsAccepted` | platform/agent/decision_chain_signing.go:18-38 | conversely a truncated chain, and one ending in a rolled-back signed record, are accepted; the shown list is a prefix iff that record was committed |
| `TamperEvidence.OnlyPrefixesIffNothingRolledBack` | platform/agent/decision_chain_signing.go:18-38 | for one chain: only prefixes of the committed rows are accepted iff every record sealed for it was committed |
| `TamperEvidence.UncleanRecordCanBeAltered` | platform/agent/decision_chain_signing.go:65-73 | an accepted chain with an unclean record can be altered in that record and is still accepted |
| `AppendInvariants.QueueInvStep` | platform/agent/decision_chain.go:381-448 | every step keeps the queue discipline: no producer between check and send while the channel is closed, no panic, exited workers only after the drain |
| `AppendInvariants.JobInvStep` | platform/agent/decision_chain.go:645-655 | every step keeps each counted call in exactly one of hand, queue, table and failures; the order is that of `AppendOrder.QueueIsFifo` |
| `AppendChains.RunKeepsBase` | platform/agent/decision_chain.go:381-448 | queue discipline, job accounting, lock ownership and row contents hold after every sequence of steps, however ids are spelled |
| `AppendChains.RunKeepsInv` | platform/agent/decision_chain.go:544-642 | where the spellings of a chain id share its lock, the chain invariants hold after every sequence of steps |
| `AppendChains.NoForks` | platform/agent/decision_chain.go:591-634 | in every interleaving, rolled-back appends and colliding advisory locks included, and where the spellings of a chain id share its lock: the rows of each (org, chain) are one linear chain 1..n, the tail query returns its last row and the listing query the rows in order |
| `AppendRuns.NeverForksIffSpellingsShareLocks` | platform/agent/decision_chain.go:599-612 | no run of a deployment forks a chain iff any two spellings of one chain id take one lock |
| `AppendRuns.SpellingsFork` | platform/agent/decision_chain.go:599-612 | two calls that spell one chain id differently, under different locks, leave two first records |
| `AppendRuns.CanonicalIdsAreSafe` | platform/agent/decision_chain.go:386-388 | ids that are always canonical meet both conditions on spelling |
| `AppendChains.TailIsLast` | platform/agent/decision_chain_signing.go:371-385 | on a linear chain the only first row of the descending order is the last record |
| `AppendChains.OrderIsStrictAndTotal` | platform/agent/decision_chain_signing.go:371-400 | the order of the tail and listing queries is strict and decides between any two records with different ids, by sequence number, then time, then id |
| `AppendChains.ListingIsRows` | platform/agent/decision_chain_signing.go:391-416 | on a linear chain the only ascending listing is the chain itself |
| `AppendChains.CallsAreConserved` | platform/agent/decision_chain.go:381-448 | in every interleaving each counted call is mid-call or in a worker's hand, queued, committed with its own content, or counted as a write error, never in two places, and nothing is sent on a closed channel; `AppendOrder` adds the order |
| `AppendChains.CountsAddUp` | platform/agent/decision_chain.go:381-448 | decisions_recorded is the sum of calls in hand, queued, committed and failed |
| `AppendChains.CleanShutdown` | platform/agent/decision_chain.go:984-1017 | when Shutdown returns nil no worker holds an entry and, given at least one worker, the queue is empty |
| `AppendOrder.QueueIsFifo` | platform/agent/decision_chain.go:645-655 | in every reachable state the calls sent are the calls received, in order, followed by the queue |
| `AppendOrder.CommittedInSendOrder` | platform/agent/decision_chain.go:645-655 | with one worker, two sent calls that it committed stand in the table in the order in which they were sent |
| `AppendOrder.ChainFollowsSendOrder` | platform/agent/decision_chain.go:645-655 | on one chain the earlier of the two also has the smaller chain_seq |
| `AppendOrder.TwoWorkersCanReverse` | platform/agent/decision_chain.go:645-655 | with two workers a run commits two calls of different chains in the opposite order |
| `AppendOrder.QueueFillsUp` | platform/agent/decision_chain.go:413-440 | calls sent while the queue has room stand in it in order, up to its size |
| `AppendOrder.ShutdownCanFinish` | platform/agent/decision_chain.go:984-1017 | every asynchronous deployment has a run in which Shutdown returns nil |
| `AppendChains.RunIsTamperEvident` | platform/agent/decision_chain_signing.go:18-38 | for the table left by any sequence of steps of any number of replicas, each under its own key, at any moment: an accepted list is the committed chain in all but its last record, which was sealed for its position |
| `AppendRuns.RunOnlyPrefixesIffNothingRolledBack` | platform/agent/decision_chain_signing.go:18-38 | after any sequence of steps with known keys: of the lists made without collision or forgery, only prefixes of the committed chain are accepted iff every record sealed for that chain was committed |
| `AppendRuns.RollbackLeavesAcceptedRecord` | platform/agent/decision_chain.go:591-634 | in any deployment, through the queue and a worker or without, a first append that rolls back after sealing leaves a record that is accepted although nothing was committed |
| `AppendRuns.RecordedUncleanCanBeAltered` | platform/agent/decision_chain_signing.go:65-73 | an entry with an unclean list, once recorded, is also accepted in an altered form |
| `AppendRuns.RunRecordsVerify` | platform/agent/decision_chain_signing.go:583-601 | recording then verifying over the database: after any sequence of steps a committed row checks iff its writer has no key or a retained one, and authorship is proven iff there are rows and all their writers' keys are retained |
| `AppendRuns.RespelledRowFails` | platform/agent/decision_chain_signing.go:566-579 | a signed row that reads back unlike every sealed record fails its signature |
| `OverrideCache.ClampTtl` | platform/agent/detection_override.go:167-184 | the ttl in use is the allowed value, between 5 seconds and 10 minutes, nearest to the configured one |
| `OverrideCache.GetIsFreshEnough` | platform/agent/detection_override.go:189-215 | in every interleaving a get begun at t returns what the table held for that org later than t - ttl, or the empty set of a failed read by a get begun less than ttl and less than 15 seconds before t |
| `OverrideCache.StalenessIsReached` | platform/agent/detection_override.go:189-215 | for every ttl a run serves, ttl - 1 after the table changed, what it held before |
| `OverrideCache.LookupHitsIff` | platform/agent/detection_override.go:189-215 | in every interleaving a lookup hits iff its org has an entry whose get began less than ttl ago, and less than 15 seconds ago if its read failed; it then returns what that read gave |
| `OverrideCache.ErrTtl` | platform/agent/detection_override.go:167-184 | a failure is remembered for the ttl or for 15 seconds, whichever is shorter |
| `OverrideCache.InvalidationForcesReadIffNothingPending` | platform/agent/detection_override.go:217-223 | in every reachable state, every later get reads again after an invalidation iff no get of that org has read and not yet stored with time left |
| `OverrideCache.PendingStoreSurvives` | platform/agent/detection_override.go:217-223 | with such a pending store there is a continuation in which a later get is served the earlier read |
| `OverrideCache.PendingStoreIsReachable` | platform/agent/detection_override.go:189-215 | one get, stopped between its read and its store, reaches such a state from any start |
| `OverrideCache.DetectionOverrideCache.constructor` | platform/agent/detection_override.go:167-184 | the cache starts empty with clamped ttl and error ttl |
| `OverrideCache.DetectionOverrideCache.LookupEntry` | platform/agent/detection_override.go:189-215 | the locked look-up returns the live entry of the org, if any |
| `OverrideCache.DetectionOverrideCache.StoreResult` | platform/agent/detection_override.go:189-215 | the locked store caches a read, or an empty set for the shorter time after a failure, counted from the start of the get |
| `OverrideCache.DetectionOverrideCache.Invalidate` | platform/agent/detection_override.go:217-223 | exactly the org's entry is removed |
| `AuditQueue.RunKeepsInv` | platform/agent/audit_queue.go:412-544 | conservation, batch order, counters, shutdown order and fallback accounting hold after every sequence of steps |
| `AuditQueue.QueuedIsConserved` | platform/agent/audit_queue.go:412-544 | queued plus increments still due equals processed, failed, both backlogs, the open batch and entries in hand, iff there is a database handle or nothing was flushed; flushed batches, open batch and channel together are the accepted metrics in order, the open batch below 100 |
| `AuditQueue.FlushWithoutDatabase` | platform/agent/audit_queue.go:500-503 | without a database handle one flushed metric leaves queued one ahead of everything else |
| `AuditQueue.CleanShutdownSettlesAll` | platform/agent/audit_queue.go:717-746 | after a clean shutdown every accepted entry is stored or given up on (and then in the fallback file unless that write failed), and all metrics are flushed |
| `AuditQueue.NoWorkersStrandEntries` | platform/agent/audit_queue.go:240-270 | with no workers a clean shutdown can leave an accepted entry queued |
| `AuditQueue.PanicReachableIffMidSend` | platform/agent/audit_queue.go:412-430 | in any reachable state with the closed flag set, and without metric calls that begin later, a send on a closed channel is reachable iff a producer is past its closed check or inside LogMetric |
| `AuditQueue.MidSendIsReachable` | platform/agent/audit_queue.go:717-725 | a producer can be between its check and its send when the flag is set |
| `AuditQueue.MetricAfterShutdownPanics` | platform/agent/audit_queue.go:302-316 | every LogMetric call after the close sends on the closed channel |
| `AuditOrder.EntriesLeaveInOrder` | platform/agent/audit_queue.go:433-460 | in every run the accepted entries are those taken, in order, followed by the queue; stored and given up entries merge into the finished ones, which with one worker are the first accepted ones |
| `AuditOrder.ChannelsStayWithinCapacity` | platform/agent/audit_queue.go:412-430 | no channel ever holds more than its capacity |
| `AuditOrder.BatchesFillUp` | platform/agent/audit_queue.go:463-497 | in a run without ticks every flushed batch, but for the one on exit, has exactly 100 metrics |
| `AuditOrder.FallbackFileIsExact` | platform/agent/audit_queue.go:412-460 | in every run the fallback file with the writes that failed holds exactly the entries given up on, with their retries counted, and those producers spilled |
| `AuditOrder.EntryIsAcceptedOrSpilled` | platform/agent/audit_queue.go:412-430 | a producer lets go of its entry only by having it accepted or by spilling it |
| `AuditOrder.EveryCallIsCountedOnce` | platform/agent/audit_queue.go:302-430 | in every run each call begun is under way, accepted, spilled or, for a metric, dropped, and never two of these |
| `AuditOrder.ShutdownCanComplete` | platform/agent/audit_queue.go:717-746 | from every reachable state in which Shutdown waits some continuation lets it complete |
| `AuditWriter.WorkerRunSettles` | platform/agent/audit_queue.go:433-460 | a worker's pass over the queue stores or gives up every entry, loses none, and counts each once |
| `AuditWriter.BatcherRunKeepsOrder` | platform/agent/audit_queue.go:463-497 | the batcher's pass flushes all metrics in arrival order in batches of 1 to 100, wherever the ticks fall |
| `AuditWriter.WriteWithRetries` | platform/agent/audit_queue.go:437-449 | at most three attempts; an error remains iff none succeeds, and then three retries are on the entry |
| `AuditWriter.AuditWriter.QueueEntry` | platform/agent/audit_queue.go:412-430 | closed or full means the fallback file, otherwise queued and counted; panics iff the channel is closed and the flag is not |
| `AuditWriter.AuditWriter.LogMetric` | platform/agent/audit_queue.go:302-316 | a metric is queued and counted, or dropped without trace when the channel is full; panics iff the channel is closed |
| `AuditWriter.AuditWriter.ProcessEntry` | platform/agent/audit_queue.go:433-460 | the entry is stored and counted iff one of its attempts succeeds, otherwise failed and written to the fallback file |
| `AuditWriter.AuditWriter.Worker` | platform/agent/audit_queue.go:433-460 | draining the queue equals the worker's pass |
| `AuditWriter.AuditWriter.FlushMetricsBatch` | platform/agent/audit_queue.go:500-544 | each policy's hit and block counts of a day grow by exactly the metrics that named it, had an org and were written on that day; processed grows by the whole batch |
| `AuditWriter.AuditWriter.MetricsBatcher` | platform/agent/audit_queue.go:463-497 | the loop over one reused buffer of 100 entries equals the batcher's pass and never overruns the buffer |
| `AuditWriter.AuditWriter.WriteToFallback` | platform/agent/audit_queue.go:702-714 | the entry is appended, or the failure is all that remains |
| `FallbackReplay.ReplayPartition` | platform/agent/audit_queue.go:810-822 | recovered and failing entries partition the parsed ones, in number and as multisets |
| `FallbackReplay.FailingKeepsOrder` | platform/agent/audit_queue.go:810-822 | the failing list is exactly the refused entries at increasing positions of the file |
| `FallbackReplay.RewriteHoldsFailing` | platform/agent/audit_queue.go:825-846 | a rewrite whose writes succeed leaves exactly the failing entries in order and nothing unparsed |
| `FallbackReplay.ReplayLosesNothingIff` | platform/agent/audit_queue.go:825-854 | a replay keeps every parsed entry, in the database or in the file, iff it does not rewrite or every temporary write succeeds |
| `FallbackReplay.FailedWriteLosesEntry` | platform/agent/audit_queue.go:834-844 | one refused entry, a failed temporary write and a rename leave the entry nowhere |
| `FallbackReplay.ReplayIsExactIff` | platform/agent/audit_queue.go:825-854 | no entry is lost and none is both in the database and in the file iff nothing is lost and the recovered entries, if any, left the file by rename or truncation |
| `FallbackReplay.ReplaysLoseNothing` | platform/agent/audit_queue.go:762-855 | over any number of replays with any database answers no parsed entry is lost |
| `FallbackReplay.AppendSurvivesIffNotRenamed` | platform/agent/audit_queue.go:702-714 | over any sequence of replays and appends, an entry appended through the queue's handle is at the path iff no replay since the start has renamed |
| `FallbackReplay.RenameStrandsAppends` | platform/agent/audit_queue.go:840-844 | a replay that keeps one entry renames, and the next append is not at the path |
| `FallbackReplay.FallbackStore.RecoverFromFallback` | platform/agent/audit_queue.go:762-855 | file, database and returned count after a replay, on every error path; an unreadable file is left alone and reported |
| `FallbackReplay.ParseLines` | platform/agent/audit_queue.go:776-795 | blank and unparsable lines are skipped, the rest kept in order |
| `FallbackReplay.WriteTmp` | platform/agent/audit_queue.go:832-836 | the temporary file holds the failing entries whose writes succeeded |
| `TenantStore.FreshIdIsFirstFree` | platform/agent/community_saas_register.go:493-538 | the insert loop ends with the first candidate id that is free, iff every statement up to it works; the id was never taken |
| `TenantStore.InsertTenant` | platform/agent/community_saas_register.go:493-538 | at most three attempts; the table gains exactly the new row, or nothing |
| `TenantStore.LoopsAgreeIff` | platform/agent/community_saas_recovery.go:463-490 | the insert loop inside a transaction agrees with the autocommitted one iff the first id is free or the autocommitted one fails too |
| `TenantStore.InsertInTransaction` | platform/agent/community_saas_recovery.go:463-497 | the recovery's loop inserts under the first id or not at all |
| `TenantStore.UpdatesAreDisjoint` | platform/agent/community_saas_sweep.go:341-397 | the two termination updates return disjoint ids and together tombstone exactly the overdue tenants |
| `TenantStore.KeepRemovesExactly` | platform/agent/community_saas_sweep.go:415-443 | a delete removes every copy of the given tenants' rows and no other row |
| `TenantStore.DeleteRowsIsExact` | platform/agent/community_saas_sweep.go:415-443 | after the cascade exactly the cascade tables have lost exactly the given tenants' rows, also when a table is listed twice |
| `TenantStore.DeletedRowsAreMissing` | platform/agent/community_saas_sweep.go:415-443 | the reported number of deleted rows is what the cascade tables lost |
| `TenantStore.DeletedByIsMissing` | platform/agent/community_saas_sweep.go:415-443 | the number of rows a tick reports is what the cascade tables lost |
| `TenantStore.ValidIdentifierIffInPattern` | platform/agent/community_saas_sweep.go:80-83 | the table names let through are exactly those of the pattern, given by character codes |
| `TenantStore.DiscoverCascadeTables` | platform/agent/community_saas_sweep.go:460-495 | the cascade tables are the found ones with a valid identifier that are not on the keep list, in the order found |
| `TenantStore.CascadingKeepsAll` | platform/agent/community_saas_sweep.go:460-495 | each qualifying name is kept as often as it was found, any other not at all |
| `TenantStore.CascadingStaysDistinct` | platform/agent/community_saas_sweep.go:460-495 | a listing without repeats yields one without repeats |
| `TenantStore.ReturnedIds` | platform/agent/community_saas_sweep.go:341-367 | the returned ids are those of the changed rows, each once |
| `TenantStore.CascadeDelete` | platform/agent/community_saas_sweep.go:415-443 | the loop succeeds iff every name is valid, present and deletable (or no tenant ended), and then its tables and count are those of the whole cascade |
| `TenantStore.SweepTransaction` | platform/agent/community_saas_sweep.go:239-285 | the transaction commits iff every statement works, and then terminates and cascades exactly the overdue tenants, with disjoint id lists |
| `TenantStore.TenantDatabase.RunSweepTick` | platform/agent/community_saas_sweep.go:195-331 | a committed tick does everything and moves the counters by what it did; any other tick, dry or skipped or failed, changes no row and no termination counter; a failure and a skip are counted exactly when they happen, a failing dry-run query included |
| `TenantStore.TenantDatabase.VerifyTransaction` | platform/agent/community_saas_recovery.go:399-515 | either a new registration and the consumed token appear together, or nothing changes |
| `TenantStore.RecoveryRespectsCap` | platform/agent/community_saas_recovery.go:410-430 | a successful verify raises its email's active tenants by one, to at most three, and no other email's |
| `TenantLifecycle.RunKeepsInv` | platform/agent/community_saas_sweep.go:239-300 | after every sequence of steps the cascade rows of terminated tenants are the rows of overtaken writes, every id was created once, and grants match consumed tokens |
| `TenantLifecycle.RunEvolves` | platform/agent/community_saas_sweep.go:341-397 | in every sequence of steps tombstones are permanent, ids stay taken, consumed tokens never change |
| `TenantLifecycle.TerminatedForGood` | platform/agent/community_saas_register.go:645-668 | a terminated tenant is refused as terminated for ever after, whatever the secret and the time; who else is refused is given by `TenantAccess.AuthenticatesIff` |
| `TenantLifecycle.OrphansIffOvertaken` | platform/agent/community_saas_sweep.go:239-300 | ids are never reused; a row of a terminated tenant is in a cascade table iff a write of that tenant inserted it after being between check and insert when the tick that terminated the tenant committed |
| `TenantLifecycle.OvertakenWriteLeavesOrphan` | platform/agent/community_saas_sweep.go:239-300 | check, tick, insert leaves such a row in any cascade table |
| `TenantLifecycle.CollisionDefeatsRecovery` | platform/agent/community_saas_recovery.go:463-490 | after a registration took an id, a recovery that draws it first changes nothing although a free id follows |
| `TenantLifecycle.TickIsExact` | platform/agent/community_saas_sweep.go:239-300 | a committed tick terminates a live tenant, and blanks its secret hash, iff it was last seen more than the window ago or created more than the cap ago; it deletes exactly those tenants' rows from exactly the cascade tables; otherwise nothing changes |
| `TenantLifecycle.TickCommitsIff` | platform/agent/community_saas_sweep.go:195-285 | a tick commits iff connection, lock and every statement succeed and, if a tenant is overdue, every cascade table has a well-formed name, exists and has its delete succeed |
| `TenantLifecycle.TickHasOneOutcome` | platform/agent/community_saas_sweep.go:195-331 | every tick fails, is skipped, counts for a dry run or commits, and never two of these |
| `TenantLifecycle.RecoveryIsOneShot` | platform/agent/community_saas_recovery.go:348-373 | over all interleavings of verifies no token and no tenant is granted twice, and the grants are exactly the consumed tokens |
| `TenantLifecycle.VerifyKeepsCap` | platform/agent/community_saas_recovery.go:399-515 | no verify step takes an email from at most three active tenants to more |
| `TenantAccess.AuthenticatesIff` | platform/agent/community_saas_register.go:620-668 | after every run a tenant authenticates iff it was created, no tick has terminated it, no operator has it switched off, its creation plus the registration time is not past, and the secret fits the hash it was created with |
| `TenantAccess.RefusalNamesFirstReason` | platform/agent/community_saas_register.go:620-668 | after every run the refusal names the first of: unknown, terminated, disabled, expired |
| `TenantAccess.RowsWereAuthorised` | platform/agent/community_saas_register.go:620-668 | after every run each row of each table was inserted by a write of its tenant whose check presented a secret fitting the hash of its creation, in time |
| `TenantAccess.VerifyGrantsIff` | platform/agent/community_saas_recovery.go:399-515 | a verify grants credentials iff no statement fails, the token is unused, the email has fewer than three active tenants and the first id is free; otherwise tenants and tokens stay |
| `TenantAccess.GrantsAreInTimeAndOwned` | platform/agent/community_saas_recovery.go:348-373 | in every run the token of a recovered tenant was looked up no later than its expiry, and the tenant is bound to the token's email |
| `TenantAccess.RecoveryHandsOutCredentials` | platform/agent/community_saas_recovery.go:399-515 | a verify that meets no failure, no used token, no taken first id and no full email grants credentials that work with their own secret, and no other, until they run out |
| `TenantAccess.ActiveMeansUsable` | platform/agent/community_saas_recovery.go:410-419 | the tenants counted for an email are those it claimed that authenticate with their secret, except at the very moment of expiry |
| `TenantAccess.TouchedTenantSurvives` | platform/agent/community_saas_sweep.go:341-397 | a tenant last seen at t, or never seen, survives every tick up to t + window and up to its own cap, in every run that does not touch it with an earlier time |
| `CircuitBreaker.EveryRowIsAccounted` | examples/mcp-decision-mode/audit_log.py:374-406 | in every run the local log holds every row in order, and shipped + failed + skipped grows by one per row when a shipper is attached |
| `CircuitBreaker.ClosedCountsFailures` | examples/mcp-decision-mode/audit_log.py:148-185 | between rows no probe is in flight, and while closed the count is the number of trailing failures, below the threshold |
| `CircuitBreaker.NoCooldownNeverSkips` | examples/mcp-decision-mode/audit_log.py:162-172 | with no cooldown every row is attempted |
| `CircuitBreaker.DeadSinkBound` | examples/mcp-decision-mode/audit_log.py:148-185 | from any state between rows, a sink that fails from then on costs at most the failures needed to open plus one attempt per cooldown since the first opening; threshold + elapsed / cooldown from a fresh breaker |
| `CircuitBreaker.DeadSinkBoundIsTight` | examples/mcp-decision-mode/audit_log.py:148-185 | for every k some traffic makes threshold + k attempts by k cooldowns after the breaker opened |
| `CircuitBreaker.SkippedIffTooEarly` | examples/mcp-decision-mode/audit_log.py:162-172 | between rows a row is skipped iff the breaker is open and the row comes less than one cooldown after it opened; any other row is attempted |
| `CircuitBreaker.WorkingSinkRecovers` | examples/mcp-decision-mode/audit_log.py:148-185 | from any state between rows, with a sink that works from then on, exactly the rows less than one cooldown after the last opening are skipped, all others are shipped, and the first of them closes the breaker |
| `CircuitBreaker.NoSkipAfterFirstShip` | examples/mcp-decision-mode/audit_log.py:148-185 | after any history, once a working sink has taken one row no later row is skipped |
| `CircuitBreaker.OneProbeAtATime` | examples/mcp-decision-mode/audit_log.py:162-172 | while a probe is in flight nobody else is let through |
| `CircuitBreaker.Gate.constructor` | examples/mcp-decision-mode/audit_log.py:154-160 | the breaker starts closed |
| `CircuitBreaker.Gate.Allow` | examples/mcp-decision-mode/audit_log.py:162-172 | admits while closed, or one probe per elapsed cooldown, and marks the probe; when a row gets through is given by `SkippedIffTooEarly` |
| `CircuitBreaker.Gate.Record` | examples/mcp-decision-mode/audit_log.py:174-185 | a success closes; a failure counts, and opens or reopens at the given time |
| `CircuitBreaker.AuditLog.Record` | examples/mcp-decision-mode/audit_log.py:345-382 | the row is logged first and then offered to the shipper |
| `CircuitBreaker.AuditLog.ShipRow` | examples/mcp-decision-mode/audit_log.py:384-406 | exactly one of the three counters grows and the breaker hears of every attempt |
| `WindowLimiter.WindowBound` | platform/agent/community_saas_register.go:143-173 | with the clock read under the lock any interval one window long, ends included, admits at most 2 * max(1, limit) - 1 requests of a key |
| `WindowLimiter.WindowBoundIsTight` | platform/agent/community_saas_register.go:143-173 | for every limit, also one below one, and every window longer than zero some such traffic meets that bound |
| `WindowLimiter.LagIsLockWait` | platform/agent/auth.go:176-180 | the orders in which the lock can hand out readings, when nobody waits longer than a lag, are exactly those in which each reading is behind the newest by at most that lag |
| `WindowLimiter.LaggingBound` | platform/agent/auth.go:176-211 | for every lag, limit and window: any interval one window long admits at most w * (cap - 1) + 1 requests of a key, where cap = max(1, limit) and w is the number of windows that can reach it |
| `WindowLimiter.LaggingBoundIsTight` | platform/agent/auth.go:176-211 | for every lag, limit and window some traffic of that lag meets that bound |
| `WindowLimiter.TwoWindowsIffLagAtMostOne` | platform/agent/auth.go:176-211 | at most two windows reach an interval iff the lag is at most one nanosecond, and at most three up to two nanoseconds over a window |
| `WindowLimiter.KeepsTwiceIffLagAtMostOne` | platform/agent/auth.go:176-211 | all traffic of a lag stays within 2 * cap - 1 iff the lag is at most one nanosecond or the limit at most one |
| `WindowLimiter.TwiceIsExceeded` | platform/agent/auth.go:176-211 | from a lag of two nanoseconds and a limit of two on, some traffic admits 3 * cap - 2 or more |
| `WindowLimiter.ThreeWindows` | platform/agent/auth.go:176-211 | up to a lag of a window and two nanoseconds no traffic admits more than 3 * cap - 2 |
| `WindowLimiter.UnboundedLagUnboundedAdmissions` | platform/agent/auth.go:176-211 | without a bound on the lag there is none on the admissions |
| `WindowLimiter.SevenInAMinute` | platform/agent/auth.go:176-211 | nine readings, two of them late by two nanoseconds, of which seven are admitted within one minute at three per minute |
| `WindowLimiter.SweepingChangesNoVerdict` | platform/agent/community_saas_register.go:143-173 | a tracker that deletes expired entries above any size gives every verdict of one that never does |
| `WindowLimiter.SweepBoundsEntries` | platform/agent/community_saas_register.go:149-156 | up to the limit of entries nothing is deleted; the map outgrows it by more than one only with keys all within their window |
| `WindowLimiter.RateLimiter.CheckRateLimit` | platform/agent/auth.go:176-211 | admits in a new window or below the limit; refused requests count too |
| `WindowLimiter.RegistrationIpTracker.SweepExpired` | platform/agent/community_saas_register.go:149-156 | deleting while ranging removes exactly the expired entries, in any order |
| `WindowLimiter.RegistrationIpTracker.Check` | platform/agent/community_saas_register.go:143-173 | five per hour and address, sweeping first when more than ten thousand addresses are held |
| `DecisionPipeline.AttachRedaction` | platform/agent/decision_handler.go:1018-1043 | the merge adds a redaction to an allow with critical findings unless one is there |
| `DecisionPipeline.AttachedOnce` | platform/agent/decision_handler.go:1018-1043 | the two attachment sites together leave exactly one request-phase redaction when one is owed, with policy's detail before the detectors', and no obligation otherwise |
| `DecisionPipeline.CanonicalizeCapabilities` | platform/agent/decision_handler.go:1294-1317 | the set holds the usable tokens among the first sixteen; advertised iff one of those is not blank, usable or not |
| `DecisionPipeline.MoreEntriesMoreCapable` | platform/agent/decision_handler.go:1294-1317 | dropping trailing entries can only make a caller less capable |
| `DecisionPipeline.CapabilityIff` | platform/agent/decision_handler.go:1294-1317 | a capability is what one of the first sixteen entries says, if 1 to 64 characters long |
| `DecisionPipeline.IncapableIff` | platform/agent/decision_handler.go:1207-1255 | a caller is incapable iff one of its first sixteen entries says something and none says request_body_redaction |
| `DecisionPipeline.ApplySeamCapability` | platform/agent/decision_handler.go:1207-1255 | the loop withholds exactly the redactions the caller cannot do, and the posture decides between deny and logged allow |
| `DecisionPipeline.GateAccountsForAll` | platform/agent/decision_handler.go:1207-1255 | on any obligation list a non-advertising caller is untouched, every obligation is kept or recorded as suppressed, and an incapable caller keeps none it cannot do |
| `DecisionPipeline.NoInvisibleAllow` | platform/agent/decision_handler.go:1072-1102 | for every result, mode, findings, caller and org: a redaction is owed iff policy neither denies nor holds and policy or a detector wants one; it is then carried, or recorded as suppressed iff the caller is incapable, under block iff the org stores one; nothing else is carried |
| `DecisionPipeline.VerdictIsExact` | platform/agent/decision_handler.go:1133-1160 | from the inputs: deny iff policy blocks or an owed redaction meets an incapable caller under a stored block; needs_approval iff there is an unblocked result that requires approval outside community mode; the reasons are the block reason, require_approval, or the advisory reasons in order and then the fallback's |
| `DecisionPipeline.HoistedPutsBlockingFirst` | platform/agent/decision_handler.go:1335-1349 | the blocking policy comes first and all others stay |
| `DecisionPipeline.HoistBlockingPolicy` | platform/agent/decision_handler.go:1335-1349 | swaps in place when the policy is listed, otherwise builds a new list and leaves the old one |
| `ContextText.CanonicalIsIdempotent` | platform/agent/decision_handler.go:1683-1704 | keys come out as at most 32 characters a-z, 0-9 and single inner underscores, and a string is left as it is iff it has that form |
| `ContextText.KeyIsIdempotent` | platform/agent/decision_handler.go:1683-1704 | canonicalizing twice equals canonicalizing once, trimming and lowercasing included |
| `ContextText.CanonicalJoinsWords` | platform/agent/decision_handler.go:1683-1704 | a canonical key is the runs of letters and digits of the folded key, in order, joined by single underscores, cut to 32 and rid of an underscore at the cut |
| `ContextText.ShortKeyKeepsWords` | platform/agent/decision_handler.go:1683-1704 | a key that needs no cut keeps exactly its words |
| `ContextText.TrimSpaceTrims` | platform/agent/decision_handler.go:1683-1704 | trimming takes away exactly the white space at the two ends |
| `ContextText.CanonicalContextKey` | platform/agent/decision_handler.go:1683-1704 | the builder that stops at 32 characters gives the full collapse, cut to 32 and trimmed |
| `ContextText.SanitizedIsBounded` | platform/agent/decision_handler.go:1709-1721 | a value is the longest prefix of its printable characters that fits in 256 bytes |
| `ContextText.PrintableFilters` | platform/agent/decision_handler.go:1709-1721 | filtering a text is filtering its pieces; a printable character stays and any other goes |
| `ContextText.SanitizeContextValue` | platform/agent/decision_handler.go:1709-1721 | the loop that drops and stops yields that prefix |
| `ContextCanonicalization.MatchContextAllowlist` | platform/agent/decision_handler.go:1648-1669 | a key matches iff its folded form equals a folded entry, or starts with one that ends in a star |
| `ContextCanonicalization.EntryMatchesIff` | platform/agent/decision_handler.go:1648-1669 | an entry with a star at its end stands for exactly the keys with that beginning, any other for itself, an empty one for none |
| `ContextCanonicalization.CanonicalEntry` | platform/agent/decision_handler.go:1613-1629 | a raw key yields its canonical key and sanitized value iff it carries a string, is allowed and leaves something |
| `ContextCanonicalization.SanitizeAll` | platform/agent/decision_handler.go:1597-1630 | each surviving canonical key holds the sanitized value of the least allowed raw key that maps to it |
| `ContextCanonicalization.CanonicalizeRequestContext` | platform/agent/decision_handler.go:1597-1642 | the result holds the ten least surviving canonical keys, and is flagged truncated iff more than ten survived |
| `ContextCanonicalization.SurvivorsAreCanonical` | platform/agent/decision_handler.go:1597-1642 | every surviving key is canonical and not empty |
| `StringOrder.Sorted` | platform/agent/decision_handler.go:1609-1640 | the sorted key list is ascending and holds each key once |
| `StringOrder.LessIff` | platform/agent/decision_handler.go:1609-1640 | the order of keys is decided by their first difference, and a proper prefix comes first |
| `HtmlEscape.FivePassesAreOne` | platform/agent/community_saas_recovery_email.go:165-173 | for every string the five sequential replacements equal one pass over its characters |
| `HtmlEscape.EscapeRoundTrip` | platform/agent/community_saas_recovery_email.go:165-173 | no raw angle bracket or quote comes out, and decoding the entities gives the input back |
| `HtmlEscape.EscapeIsInjective` | platform/agent/community_saas_recovery_email.go:165-173 | different strings have different escaped forms |

## Left out

- HTTP handlers, JSON, headers, metrics, spans and logging.
- SQL text, row-level security and the scope helpers: tables are maps and sequences, a transaction is one step, a statement works or has no effect.
- A commit that reports an error after taking effect.
- AppendRuns.RunRecordsVerify: like the tamper evidence over runs, this is stated for records sealed with their ids in the canonical spelling; `AppendRuns.RespelledRowFails` says what happens to others.
- The primary key on record ids: an insert that it refuses is one of the failing inserts.
- AppendChains.CallsAreConserved: the counters are the sums over all replicas; the queue is that of one replica.
- Decision records: metadata is carried but not digested, as in the source; rows from before chain_seq existed are not modelled.
- ChainTracker.DecisionChainTracker.constructor: the errors for a signing key of the wrong length or kind are not modelled.
- ChainTracker.DecisionChainTracker.VerifyChain: this is the memory mode; `AppendRuns.RunRecordsVerify` states the result for the database.
- The verifier's key-length check; `VerifyRecord`; loading keys from the environment.
- A second Shutdown of the tracker or of the queue.
- Audit queue: compliance mode, which writes to the database in the caller; shutdown timeouts are steps, the context that causes them is not.
- FallbackReplay.FallbackStore.RecoverFromFallback: a failed write to the temporary file leaves no line, so a torn line is not modelled; an append during the replay is not modelled.
- Tenants: calendar intervals are numbers of seconds; the cap on fresh registrations, whose check commits apart from its insert, is not claimed; the start-up guard on the number of cascade tables is not modelled.
- WindowLimiter.LaggingBound: the limit of a client is the same at every call.
- CircuitBreaker.DeadSinkBound: rows are shipped one after the other, as `_ship` does in one thread, and times are reals.
- DecisionPipeline.ApplySeamCapability: trimming and lowercasing a capability token is a parameter; reason texts are constructors.
- ContextText.CanonicalContextKey: a string is its decoded code points, so bytes that are not valid UTF-8 are not modelled.
- applyOrgDetectionOverrides, the policy engine, the PII detectors, licence checks, telemetry, e-mail sending and connectors.
