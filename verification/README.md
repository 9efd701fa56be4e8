# AgentLedger: a verified model of its ledger, queue, key ring and decision cores

The project states in Dafny what AgentLedger's hard parts do, and proves what its design promises of them.

**The audit ledger.** `append_audit_event` stores an event and a seal job in one commit. `seal_tenant_audit_events`
locks the tenant's chain head, takes the oldest unsealed events, hashes them into a Merkle tree with the shape and the
prefixes of section 2.1 of RFC 6962, writes a block that names its predecessor's hash, marks the events, and advances
the head by compare-and-set. `verify_tenant_audit_history` replays all of it. Tables are values (rows in commit order);
the store is a class whose methods work on them and are proved to do what specification functions say.
`Merkle`, `Sealing`, `SealEffect`, `Verification`, `LedgerInvariant`, `SealSafety` build up to three results:

- `LedgerRuns` and `LedgerGuarantees`: any interleaving of appends and of sealing transactions, each of them split into
  *begin with a snapshot*, *lock the head or abort*, and *commit*, keeps one invariant. From it follow the block-by-block
  growth of every chain, the partition of events into blocks, and the agreement of writer and verifier.
- `TamperEvidence`: a function compares two histories that verify, and either they commit to the same documents or it
  returns two different byte strings with one hash. SHA-256 is an arbitrary function throughout; nothing assumes that it
  is injective. `Coverage` says which rows a VALID verdict covers and carries the result over to the whole event table;
  `TextData` says how far the data column is pinned. `VerdictMeaning` says, for every status, reason and counter, when
  the verifier reports it, and `VerifierFaults` when it raises instead.
- `Backlog`: the ledger and the job queue together. Sealing is driven by claimed jobs, `persist` commits before and
  apart from the fenced completion, and stale workers may persist too. A tenant never has more unsealed events than seal
  jobs that are not yet completed.

**The job queue.** `JobQueue` is the table and its operations, `JobRuns` the interleavings of any number of workers
under a clock that does not run backwards and claim tokens that are never drawn twice, `Worker` the drain loop with
arbitrary handlers and arbitrary interference between any two statements.

**Smaller cores.** `KeyRing` (versioned key-encryption keys and envelope rotation), `Contract`, `Discovery`,
`DiscoveryRuns` and `DiscoveryEffect` (evidence bundles, reconciliation, detector rules), `Matching` (the tiered catalog
match), `Risk`, `PolicyEngine` and `PolicyMeaning` (scores, floors, rules and operators). `Prelude` holds shared lemmas
about filtering, sorting and sums; `Hashing` byte strings, hexadecimal text and the outside primitives.

## Where the code is not what one may expect

- The verifier's handler for unusable material catches `TypeError` and `ValueError` only. An event whose data is neither
  an object nor text that decodes to one raises `AuditSealingError`, and a block that claims zero events raises
  `IndexError`; both escape
  (`VerifierFaults.VerifierRaisesExactly`, with a table on which it happens in `VerifierFaults.NullDataRaises`). A table
  constraint rules out blocks of zero events, so only the first kind is left
  (`VerifierFaults.OnlyTheSealingErrorEscapes`), and a consistent ledger never gets there.
- The foreign key from an event to its block does not include the organization, and the verifier asks only whether an
  event names some block. A VALID verdict covers every event of a tenant exactly when each names a block of that tenant
  (`Coverage.ValidCoversExactly`); a row that does not leaves the verdict as it is (`Coverage.OrphanKeepsVerdict`).
  The ledger's own writes always meet the condition (`Coverage.ConsistentHasNoOrphans`).
- Event data that is text is decoded once more before it is hashed. Two stores that differ only in that form get one
  verdict (`TextData.DataIsReadThroughItsDecoding`, `TextData.TextKeepsVerdict`), so VALID pins the stored data up to
  the decoding, and the column itself where both stores hold objects (`TextData.DataIsPinnedUpToDecoding`). Append
  stores nothing but objects (`TextData.ConsistentStoresObjects`).
- At the very instant of expiry a claim can neither be written by its holder (`lock_expires_at > now`) nor recovered
  (`lock_expires_at < now`).
- Claiming never looks at `attempts`. That no job is claimed more than five times rests on failure and recovery.
- Ingest without a user fails as a whole, observations included, exactly when some record asks for a detector rule that
  does not exist yet (`DiscoveryRuns.IngestFailsExactlyWhen`; `DiscoveryRuns.AnonymousIngestFails` is such a case).
- `get_or_create` on the discovery fingerprint may return an archived item; new evidence then points to it
  (`DiscoveryRuns.ItemsAreReused`).
- Under the catalog's unique constraint a single product name is never in conflict, so ingest never yields `review`
  (`Matching.OneCandidateNeedsNoReview`).

## Model

| member | source | states |
|---|---|---|
| TamperEvidence.TamperingIsEvident | apps/audit/verification.py:87-235 | two histories of a tenant that both verify VALID under one head hash agree block by block and event by event, or the comparison returns a SHA-256 collision |
| TamperEvidence.RecordedHashPinsHistory | apps/audit/verification.py:123-129 | a block hash noted earlier pins everything below it in any later history that verifies and still has it, or there is a collision |
| TamperEvidence.SameHashSameHistory | apps/audit/merkle.py:81-114 | equal block hashes at whatever heights: equal heights and equal blocks and events underneath, or a collision |
| TamperEvidence.SameHashSameBlock | apps/audit/merkle.py:42-43 | two intact blocks with one hash have one envelope and the same event documents, or a collision is found |
| TamperEvidence.SameDocumentsSameEvents | apps/audit/sealing.py:50-83 | equal canonical documents come from equal event envelopes, in order |
| TamperEvidence.LeavesOfDocuments | apps/audit/merkle.py:31-32 | leaf hashing gives, row by row, the hash of the byte zero and the canonical document of the row's envelope |
| Coverage.EveryEventIsPinned | apps/audit/verification.py:87-257 | two stores that verify VALID under one head hash and have no orphaned rows hold the same events of the tenant, in both directions, or a collision is found |
| Coverage.ValidCoversExactly | apps/audit/verification.py:88-95 | a VALID verdict covers every event of the tenant exactly when each names a block of the tenant |
| Coverage.OrphanKeepsVerdict | apps/audit/verification.py:237-250 | a row that names no block of its tenant leaves a VALID verdict, counters included, as it is, and no block covers it |
| Coverage.ConsistentHasNoOrphans | apps/audit/sealing.py:226-246 | a consistent ledger, and so every reachable one, has no such row |
| VerifierFaults.VerifierRaisesExactly | apps/audit/verification.py:148-204 | the verifier raises exactly when the head exists and the first block that does not pass raises |
| VerifierFaults.BlockRaisesExactly | apps/audit/verification.py:97-204 | a block raises exactly when its count, sequence, versions, linkage and order are right, and it has no events, or its boundaries match and its leaf loop raises; which exception |
| VerifierFaults.LeafLoopRaisesExactly | apps/audit/verification.py:161-185 | the leaf loop raises exactly when the first event that does not pass holds data that is neither an object nor text that decodes to one |
| VerifierFaults.OnlyTheSealingErrorEscapes | apps/audit/models.py:199-202 | with the positive event count that the table demands, no index error escapes |
| VerifierFaults.DataDecides | apps/audit/sealing.py:62-71 | on one sealed event under a block that is right but for its hashes, the verifier raises exactly when the data is neither an object nor text that decodes to one, and reports INVALID otherwise |
| VerifierFaults.NullDataRaises | apps/audit/sealing.py:70-71 | with null data there it does raise |
| TextData.DataIsReadThroughItsDecoding | apps/audit/sealing.py:62-71 | two stores whose rows differ only in the form of their event data get one verdict, whatever it is |
| TextData.TextKeepsVerdict | apps/audit/sealing.py:62-68 | replacing an event's object by text that decodes to it changes the store and no verdict |
| TextData.DataIsPinnedUpToDecoding | apps/audit/verification.py:161-185 | two VALID stores without orphans under one head hash agree in every committed column, the data up to its decoding and itself where both hold objects, or a collision is found |
| TextData.ConsistentStoresObjects | apps/audit/append.py:83-92 | a consistent ledger stores event data as objects only |
| Merkle.MerkleBinding | apps/audit/merkle.py:53-78 | two non-empty document lists, possibly of different lengths, with one root are equal, or the extractor returns two different preimages with one hash |
| Merkle.SplitIsRfc6962 | apps/audit/merkle.py:46-50 | the bit-length formula gives the power of two k with k < n <= 2k |
| Hashing.HexReads | apps/audit/sealing.py:190-224 | stored hashes are two digits for each byte, the high one first |
| Merkle.RootIsTreeHash | apps/audit/merkle.py:53-78 | the recursion over leaf hashes computes the tree hash that section 2.1 of RFC 6962 defines, with prefixes 0 and 1 and the unique split at a power of two |
| Merkle.BitLengthBounds | apps/audit/merkle.py:50 | n lies between the powers of two that its bit length names |
| Merkle.RootExists | apps/audit/merkle.py:53-71 | the root exists exactly for non-empty lists of 32-byte leaves, and has 32 bytes |
| Merkle.RootHashesPreimage | apps/audit/merkle.py:31-39 | a root is the hash of the leaf or node preimage that the collision search compares |
| Merkle.BlockEnvelopeMeaning | apps/audit/merkle.py:81-114 | a block envelope is refused for the first of its four causes and otherwise carries what it was given |
| Backlog.BacklogIsCovered | apps/audit/append.py:179-199 | in every reachable state of interleaved appends, claims, snapshots, commits, completions, failures and recoveries, a tenant's unsealed events number at most its incomplete seal jobs |
| Backlog.CompletedJobsSealEverything | apps/jobs/worker.py:59-77 | once all seal jobs of a tenant are completed, none of its events is unsealed; if it has any event its history verifies VALID |
| Backlog.WorldStaysOk | apps/jobs/worker.py:61-77 | every step of the combined machine keeps the invariant behind the two theorems, stale persisting workers included |
| Backlog.CommitDoomsItsRivals | src/agentledger/tenancy/context.py:58-76 | after a commit that seals, a transaction whose snapshot still shows the current head belongs to another tenant |
| Backlog.NothingUnsealedBelow | apps/audit/sealing.py:166-179 | when the snapshot selects nothing, no event that the snapshot saw is unsealed now |
| Backlog.ServingCommitKeepsCover | apps/audit/jobs.py:54-72 | a persisting commit uses up one pending job and still leaves every unsealed event covered |
| Backlog.AppendKeepsCover | apps/audit/append.py:179-199 | an append adds one unsealed event and one job that covers it |
| LedgerRuns.RunKeepsLedgerOk | apps/audit/sealing.py:125-274 | every interleaving of appends and snapshot, lock and commit steps keeps the ledger invariant |
| LedgerRuns.StepKeepsLedgerOk | apps/audit/sealing.py:125-274 | every single step keeps it, whoever takes it |
| LedgerRuns.HolderHasBatch | apps/audit/sealing.py:132-179 | what the lock holder selected from its snapshot is still unsealed when it commits |
| LedgerRuns.SnapshotBatch | apps/audit/jobs.py:25 | a snapshot whose head is still current selects rows that are unsealed now, in canonical order |
| LedgerGuarantees.WriterAndVerifierAgree | apps/audit/verification.py:49-257 | after any interleaving from an empty ledger the verifier raises nothing, never says INVALID, and says VALID exactly when a block exists and no event is unsealed, with the true counts |
| LedgerGuarantees.VerdictOnConsistent | apps/audit/verification.py:226-257 | the same for every consistent ledger, with the reported counters |
| LedgerGuarantees.CommitExtendsByOneBlock | apps/audit/sealing.py:184-274 | a commit either changes no chain or adds exactly one block, the next of its tenant, holding the snapshot's oldest unsealed events; later events wait |
| LedgerGuarantees.CommitNeverLosesExclusivity | apps/audit/sealing.py:248-274 | the two exclusivity errors cannot happen under the lock and the snapshot; a rollback means a taken block id or an unencodable envelope |
| LedgerGuarantees.NoSequenceTwice | apps/audit/models.py:187-209 | no sequence number of a tenant is used twice |
| LedgerGuarantees.AloneIsBeginLockCommit | apps/audit/sealing.py:113-286 | the sealing transaction that runs alone is the three steps in a row, with the tables and the result of their outcome; with a limit that it refuses it does nothing and says so |
| LedgerGuarantees.RunExtends | apps/audit/migrations/0002_audit_security.py:120-180 | over a run, written blocks, sealed events and appended columns never change |
| LedgerGuarantees.RunKeepsExactlyAppended | apps/audit/sealing.py:154-251 | the event table holds exactly the appended events, in order, whatever was sealed |
| LedgerGuarantees.SealedEventsArePartitioned | apps/audit/models.py:70-99 | every event is unsealed, or stands in exactly one block, at its recorded position |
| LedgerGuarantees.HashesAreHexDigests | apps/audit/merkle.py:97-103 | stored roots and block hashes have the 64 characters that the envelopes demand |
| LedgerInvariant.AppendKeepsConsistent | apps/audit/append.py:183-192 | storing an event keeps the ledger consistent |
| LedgerInvariant.ChainCarriesOver | apps/audit/verification.py:87-224 | a chain verifies alike in two stores that agree on its blocks and their events |
| SealSafety.SealKeepsConsistent | apps/audit/sealing.py:184-274 | sealing any admissible batch keeps every tenant's chain, every block and every row consistent |
| SealSafety.NewBlockPasses | apps/audit/verification.py:97-220 | a freshly written block passes all the verifier's checks |
| SealSafety.NewBlockHoldsTheBatch | apps/audit/sealing.py:222-251 | the events of the new block are exactly the batch, with positions 0 to n-1 in (occurred_at, id) order |
| SealSafety.NewBlockByColumns | apps/audit/sealing.py:226-246 | event k of the new block is row k of the batch in every appended column and carries leaf k, the block and position k |
| SealSafety.OldBlocksKeepTheirEvents | apps/audit/sealing.py:226-246 | no other block gains or loses an event |
| SealSafety.WriteBlockWrote | apps/audit/sealing.py:208-274 | what a successful write changed: one block, the marked rows, one head, and nothing else |
| SealEffect.SelectionIsOldest | apps/audit/sealing.py:154-179 | the selection holds unsealed events of the tenant, each earlier than the next, as many as the limit allows, and every unsealed event that it leaves out is later in (occurred_at, id) |
| SealEffect.MarkingABatch | apps/audit/sealing.py:222-251 | the update loop succeeds on a batch, marks its rows with hash, block and position, and leaves the others alone |
| Sealing.AuditStore.SealTenantAuditEvents | apps/audit/sealing.py:113-286 | the transaction has the specified effect and result, including both limit errors, leaves everything as it was on an error, and otherwise returns the new block row, column by column |
| AuditTables.EnvelopeOfColumns | apps/audit/sealing.py:50-83 | the envelope of a row holds every appended column under its own name, and the decoded data |
| AuditTables.ObjectOfMeaning | apps/audit/sealing.py:62-71 | the object that event data stands for: itself, or what its text decodes to if that is an object; text that is not JSON has an error of its own |
| Sealing.MarkSelected | apps/audit/sealing.py:222-251 | the update loop, with its stop at the first row that is not free, has the specified effect |
| Sealing.WriteSelected | apps/audit/sealing.py:184-274 | the writing half of the transaction has the specified effect, error by error |
| Sealing.UpdateSealsOneRow | apps/audit/sealing.py:226-251 | with unique identifiers one update seals at most one row, keeps the appended columns of all, and leaves the tenant one unsealed row less exactly when it finds its row |
| Verification.VerifyTenantAuditHistory | apps/audit/verification.py:49-257 | the nested loops return what `VerifyTables` says, whose every report `VerdictMeaning.VerdictExactly` describes by the stored columns |
| Verification.InspectBlock | apps/audit/verification.py:97-220 | one round of the block loop returns what `CheckBlock` says, whose every rejection `VerdictMeaning.RejectedExactly` describes by the stored columns |
| Verification.RecomputeLeaves | apps/audit/verification.py:159-185 | the leaf loop returns all leaves or the first fault |
| Verification.ValidMeaning | apps/audit/verification.py:226-257 | the verdict is VALID exactly when there are blocks, all are intact and linked, the head names the last, and nothing waits |
| Verification.CheckBlockMeaning | apps/audit/verification.py:97-220 | a block passes exactly when its row, its events, its root and its hash are those that sealing leaves |
| Verification.CheckLeavesMeaning | apps/audit/verification.py:162-185 | the leaf loop passes exactly when every stored node hash is the recomputed one |
| Verification.ReplayBlocks | apps/audit/verification.py:87-224 | the block loop stops at the first block that fails, with the counters of the blocks before it |
| Verification.CheckIsNeverValid | apps/audit/verification.py:97-220 | no failing check of a block reports VALID |
| VerdictMeaning.VerdictExactly | apps/audit/verification.py:49-257 | a report, with its status, reason and both counters, is given exactly when the stored rows are so: which block fails first and for which reason, or that all are intact, whether the head matches, and whether an event waits |
| VerdictMeaning.IncompleteExactly | apps/audit/verification.py:70-103 | INCOMPLETE exactly without blocks, without a head, when the first block that is not intact holds another number of events than it counts, or when all is intact, the head matches and an event waits |
| VerdictMeaning.InvalidExactly | apps/audit/verification.py:105-235 | INVALID exactly when the first block that is not intact holds as many events as it counts and does not raise, or all is intact and the head does not match |
| VerdictMeaning.RejectedExactly | apps/audit/verification.py:97-220 | a block is reported for a reason exactly when the check of that reason fails on its row and events and those before it pass; only missing events are INCOMPLETE |
| VerdictMeaning.CanonicalOrderMeaning | apps/audit/verification.py:131-146 | the order check passes exactly for positions 0 to n-1 with every event earlier than the next, by time and then by id |
| VerdictMeaning.BlockEventsMeaning | apps/audit/verification.py:88-95 | the events of a block are the stored rows of the tenant that name it, each as often as stored, by position |
| VerdictMeaning.TenantBlocksMeaning | apps/audit/verification.py:58-62 | the blocks walked are the stored rows of the tenant, each as often as stored, by sequence number |
| Append.AppendAuditEvent | apps/audit/append.py:119-201 | the event and its seal job are both stored or neither is; the stored row is the request column by column, and its data holds the same along every path; it refuses exactly for the stated causes or a taken id |
| Append.AcceptedRowRecords | apps/audit/append.py:183-192 | an accepted row has the drawn id and time, the organization, type, actor and entity of the request, the stripped entity type, empty seal columns, and the data of the request |
| Append.DocumentHoldsData | apps/audit/append.py:105-116 | along every path of keys and positions the stored document holds what the data holds there, and nothing else |
| Append.AcceptedExactly | apps/audit/append.py:129-177 | a request is accepted exactly when its type is known, its stripped entity type has 1 to 160 characters, its data is an object without floats, other keys or other values at any depth, and its envelope encodes |
| Append.ConvertsExactly | apps/audit/append.py:53-79 | data has a document exactly when nothing in it, at any depth, lacks a JSON form |
| Append.RefusalsByCause | apps/audit/append.py:129-177 | every refusal has its cause, and the refusals before the data is looked into come exactly with theirs |
| Append.AcceptedEventsAreSealable | apps/audit/append.py:129-177 | an accepted event has a stripped, non-empty, bounded entity type and an encodable envelope, so sealing cannot fail on its account |
| Append.AcceptedDataIsExact | apps/audit/append.py:48-80 | accepted data has no binary float and no key that is not text, at any depth |
| Append.RefusalsHaveACause | apps/audit/append.py:53-79 | a refusal names a place where there is such a float or key |
| JobQueue.BackgroundJobs.EnqueueJob | apps/jobs/queue.py:47-67 | a new queued row with the given columns, no attempts, available now, without lock or error; other rows stay |
| JobQueue.BackgroundJobs.ClaimNextJob | apps/jobs/queue.py:81-115 | the claim takes the first available row by priority, availability and id among those not locked elsewhere, and writes each lock column as stated until now + lease; or nothing changes and there is none |
| JobQueue.BackgroundJobs.CompleteJobWithFence | apps/jobs/queue.py:118-145 | succeeds exactly for the worker and token of a running row whose expiry is ahead; then the row is completed now and unlocked, and otherwise nothing changes |
| JobQueue.BackgroundJobs.HeartbeatJobWithFence | apps/jobs/queue.py:148-170 | under the same condition moves the expiry to now + lease and nothing else |
| JobQueue.BackgroundJobs.FailJobWithFence | apps/jobs/queue.py:173-224 | under the same condition requeues the row 1, 5, 30 or 120 minutes later after failures 1 to 4, or fails it at the fifth, unlocked and with the error; without error details it refuses |
| JobQueue.BackgroundJobs.RecoverExpiredJobs | apps/jobs/queue.py:227-249 | every running row whose expiry has passed is queued, or failed at the fifth attempt, available now, unlocked, with lease_expired; every other row is equal; the result counts the changed rows |
| JobRuns.StaleWorkersAreFenced | apps/jobs/queue.py:136-170 | once a claim is completed, failed or recovered, nothing that carries its token changes any job, whatever happened in between |
| JobRuns.TerminalIsAbsorbing | apps/jobs/queue.py:186-247 | a completed or failed row never changes again |
| JobRuns.RecoveryExcludesTheHolder | apps/jobs/queue.py:245-246 | recovery and a fenced write are never both enabled for one claim at one instant |
| JobRuns.FreshClaimLastsTenMinutes | apps/jobs/queue.py:81-112 | a claim under the default lease is its worker's exactly until ten minutes later and recoverable exactly after that |
| JobRuns.RenewedClaimIsNeverRecovered | apps/jobs/queue.py:148-170 | a claim whose holder always writes again before the expiry that the row shows is never recovered, whatever others do: it stands until its holder ends it |
| JobRuns.WritesInTimeHoldOffExpiry | apps/jobs/queue.py:245-246 | under a clock that does not go back, the holder's next write in time puts every event before it, recoveries included, before the expiry |
| JobRuns.EventKeepsQueueOk | apps/jobs/models.py:67-96 | every event keeps the state-consistency constraint, the bounds on attempts, and the uniqueness of live tokens |
| JobRuns.TraceKeepsQueueOk | apps/jobs/models.py:67-96 | so does every trace |
| JobRuns.AttemptsCountClaims | apps/jobs/queue.py:106 | over a trace, the attempts of a job are its claims |
| JobRuns.AtMostFiveClaims | apps/jobs/queue.py:188-200 | no job is ever claimed more than five times |
| JobRuns.BackoffAccumulates | apps/jobs/queue.py:190-196 | a job that keeps failing is as late as its delays add up to |
| JobRuns.FifthClaimWaits156Minutes | apps/jobs/queue.py:190-196 | if the first four claims end by failure, the fifth comes at least 156 minutes after the first |
| JobRuns.RowsOnlyMoveAsAllowed | apps/jobs/queue.py:100-112 | what one event may do to one row, and that rows are never removed |
| Worker.DrainQueue | apps/jobs/worker.py:86-133 | terminates whatever handlers and other workers do. Its statements and theirs form one unbroken history of the table. Its claims are bounded by the claims left, also when a lease is lost. The result counts its claims, and each claimed job is completed, requeued or failed by the fenced write that ends its round, before the next claim. A lost lease escapes right after the write that found it gone. It stops only at its limit or when nothing can be claimed |
| Worker.ClaimsAreBounded | apps/jobs/queue.py:106 | along any history without new rows, the own claims and the claims left afterwards number at most the claims left before |
| Worker.ClaimsLeftIsTheSum | apps/jobs/queue.py:106 | the bound is the sum of 5 - attempts over queued and running jobs |
| Worker.ClaimUsesOneUp | apps/jobs/queue.py:100-112 | every claim lowers the bound |
| Worker.OperationsShrink | apps/jobs/queue.py:118-249 | no other operation but enqueueing raises it |
| Worker.ExecuteClaimedJob | apps/jobs/worker.py:40-77 | executed only if all three steps return; raised only if one of them raises; a lost lease ends it at the first heartbeat that finds it and whose exception the handler lets pass, or at the completion. What the worker wrote meanwhile is exactly these heartbeats and this completion |
| Worker.SendHeartbeats | apps/jobs/worker.py:51-59 | the heartbeats go out in order until the first lost lease that escapes |
| Worker.FailTurn | apps/jobs/worker.py:120-129 | a job without handler, or whose handler raised, is given back under the fence with its error |
| Worker.RunTurn | apps/jobs/worker.py:111-129 | the last statement of a round is the fenced completion exactly when there is a handler and its steps all returned, and otherwise the fenced failure with the digest, after which the row is queued or, at the fifth attempt, failed; or it finds the lease lost |
| Worker.TakeTurn | apps/jobs/worker.py:101-131 | a round claims the first candidate and ends it, or finds nothing to claim |
| KeyRing.LiveEnvelopesAlwaysDecrypt | apps/credentials/crypto.py:108-181 | over any run of adding, activating, removing, storing, rotating and replacing, every live envelope decrypts under its own tenant and record to what was put in |
| KeyRing.StepKeepsVaultOk | apps/credentials/crypto.py:237-371 | every single step keeps that |
| KeyRing.EncryptThenDecrypt | apps/credentials/crypto.py:237-313 | round trip of a fresh envelope, which names the active key |
| KeyRing.RotationKeepsPlaintext | apps/credentials/crypto.py:316-349 | rotation of a readable envelope succeeds, moves to the active key, keeps the payload bytes and the plaintext |
| KeyRing.CompromisedKeyIsReplaced | apps/credentials/crypto.py:352-371 | the new envelope holds the plaintext under the fresh key and nonce and the fresh key under the active one, and decrypts to the same; an envelope that does not decrypt gives its own error |
| KeyRing.DecryptionFailures | apps/credentials/crypto.py:207-313 | which failure comes exactly when: missing key, wrong tag of either layer, wrapped key of the wrong size |
| KeyRing.CheckedMeaning | apps/credentials/crypto.py:41-58 | what an envelope must be like |
| KeyRing.RotateAllMovesToActive | apps/credentials/crypto.py:316-349 | rotating the live records moves them all to the active key and keeps their plaintexts and payload bytes |
| KeyRing.RotatedKeysAreRemovable | apps/credentials/crypto.py:165-181 | after that, exactly the keys that are known and not active can be removed |
| KeyRing.AadBinds | apps/credentials/crypto.py:70-91 | for UUIDs, associated data is equal only for equal domain, tenant and record |
| KeyRing.AadLayout | apps/credentials/crypto.py:70-91 | where domain, tenant and record stand in the associated data |
| KeyRing.OneIdentityOrForgery | apps/credentials/crypto.py:207-234 | an envelope that decrypts under two different tenants or records yields a forged tag under its wrapping key |
| KeyRing.SomeSuiteIsLawful | apps/credentials/crypto.py:61-67 | the laws assumed of cipher and UUID text can be met together |
| KeyRing.VersionedKEKRing.Create | apps/credentials/crypto.py:109-127 | a ring is made exactly from positive versions with 256-bit keys that include the active one; a refusal names a cause |
| KeyRing.VersionedKEKRing.Add | apps/credentials/crypto.py:143-159 | succeeds exactly for a positive new version and a 256-bit key; then the key is there, the others stay, and it is active if asked; each refusal has its cause and changes nothing |
| KeyRing.VersionedKEKRing.MakeActive | apps/credentials/crypto.py:161-163 | a known version becomes active and no key changes; otherwise the error |
| KeyRing.VersionedKEKRing.Remove | apps/credentials/crypto.py:165-181 | exactly that key is gone and the active one stays; it was known, not active, and named by no given envelope; each refusal has its cause |
| Matching.MatchProduct | apps/catalog/matching.py:36-75 | status, product and reason are those of the best tier with any verified hit; the reported type is that of the tier's first candidate with a hit |
| Matching.BestTier | apps/catalog/matching.py:46-75 | the deciding tier has a hit and no better tier has one; no tier decides exactly when none has a hit |
| Matching.UnknownMeaning | apps/catalog/matching.py:75 | the result is unknown exactly when no candidate of a ranked type is a verified identifier of anything |
| Matching.OrderAndRepetitionDoNotMatter | apps/catalog/matching.py:46-73 | order and repetition of candidates and of catalog rows do not matter to status, product and reason |
| Matching.WorseTiersNeverOverrule | apps/catalog/matching.py:10-19 | candidates of worse tiers cannot change what a better tier decided |
| Matching.MatchMeaning | apps/catalog/matching.py:46-75 | by the columns of catalog and candidates: known when all candidates that name a verified row, and that no other such candidate overrules by its type, name one product; review when they name several; unknown when there is none |
| Matching.WhoOverrulesWhom | apps/catalog/matching.py:10-19 | which identifier types there are, and for any two which overrules which |
| Matching.OneCandidateNeedsNoReview | apps/catalog/models.py:93-99 | under the unique constraint a single candidate is never in conflict |
| Matching.NormalizeCandidates | apps/catalog/matching.py:37-44 | keeps, in order, the candidates that have a rank and normalize |
| Matching.TierMatches | apps/catalog/matching.py:47-57 | the pairs that the queries of one tier return, and the type of the first |
| Matching.DecideTier | apps/catalog/matching.py:59-73 | one product is known, several need a review, none passes on |
| Contract.ValidateBundle | collector/contract.py:105-141 | a bundle is accepted exactly when its records are well formed and observe different things, its coverage allows them and its hashes are right |
| Contract.CheckRecord | collector/contract.py:110-131 | the checks of one record |
| Contract.SameObservation | collector/contract.py:49-60 | two records observe the same thing exactly when detector, evidence type, locator and raw identifier agree |
| Contract.AllTexts | collector/contract.py:112-116 | the text check looks at all nine texts of a record |
| Discovery.InventoryStore.IngestBundle | apps/inventory/discovery.py:85-162 | an invalid bundle or an error changes nothing; otherwise scan, items, rules, evidence and audit events are stored as specified |
| Discovery.InventoryStore.ReconcileRecords | apps/inventory/discovery.py:98-161 | the record loop, its evidence rows, counters and collected identifiers |
| Discovery.InventoryStore.ReconcileRecord | apps/inventory/discovery.py:27-82 | one record: match, item, rules |
| Discovery.InventoryStore.FindOrCreateItem | apps/inventory/discovery.py:47-67 | the first active item of the product, or the discovered one, or a new one |
| Discovery.InventoryStore.InstantiateDetectorRules | apps/policies/detector_mappings.py:66-130 | one rule per applicable mapping that has none yet; without a user the first missing rule is an error |
| Discovery.InventoryStore.ArchiveItem | apps/inventory/views.py:236-243 | archives the item and changes nothing else |
| Discovery.CountOutcome | apps/inventory/discovery.py:114-119 | one round of counting and collecting keeps the tally of all outcomes so far |
| DiscoveryRuns.UniquenessOverRuns | apps/inventory/models.py:89-94 | over all runs: one discovered item per product, one detector rule per mapping and product naming an item of it, reconciled evidence points to an item of the matched product, distinct fingerprints per scan, distinct scan hashes |
| DiscoveryRuns.CountsOverRuns | apps/inventory/discovery.py:133-147 | the reported status counts are those of the stored rows and add up to the observations |
| DiscoveryRuns.IngestedOnce | apps/inventory/discovery.py:89-97 | ingesting a stored bundle again changes nothing, whatever happened in between |
| DiscoveryRuns.RunKeepsOk | apps/inventory/discovery.py:88-161 | every reachable state is in order, and nothing stored is removed or rewritten, but that items become archived |
| DiscoveryRuns.IngestFailsExactlyWhen | apps/policies/models.py:72-76 | a valid bundle fails exactly when it is new, no user acts, and some record asks for a rule that does not exist |
| DiscoveryRuns.AnonymousIngestFails | apps/policies/detector_mappings.py:84-126 | a valid bundle whose ingest without a user fails |
| DiscoveryRuns.IngestStoresTheBundle | apps/inventory/discovery.py:107-132 | a new bundle adds one row per record, in order, classified by the catalog alone |
| DiscoveryRuns.IngestLeavesNoRuleMissing | apps/policies/detector_mappings.py:74-129 | after an ingest no record lacks a detector rule that an applicable mapping asks for |
| DiscoveryRuns.ItemsAreReused | apps/inventory/discovery.py:47-67 | an active item of the product is preferred; without one the discovered item is used again, archived as it is; only without that is there a new one |
| DiscoveryRuns.EnsureItemOk | apps/inventory/discovery.py:46-67 | the item that reconciliation uses is an item of the matched product |
| DiscoveryRuns.FirstActive | apps/inventory/discovery.py:48-55 | the selected item is an active one of the product, imported before discovered before entered by hand, then by id |
| DiscoveryEffect.IngestEffect | apps/inventory/discovery.py:88-161 | a new bundle is stored under a fresh scan: every new item is one of a matched product with the catalog's names, every new rule one that a mapping asks for by the acting user, one row per record, and the audit events tell of exactly these items, rules and counts |
| DiscoveryEffect.EnsureItemEffect | apps/inventory/discovery.py:47-67 | the first active item, or one that discovery made for the product, or exactly one new item named as in the catalog under a new id |
| DiscoveryEffect.EnsureRulesEffect | apps/policies/detector_mappings.py:74-129 | rules are only added, each for one of the mappings, with the item and the user, and the result lists their ids |
| Risk.CalculateRisk | apps/policies/risk.py:162-218 | breakdowns, score, band and floor are those specified, and classification cannot fail |
| Risk.SumPoints | apps/policies/risk.py:178-182 | the raw points of a dimension |
| Risk.HighestFloor | apps/policies/risk.py:199-203 | the highest floor, or none |
| Risk.ScoreInRange | apps/policies/risk.py:183-207 | for every valid configuration the score lies in 0 to 100 |
| Risk.ScoreIsNearest | apps/policies/risk.py:195-198 | without floors the score is within one half of the exact weighted sum |
| Risk.ScoreIsSumOrFloor | apps/policies/risk.py:195-207 | the score is the one without floors or the minimum of some floor, and never below either |
| Risk.BreakdownMeaning | apps/policies/risk.py:177-193 | points from 0 to 100 count as they are, fewer as 0, more as 100; the weighted points are their product with the weight |
| Risk.SumWithoutClamping | apps/policies/risk.py:183-194 | where all dimensions have 0 to 100 points the sum is that of points times weights |
| Risk.BandCuts | apps/policies/risk.py:138-159 | classify(s) is at least b exactly when s is at least the minimum of b; the bands begin at 0, 25, 50 and 75 |
| Risk.BandRespectsFloors | apps/policies/risk.py:199-217 | the band is at least every floor |
| Risk.TopFloorIsHighest | apps/policies/risk.py:199-203 | the chosen floor is among the floors and none is higher |
| Risk.ScoreIsMonotone | apps/policies/risk.py:176-207 | more raw points in any dimension, or a higher floor, never lower the score |
| Risk.AddingNeverLowers | apps/policies/risk.py:176-207 | adding non-negative contributions or any floors never lowers the score |
| Risk.OrderDoesNotMatter | apps/policies/risk.py:176-207 | permuting contributions or floors leaves the score as it is |
| PolicyEngine.EvaluationIgnoresRuleOrder | apps/policies/engine.py:293-303 | with distinct (layer, id, version) keys the evaluation does not depend on the order of the rules |
| PolicyEngine.MoreRulesNeverLower | apps/policies/risk.py:221-244 | adding rules whose points are non-negative never lowers the score, wherever they sort |
| PolicyEngine.AdvisoryRulesChangeNothing | apps/policies/risk.py:227-242 | adding rules without points or floors leaves the score as it is |
| PolicyEngine.DetectorRulesAreAdvisory | apps/policies/detector_mappings.py:87-108 | generated detector rules never raise and leave every score as it is |
| PolicyEngine.RaisesNothing | apps/policies/engine.py:301-303 | evaluation raises nothing exactly when no rule does |
| PolicyMeaning.MatchingRule | apps/policies/engine.py:274-290 | a rule whose conditions all hold has exactly its effects, result and severity, and evidence of what was looked at |
| PolicyMeaning.RuleThatDoesNotMatch | apps/policies/engine.py:278-290 | otherwise the first condition that does not hold decides: when false the rule has no effects and does not apply, when it raises so does the rule |
| PolicyMeaning.RawOfPolicies | apps/policies/risk.py:225-240 | a dimension's raw points are those that the matching rules give it, and no others |
| PolicyMeaning.FloorsOfPolicies | apps/policies/risk.py:241-242 | a floor applies exactly when some rule, all of whose conditions hold, has it among its effects |
| PolicyMeaning.ContributionsOfPolicies | apps/policies/risk.py:229-240 | a contribution exists exactly for a points effect of a matching rule, under that rule's id, version and explanation |
| PolicyMeaning.EvaluationOrder | apps/policies/engine.py:297-303 | one result for each rule, by layer, id and version |
| PolicyMeaning.DetectorRuleWarns | apps/policies/detector_mappings.py:84-129 | a generated rule warns exactly where the context names its product, and asks for a review and no more |
| PolicyMeaning.TextsCompare | apps/policies/engine.py:226-241 | the four ordered operators on text, as character-by-character order |
| PolicyMeaning.IntegersCompare | apps/policies/engine.py:226-241 | the four ordered operators on whole numbers |
| PolicyMeaning.FloatsCompare | apps/policies/engine.py:226-241 | the four ordered operators on floats |
| PolicyMeaning.OthersDoNotCompare | apps/policies/engine.py:227-235 | ordered operators raise on values of different kinds and on anything but numbers and text |
| PolicyMeaning.ContainsMeaning | apps/policies/engine.py:251-255 | text contains the text that occurs in it, a collection what equals a member; text raises for other values, and nothing else contains |
| PolicyMeaning.EqualityMeaning | apps/policies/engine.py:247-250 | scalars are equal by value, numbers across their types |
| PolicyMeaning.NumbersAcrossTypes | apps/policies/engine.py:247-250 | whole numbers, floats and truth values are compared as numbers |
| PolicyMeaning.ListEquality | apps/policies/engine.py:247-250 | lists and tuples are equal member by member, and never to each other |
| PolicyMeaning.SetEquality | apps/policies/engine.py:247-250 | sets are equal when every member of either equals one of the other |
| PolicyMeaning.MembershipMeaning | apps/policies/engine.py:247-250 | membership in lists and sets is equality with some member |
| PolicyMeaning.EqualsIsPyEqual | apps/policies/engine.py:247-250 | of dictionaries only two empty ones are equal |
| PolicyMeaning.UnaryMeaning | apps/policies/engine.py:222-223 | what is true, false and empty |
| PolicyMeaning.NegationMeaning | apps/policies/engine.py:249-270 | the negated operators answer the opposite and raise alike |
| PolicyMeaning.ConditionTestsItsField | apps/policies/engine.py:245 | a condition tests the value of its field, and None where there is none |
| PolicyEngine.FirstConditionDecides | apps/policies/engine.py:278-280 | the first condition that does not simply hold decides, so a later one that would raise is never reached |
| PolicyEngine.CalculatePolicyRisk | apps/policies/risk.py:221-244 | score, band, floor, breakdowns and contributions are those of the collected effects |
| PolicyEngine.CollectEffects | apps/policies/risk.py:225-242 | the loops collect the contributions and floors of all effects in order |

## Left out

- Postgres itself: row locks and SKIP LOCKED appear as the set of rows that a claim skips, repeatable read as a snapshot and an abort at the head lock; row-level security, triggers and NOTIFY are not modelled.
- The clock: each statement reads it once, although one SQL statement may read `clock_timestamp()` several times.
- Verification that races with sealing: the verifier runs on one state, and nothing is claimed of a moving store.
- SHA-256, RFC 8785 encoding, AES-GCM and UUID text are function parameters with the laws that the lemmas name. Of AES-GCM the round trip and the recomputation of the tag are assumed, not that tags cannot be forged.
- Discovery and generation fingerprints are the fields that they digest; the mapping registry is a parameter, not the five shipped entries.
- Naive timestamps, and job payloads that arrive as text: branches before the modelled code.
- Sealing.AuditStore.SealTenantAuditEvents: stored data reaches the code as its value, and text is decoded once; where the driver hands the column over undecoded, sealing would refuse an event whose stored data is text. Append never stores one.
- JSON numbers are compared by value, and a stored document is the one that was appended: how Postgres rewrites jsonb is not modelled.
- Catalog name normalization is a partial function parameter.
- JSON parsing of a bundle, its field sets, its size limit, its version, device and time checks; the record loop is modelled on well-typed records.
- Definition-time checks of rules, conditions, effects and configurations other than the weights.
- Handlers that enqueue new jobs while the queue is drained; with them the drain loop need not end.
- Worker.DrainQueue: other workers may do anything between two statements except enqueue; the clock readings of its statements are arbitrary.
- Event time order across blocks, exactly-once `persist`, and independence of the reported identifier type from candidate order: the code does not promise them.
- Listener, HTTP views, forms, reports, PDF, storage, ROI arithmetic, CSV import, collector registry reading: input, output, or straight-line copying.
