# Verified models of the certificate agents

The agents execute signed certificate plans on hosts and must survive crashes,
retries and partial failures. This project models the parts of them in which
that is decided, and proves what those parts promise for every input, every
environment and every run.

| modules | what they model |
|---|---|
| `Wrappers`, `Text`, `StableJson` | shared types; sorting, splitting and trimming; the canonical JSON printer behind task fingerprints, with a parser as its inverse |
| `TaskLedger`, `TaskProtocol`, `TaskResults`, `TaskOrigins`, `TaskKeys`, `TaskRuntime`, `TaskLimits` | the Windows agent's persisted task ledger; the task protocol as a machine of single effects with crashes between any two; which results it submits, where they come from, and under which keys it executes; the sequential code as the machine driven by its environment; and runs that show where the promises end |
| `Pkcs12Kdf`, `Pkcs12Alias` | the PKCS#12 key derivation of Appendix B.2 of RFC 7292 over an in-place buffer, and the alias rewrite with its MAC |
| `ObservationQueue`, `ObservationScan`, `ObservationRound`, `ObservationAgent`, `ObservationPaging` | the AD CS agent's retry queue, the scan that feeds it, its rounds, the mutable state behind them, and the cursor-paged listing |
| `PathScope`, `Checkpoint`, `PlanExecutor`, `PlanReceipt` | the Linux agent's path scopes, signed checkpoints with rollback, plan execution and receipts |
| `RelaySessions`, `RelayFrame` | the relay's session counter under interleaving, and its handshake reader |
| `NonceStore` | the single-use nonce store under interleaving, failures and crashes |

Where the source works on values, the model is functions and lemmas. Where it
changes state, the model is a class or a method over an array whose `ensures`
ties the new state to a function of the old one, and the promises are lemmas
about that function. The two protocols and the relay counter are machines of
atomic steps, and the sequential code is proved to perform runs of them.

Promises that the code keeps only under a condition carry that condition, with
an input for which it fails:

- one result per task holds as long as no staged result other than a recovery
  failure is lost, and this is the exact line (`OneResultPerTask`,
  `LossHarmlessExactly`);
- no delivered key is executed twice before a discard exactly when the control
  plane never gives one task id two keys, because a known id is not compared with
  its stored fingerprint (`KeyLimitExactly`, `ChangedKeyExecutesTwice`); per task
  id, and per key a record is filed under, nothing is needed (`AtMostOnce`);
- a checkpoint can be restored exactly when the cleaned path has no outer space,
  because the target path is trimmed when it is read back (`RollbackExact`,
  `SpacedPathNotRestored`);
- a written receipt is accepted exactly when the plan has an id, the clock did
  not go back, and nonce, token id and last operation id are not padded
  (`ReceiptAcceptedExactly`, `AcceptedUnderAll`, `PaddedIdRefused`);
- the number of records marked sent is the accepted number exactly when the
  answer names as many distinct positions as it counts rejections
  (`MarkedCountExact`, `MisnamedRejectionMarked`);
- a replace is skipped only rightly exactly when every earlier operation that can
  report under its path key is a backup of the same path with the same content
  (`SkipsRightlyExactly`, `KeyRequestSkipsReplace`);
- the sorted NUL-joined list comparison sees only the pieces between NULs
  (`SameStringSetExact`, `NulConfuses`), yet scope containment survives it for
  any lists (`TokenWithinPolicy`).

One comment in the source disagrees with its code: it says that a forced scan
bypasses the check for pending keys (agents/windows-adcs-agent/main.go:795-806),
but the code refuses a pending key even when forced. The model follows the code;
the disjointness of batches depends on it.

## Model

| member | source | states |
|---|---|---|
| `StableJson.ParsePrint` | agents/windows-compat-full-agent/ledger.go:352-392 | A parser recovers every JSON value, and the text after it, from the printed form: the printer has a left inverse |
| `StableJson.PrintInjective` | agents/windows-compat-full-agent/ledger.go:352-392 | Two values print the same exactly when they are equal as values |
| `StableJson.PrintExact` | agents/windows-compat-full-agent/ledger.go:352-392 | The printed form: words and literals as they are, strings in quotes, items and key-ordered members between commas |
| `StableJson.EscapePlain` | agents/windows-compat-full-agent/ledger.go:356-358 | Printed strings hold no control character, no markup character and no line separator |
| `Text.SortCanonical` | agents/windows-compat-full-agent/ledger.go:373-383 | Whatever order a map hands out its keys, sorting them gives the one sequence the printer uses |
| `StableJson.FingerprintExact` | agents/windows-compat-full-agent/ledger.go:326-336 | Under a collision-free hash two task payloads have the same fingerprint exactly when agent, run, step, key and payload all agree |
| `StableJson.WorkFields` | agents/windows-compat-full-agent/ledger.go:326-333 | The fingerprinted value names exactly the five fields of the work |
| `StableJson.StringsJoin` | agents/windows-compat-full-agent/ledger.go:394-403 | The accumulating loop yields the parts with the separator between each two and nowhere else |
| `TaskLedger.SnapshotRoundTrip` | agents/windows-compat-full-agent/ledger.go:223-234 | Writing the task map to the snapshot and reading it back loses and changes nothing |
| `TaskLedger.ReloadExact` | agents/windows-compat-full-agent/ledger.go:72-102 | A reload gives back every record, turned to recovering where unfinished, and an index that is the exact inverse of the task map |
| `TaskLedger.PersistExact` | agents/windows-compat-full-agent/ledger.go:223-234 | A write keeps the index exact and puts the whole task map on disk unless the write was lost |
| `TaskLedger.AcceptKeeps` | agents/windows-compat-full-agent/ledger.go:104-135 | Accepting any envelope, under any write outcome, keeps index and task map exact inverses |
| `TaskLedger.PatchKeeps` | agents/windows-compat-full-agent/ledger.go:212-221 | Replacing a record keeps the index exact; the disk then holds the old or the new map, never a mixture |
| `TaskLedger.DiscardKeeps` | agents/windows-compat-full-agent/ledger.go:179-191 | Forgetting a task removes exactly its index entry and keeps the rest exact |
| `TaskLedger.KeyConflictExact` | agents/windows-compat-full-agent/ledger.go:110-116 | A reused idempotency key under a new id is refused exactly when the work differs, and leaves the ledger alone |
| `TaskLedger.NewTaskAccepted` | agents/windows-compat-full-agent/ledger.go:104-135 | An envelope with a new id and key opens a fresh record with its fingerprint, and is taken on exactly when the write is saved |
| `TaskLedger.SecondUnderKey` | agents/windows-compat-full-agent/ledger.go:104-135 | After an envelope was taken in, another id under its key is refused exactly when the work differs, and answered with the first record else |
| `TaskLedger.LocalTaskLedger.constructor` | agents/windows-compat-full-agent/ledger.go:72-102 | Loading folds the snapshot's records into the task map and the index |
| `TaskLedger.LocalTaskLedger.WriteSnapshot` | agents/windows-compat-full-agent/ledger.go:223-234 | A failed write may or may not have replaced the file; memory is untouched |
| `TaskLedger.LocalTaskLedger.AcceptTask` | agents/windows-compat-full-agent/ledger.go:104-135 | Known id, then known key, then a new record; memory grows even when the write fails |
| `TaskLedger.LocalTaskLedger.PatchTask` | agents/windows-compat-full-agent/ledger.go:212-221 | Memory changes before the write, so they can differ after a failure |
| `TaskLedger.LocalTaskLedger.MarkAcked` | agents/windows-compat-full-agent/ledger.go:137-143 | The record takes the lease; an unknown id is an error without effect |
| `TaskLedger.LocalTaskLedger.MarkRunning` | agents/windows-compat-full-agent/ledger.go:145-150 | The record becomes running; an unknown id is an error without effect |
| `TaskLedger.LocalTaskLedger.StageResult` | agents/windows-compat-full-agent/ledger.go:152-165 | The result and its lease are recorded as pending |
| `TaskLedger.LocalTaskLedger.MarkReported` | agents/windows-compat-full-agent/ledger.go:167-177 | The record becomes succeeded or failed and reported |
| `TaskLedger.LocalTaskLedger.DiscardTask` | agents/windows-compat-full-agent/ledger.go:179-191 | The record and its index entry go |
| `TaskProtocol.StepInv` | agents/windows-compat-full-agent/main.go:2387-2591 | Every effect (delivery, lease, ledger write, execution, submission, crash with reload) keeps the protocol invariant |
| `TaskProtocol.Run` | agents/windows-compat-full-agent/main.go:2387-2532 | The invariant holds in every state that any sequence of effects and crashes reaches |
| `TaskProtocol.Reached` | agents/windows-compat-full-agent/main.go:2387-2532 | The same from the empty ledger, without any assumption |
| `TaskProtocol.AtMostOnce` | agents/windows-compat-full-agent/main.go:2387-2519 | Over every run, with any failed writes and crashes, a task id and a filed key are executed at most once until discarded; the index is exact in memory and after a reload |
| `TaskProtocol.FinalStatusAgrees` | agents/windows-compat-full-agent/main.go:2534-2591 | A record that is succeeded or failed was reported, carries a result with that outcome, and that very result was submitted |
| `TaskProtocol.LeaseDistinct` | agents/windows-compat-full-agent/main.go:2685-2687 | Two leases for one task differ whenever the clock readings do |
| `TaskResults.OneResultPerTask` | agents/windows-compat-full-agent/main.go:2398-2591 | When no staged result other than a recovery failure is lost, all results submitted for a task before its discard are the same request, which memory and disk both stand for, and the final status agrees with it |
| `TaskResults.StepResults` | agents/windows-compat-full-agent/main.go:2398-2591 | Every effect but such a loss keeps what memory, disk and log say about each task's result in agreement |
| `TaskOrigins.StepOrigins` | agents/windows-compat-full-agent/main.go:2387-2591 | Every effect keeps track of where records, results and discards come from |
| `TaskOrigins.SubmittedFromExecution` | agents/windows-compat-full-agent/main.go:2387-2591 | Over every run a submitted result is one with which an execution of that very task finished, or the failure that a restart leaves; a success was always the outcome of an execution |
| `TaskOrigins.RecoveryFails` | agents/windows-compat-full-agent/main.go:2405-2418 | A task cut off by a restart is reported as a failure, with its code and details |
| `TaskOrigins.DiscardedWhenGone` | agents/windows-compat-full-agent/main.go:2534-2560 | Over every run a task is discarded only after the control plane refused its result as unknown, removed or too late |
| `TaskOrigins.GoneIsDiscarded` | agents/windows-compat-full-agent/main.go:3083-3096 | Such a refusal, and no other, is followed by the discard |
| `TaskOrigins.RecordFromDelivery` | agents/windows-compat-full-agent/ledger.go:104-135 | Over every run each record was opened by a delivered envelope of its id and holds that envelope's key, run, step and fingerprint |
| `TaskOrigins.ConflictOverRuns` | agents/windows-compat-full-agent/ledger.go:110-116 | Over every run an envelope with a new id and a key in use is refused exactly when its work differs from the work delivered for that key |
| `TaskKeys.AtMostOncePerKey` | agents/windows-compat-full-agent/main.go:2387-2519 | If each task id keeps its key, no delivered idempotency key is executed twice before a discard |
| `TaskLimits.KeyLimitExactly` | agents/windows-compat-full-agent/main.go:2387-2519 | The exact condition: over all runs whose deliveries the control plane may make, no delivered key is executed twice before a discard if and only if it never gives one task id two keys |
| `TaskLimits.ChangedKeyExecutesTwice` | agents/windows-compat-full-agent/ledger.go:104-108 | A redelivered id is not compared with the stored fingerprint: with changing keys, a run from the empty ledger executes two tasks under one key |
| `TaskLimits.LostStageSubmitsTwice` | agents/windows-compat-full-agent/main.go:2398-2428 | From every executing state, losing the staging write of anything but a recovery failure can end in two different submitted results |
| `TaskLimits.LossHarmlessExactly` | agents/windows-compat-full-agent/main.go:2398-2428 | The exact line: after a lost staging write every continuation without a harmful loss keeps to one result if and only if the lost result was itself a recovery failure |
| `TaskRuntime.ProcessTask` | agents/windows-compat-full-agent/main.go:2387-2519 | For every answer of the environment the ledger, the log and the error result are those of the machine driven by exactly these answers; and what is executed, submitted and discarded is given by what was known about the envelope |
| `TaskRuntime.AcknowledgeAndRun` | agents/windows-compat-full-agent/main.go:2430-2456 | As above; the task is executed, and its result submitted, exactly when it is known, the lease is granted and the writes are saved, and the call fails otherwise unless another lease holds the task |
| `TaskRuntime.ExecuteAndReplay` | agents/windows-compat-full-agent/main.go:2458-2519 | As above; the log gains the execution of the delivered task, then exactly its result if the staging was saved, then a discard if the control plane asked for one |
| `TaskRuntime.StageAndReplay` | agents/windows-compat-full-agent/main.go:2494-2518 | As above; the staged result under the staged lease is what is submitted, and after a successful staging the record lookup cannot fail |
| `TaskRuntime.ReplayTaskResult` | agents/windows-compat-full-agent/main.go:2534-2591 | As above; the stored request is submitted once, and the record is reported, discarded or left as the answer says while all others stay |
| `TaskRuntime.Recoverable` | agents/windows-compat-full-agent/ledger.go:198-210 | Every unfinished record exactly once and no finished one, ordered by update time |
| `TaskRuntime.RecoverOutstandingTasks` | agents/windows-compat-full-agent/main.go:2521-2532 | A run of the machine in which every waiting result of the old ledger is submitted exactly once, as stored, and each task ends as its own answer says whatever happens to the others |
| `TaskRuntime.RoundIsRun` | agents/windows-compat-full-agent/main.go:2387-2519 | A round driven by its environment never gets stuck, ends, and is a run of the machine, so the results over all runs apply to it |
| `Pkcs12Kdf.FillIsFilled` | agents/linux-go-full-agent/keystore_material.go:311-317 | The padded input has the least multiple of 64 bytes that holds the value and repeats it cyclically; empty stays empty |
| `Pkcs12Kdf.FixedNumber` | agents/linux-go-full-agent/keystore_material.go:332-349 | The fixed-width big-endian form of a number stands for that number modulo 256 to its width |
| `Pkcs12Kdf.MinimalFixed` | agents/linux-go-full-agent/keystore_material.go:341-348 | The minimal big-endian form, cut on the left or padded with zeros, is the fixed-width form |
| `Pkcs12Kdf.NumberUnique` | agents/linux-go-full-agent/keystore_material.go:332-349 | Byte strings of one length are equal when their numbers are |
| `Pkcs12Kdf.BumpBlock` | agents/linux-go-full-agent/keystore_material.go:338-348 | One 64-byte block becomes the big-endian form of block + B + 1 modulo 2^512 and no other byte changes |
| `Pkcs12Kdf.BumpInput` | agents/linux-go-full-agent/keystore_material.go:332-349 | Every block of the input is updated so, in place, and the length stays |
| `Pkcs12Kdf.Rehash` | agents/linux-go-full-agent/keystore_material.go:324-327 | The loop applies the hash as often as the iteration count asks |
| `Pkcs12Kdf.HashBlock` | agents/linux-go-full-agent/keystore_material.go:323-327 | One block of output is the iterated hash of the diversifier and the buffer |
| `Pkcs12Kdf.DeriveSha1` | agents/linux-go-full-agent/keystore_material.go:309-352 | For every salt, password, count, identifier and size the code yields what Appendix B.2 of RFC 7292 describes, of exactly the asked size |
| `Pkcs12Kdf.DerivationUnique` | agents/linux-go-full-agent/keystore_material.go:309-352 | That description determines the key: two derivations from the same inputs agree |
| `Pkcs12Alias.BmpString` | agents/linux-go-full-agent/keystore_material.go:291-307 | Succeeds exactly on texts of nonzero basic-plane characters, and yields two big-endian bytes each, with the terminator if asked |
| `Pkcs12Alias.BmpExact` | agents/linux-go-full-agent/keystore_material.go:291-307 | The encoding byte by byte: high byte first, then two zero bytes where a terminator is asked for |
| `Pkcs12Alias.BmpInjective` | agents/linux-go-full-agent/keystore_material.go:291-307 | Different texts have different encodings |
| `Pkcs12Alias.CompactAttributes` | agents/linux-go-full-agent/keystore_material.go:191-196 | The in-place filter leaves the other attributes in their order and never overwrites an unread entry |
| `Pkcs12Alias.OthersExact` | agents/linux-go-full-agent/keystore_material.go:191-196 | The filter drops names and keeps everything else in its order |
| `Pkcs12Alias.RewriteKeyBag` | agents/linux-go-full-agent/keystore_material.go:191-198 | A key bag gets its other attributes followed by the name |
| `Pkcs12Alias.RewriteBags` | agents/linux-go-full-agent/keystore_material.go:187-199 | All bags of one content rewritten in place; reports whether there was a key bag |
| `Pkcs12Alias.RewriteSafe` | agents/linux-go-full-agent/keystore_material.go:174-212 | All contents rewritten in place; fails exactly on a data content that does not decode |
| `Pkcs12Alias.SetKeyAlias` | agents/linux-go-full-agent/keystore_material.go:156-241 | Succeeds exactly on acceptable stores and aliases; the result is the rewritten safe and its MAC verifies with the same password |
| `Pkcs12Alias.BagKept` | agents/linux-go-full-agent/keystore_material.go:187-199 | Bag id and value stay, other attributes keep their order, a key bag has exactly one friendlyName, other bags do not change |
| `Pkcs12Alias.SafeKept` | agents/linux-go-full-agent/keystore_material.go:174-212 | Over the whole safe: contents that are not data are untouched and every bag is kept in place in that sense |
| `Pkcs12Alias.SetTwice` | agents/linux-go-full-agent/keystore_material.go:174-212 | Setting one alias and then another equals setting the other |
| `ObservationQueue.BackoffBounds` | agents/windows-adcs-agent/main.go:1257-1260 | Every retry delay is between 5 and 300 seconds and does not shrink with more attempts |
| `ObservationQueue.BackoffExact` | agents/windows-adcs-agent/main.go:1257-1260 | The delays are 5, 10, 20, 40, 80 and 160 seconds, and 300 from the seventh on |
| `ObservationQueue.RetryLater` | agents/windows-adcs-agent/main.go:1237-1290 | A batch that is not due is left alone; one not wholly accepted is due again exactly when the delay of its attempts has passed; one is dropped only when wholly accepted |
| `ObservationQueue.LeftOk` | agents/windows-adcs-agent/main.go:1237-1301 | Whatever the answer, a batch leaves at most one batch, which is well formed and a part of it |
| `ObservationQueue.RemainingOk` | agents/windows-adcs-agent/main.go:1237-1301 | A flush keeps batches nonempty, keys distinct and disjoint, fingerprints equal to record keys, and sequence numbers increasing |
| `ObservationQueue.RecordKept` | agents/windows-adcs-agent/main.go:1322-1369 | Each record of an answered batch is retained with its fingerprint or marked sent with it |
| `ObservationQueue.NothingLost` | agents/windows-adcs-agent/main.go:1237-1369 | For every answer or error, each pending record is afterwards pending with the same fingerprint or sent with it |
| `ObservationQueue.SentFrame` | agents/windows-adcs-agent/main.go:1351-1369 | Keys that were not queued keep their place in the sent map |
| `ObservationQueue.CountsBalance` | agents/windows-adcs-agent/main.go:1237-1320 | Attempted is sent plus failed, and accepted plus rejected is the number of records in sent batches |
| `ObservationQueue.CountsExact` | agents/windows-adcs-agent/main.go:1237-1301 | Each count of a flush is the sum of what its batches and answers say |
| `ObservationQueue.MarkedCountExact` | agents/windows-adcs-agent/main.go:1276-1298 | How many records an answered batch marks as sent, and that this is the accepted number exactly when the rejected number is the number of distinct positions named (or of all records where none is named) |
| `ObservationQueue.MisnamedRejectionMarked` | agents/windows-adcs-agent/main.go:1276-1298 | An answer that counts one rejection but names a position outside the batch has a record marked sent that was not accepted |
| `ObservationRound.ReconcileOk` | agents/windows-adcs-agent/main.go:591-626 | Rebinding to an identity keeps the queue invariant |
| `ObservationRound.ReconcileExact` | agents/windows-adcs-agent/main.go:585-626 | A change of agent, key, version, CA or parser forgets all that was sent and puts what waits under the new agent, and changes nothing else; without one nothing is forgotten |
| `ObservationRound.NewIdentityBackfills` | agents/windows-adcs-agent/main.go:591-626 | After a change of identity with nothing waiting, an unforced scan queues every object again |
| `ObservationRound.EnqueueOk` | agents/windows-adcs-agent/main.go:723-758 | Queueing a scan keeps the new batch disjoint from all pending ones, forced or not, under a new highest number |
| `ObservationRound.ChangedExact` | agents/windows-adcs-agent/main.go:795-806 | What is queued of a scan: every object not waiting when forced, else those not sent with their present digest |
| `ObservationRound.EnqueueExact` | agents/windows-adcs-agent/main.go:723-758 | The new batch comes last, under the next number and the registered names, due at once, with exactly the changed objects and their digests |
| `ObservationRound.RoundOk` | agents/windows-adcs-agent/main.go:672-767 | A whole round keeps the queue invariant |
| `ObservationRound.RoundCovers` | agents/windows-adcs-agent/main.go:672-767 | Whatever is answered in a round: what still waits after the first flush is afterwards waiting or sent with its own fingerprint, and every other scanned object is waiting or sent with its own digest |
| `ObservationRound.ReachableOk` | agents/windows-adcs-agent/main.go:563-767 | Every reachable queue, in memory and on disk, over rounds with any views, restarts and saves that succeed, fail or lose the file, satisfies the invariant |
| `ObservationRound.ScanAccepted` | agents/windows-adcs-agent/main.go:723-758 | With nothing pending, an accepted scan leaves the sent map equal to the scan on every scanned key |
| `ObservationRound.Quiescence` | agents/windows-adcs-agent/main.go:672-806 | If all batches are due, the identity is unchanged and everything is accepted, one round empties the queue and matches the scan, and an unforced round over the same scan submits and changes nothing |
| `ObservationScan.CollectRecords` | agents/windows-adcs-agent/main.go:835-896 | The loop over the views computes the collection function; only an all-unreadable collection is an error |
| `ObservationScan.MergeView` | agents/windows-adcs-agent/main.go:857-866 | The loop over one view computes the merge function |
| `ObservationScan.MergeAllBest` | agents/windows-adcs-agent/main.go:847-867 | Every request in any readable view is kept, with the first of its readings of the highest status rank |
| `ObservationScan.StatusWins` | agents/windows-adcs-agent/main.go:1221-1230 | A decided reading of a request wins over any other, and a pending one over the rest |
| `ObservationScan.ExpandScanOk` | agents/windows-adcs-agent/main.go:878-894 | Distinct requests expand to observations with distinct keys |
| `ObservationScan.CollectScanOk` | agents/windows-adcs-agent/main.go:835-896 | Whatever the views hold, a scan never lists an object twice |
| `ObservationScan.CollectLists` | agents/windows-adcs-agent/main.go:878-894 | A scan lists every kept request, an issued one also as an issuance and a revoked one also as a revocation, and nothing else |
| `ObservationScan.CollectOrder` | agents/windows-adcs-agent/main.go:868-877 | A scan fails exactly when no view could be read, and goes through the requests in the order of their ids |
| `ObservationAgent.RetainRejected` | agents/windows-adcs-agent/main.go:1322-1349 | The retained batch holds exactly the rejected records, in order, with exactly their fingerprints |
| `ObservationAgent.ObservationState.constructor` | agents/windows-adcs-agent/main.go:563-583 | Without a state file the queue is empty |
| `ObservationAgent.ObservationState.ReconcileState` | agents/windows-adcs-agent/main.go:591-626 | The state becomes the reconciled queue |
| `ObservationAgent.ObservationState.MarkAccepted` | agents/windows-adcs-agent/main.go:1351-1369 | The sent map gains exactly the fingerprints of the records that were not rejected |
| `ObservationAgent.ObservationState.FlushQueue` | agents/windows-adcs-agent/main.go:1237-1301 | Queue, sent map and counts become those of the flush function, about which the queue lemmas speak |
| `ObservationAgent.ObservationState.PushOne` | agents/windows-adcs-agent/main.go:1250-1298 | One batch: skipped, postponed with backoff, reduced to its rejected part, or done |
| `ObservationAgent.ObservationState.QueueChanged` | agents/windows-adcs-agent/main.go:723-758 | Exactly the changed, not yet pending records are queued, as one batch |
| `ObservationAgent.ObservationState.CollectAndPush` | agents/windows-adcs-agent/main.go:672-767 | Reconcile, flush, scan, queue, flush, in that order, with the counts of both flushes |
| `ObservationPaging.SortExact` | agents/windows-adcs-agent/main.go:2178-2195 | Sorting distinct rows by request id gives a strictly ascending permutation |
| `ObservationPaging.AscendingUnique` | agents/windows-adcs-agent/main.go:2178-2195 | A strictly ascending listing is determined by its rows |
| `ObservationPaging.FilterExact` | agents/windows-adcs-agent/main.go:2180-2189 | Filtering an ascending listing keeps exactly the wanted rows, ascending |
| `ObservationPaging.PageIsStretch` | agents/windows-adcs-agent/main.go:2178-2209 | For every object type each page is the next stretch of the full listing of its rows, and its cursor points just past it |
| `ObservationPaging.NextPage` | agents/windows-adcs-agent/main.go:1069-1094 | The rows collected so far and the page make a longer prefix of the listing, and the cursor strictly increases |
| `ObservationPaging.CollectView` | agents/windows-adcs-agent/main.go:1069-1094 | Every row exactly once, ascending, when there are at most 50,000, and an error otherwise; cursors strictly increase, each just past a page of 500 |
| `PathScope.CleanKeeps` | agents/linux-go-full-agent/v2_contract.go:2648-2663 | Lexical cleaning keeps a path's components and whether it is rooted |
| `PathScope.ContainsExact` | agents/linux-go-full-agent/v2_contract.go:2626-2646 | A scope contains a path exactly when some entry's components are a prefix of the path's, with both rooted or both not |
| `PathScope.ScopeTransitive` | agents/linux-go-full-agent/v2_contract.go:2626-2646 | A scope admits everything inside what it admits |
| `PathScope.SameStringSetExact` | agents/linux-go-full-agent/v2_contract.go:2611-2616 | For any lists: they compare equal exactly when the NUL-separated pieces of their sorted entries, one after the other, are the same |
| `PathScope.NulFreeExact` | agents/linux-go-full-agent/v2_contract.go:2611-2616 | On lists without NUL that is multiset equality, except that the empty list and one empty text are not told apart |
| `PathScope.NulConfuses` | agents/linux-go-full-agent/v2_contract.go:2611-2616 | With NUL inside an entry two different lists compare equal |
| `PathScope.TokenWithinPolicy` | agents/linux-go-full-agent/v2_contract.go:2587-2646 | For any lists whatever: a token scope that compares equal to a request scope admitted by the policy admits only paths that the policy admits |
| `Checkpoint.CheckpointValidates` | agents/linux-go-full-agent/v2_contract.go:1189-1225 | A checkpoint made by a backup validates for its path exactly when the cleaned path has no outer space |
| `Checkpoint.RollbackExact` | agents/linux-go-full-agent/v2_contract.go:1060-1187 | After a backup, a restore with the backup file intact succeeds exactly under that condition, gives back the original bytes and nonzero permissions, or absence, and changes nothing else |
| `Checkpoint.BackupWrites` | agents/linux-go-full-agent/v2_contract.go:1060-1131 | A backup that hands out a checkpoint has written the target's bytes and mode beside it and changed nothing else |
| `Checkpoint.BackupThenRestore` | agents/linux-go-full-agent/v2_contract.go:1060-1187 | Over the very files that a backup left, a restore succeeds exactly when the cleaned path has no outer space, and the target is then as before |
| `Checkpoint.BackupExactly` | agents/linux-go-full-agent/v2_contract.go:1060-1131 | Exactly when a backup hands out a checkpoint, and when it finds the wanted content in place |
| `Checkpoint.SpaceBeforeSlash` | agents/linux-go-full-agent/v2_contract.go:1060-1080 | The path "/a /" is accepted by a backup and fails the condition |
| `Checkpoint.SpacedPathNotRestored` | agents/linux-go-full-agent/v2_contract.go:1060-1225 | With any signer and keys, the backup of that path hands out a checkpoint that the restore refuses |
| `Checkpoint.RestoreNeverWrong` | agents/linux-go-full-agent/v2_contract.go:1147-1187 | Whatever became of the backup file, if no other bytes share the original's digest, a restore that succeeds leaves the original bytes, or absence, and touches no other path |
| `Checkpoint.LinkedBackupRestored` | agents/linux-go-full-agent/v2_contract.go:1147-1187 | A concrete case with the backup replaced by a link: the restore follows it and succeeds exactly when the bytes behind it are the original ones |
| `Checkpoint.RestoreWritesSignedDigest` | agents/linux-go-full-agent/v2_contract.go:1147-1233 | For any checkpoint: a successful restore was asked for a good path by a checkpoint of the known schema for it with a verified signature, read the bytes beside the target, wrote only bytes with the signed digest under the signed mode, and changed only the target |
| `Checkpoint.FailuresAreClean` | agents/linux-go-full-agent/v2_contract.go:1060-1187 | A failed restore changes nothing, and a backup at most the backup file |
| `Checkpoint.Host.BackupPath` | agents/linux-go-full-agent/v2_contract.go:1060-1131 | The file map and the answer are those of the backup function |
| `Checkpoint.Host.RestorePath` | agents/linux-go-full-agent/v2_contract.go:1147-1187 | The file map and the answer are those of the restore function |
| `PlanExecutor.ExecutePlan` | agents/linux-go-full-agent/v2_contract.go:726-855 | The loop over the operations computes the executor's progress function |
| `PlanExecutor.ResultsExact` | agents/linux-go-full-agent/v2_contract.go:738-845 | The results are the operations in order up to the first that did not succeed; each before it has a handler and is recorded as skipped exactly when it was skipped |
| `PlanExecutor.GoesOnExactly` | agents/linux-go-full-agent/v2_contract.go:744-808 | A run goes on exactly as long as every operation has a handler, keeps a live context and succeeds or is skipped |
| `PlanExecutor.StopsAtFirst` | agents/linux-go-full-agent/v2_contract.go:805-838 | The first operation that does not go well ends the run, with UNKNOWN exactly where its failure leaves the host uncertain and FAILED otherwise |
| `PlanExecutor.NoOpExact` | agents/linux-go-full-agent/v2_contract.go:796-804 | A path counts as unchanged exactly when a reached backup or key request with the same path key reported so |
| `PlanExecutor.ConfigCheckSkipped` | agents/linux-go-full-agent/v2_contract.go:783-789 | A command is skipped exactly when it is the configuration check and the plan's replaces all came before it and were skipped |
| `PlanExecutor.SkipsRightlyExactly` | agents/linux-go-full-agent/v2_contract.go:754-804 | A reachable replace is skipped only where its own content was found at its own path, under all outcomes, if and only if every earlier backup or key request that can report under its path key is a backup of the same path with the same content |
| `PlanExecutor.KeyRequestSkipsReplace` | agents/linux-go-full-agent/v2_contract.go:754-804 | A key request that finds its key there can have a replace of the same path skipped, whatever that would have written |
| `PlanExecutor.CommittedExact` | agents/linux-go-full-agent/v2_contract.go:745-808 | A write is remembered as committed exactly when a reached operation changed the host in a way spelled out by kind: a replace that was not skipped, a key or certificate installed, a service controlled, a backup written |
| `PlanExecutor.FailedMeansNothingTracked` | agents/linux-go-full-agent/v2_contract.go:806-818 | A run reported as failed stopped at an operation that cannot have written, or at a command before which nothing tracked had changed the host |
| `PlanReceipt.ReceiptNamesLast` | agents/linux-go-full-agent/v2_contract.go:906-916 | The receipt names the trimmed id of the operation at which the run ended |
| `PlanReceipt.BuiltReceiptValid` | agents/linux-go-full-agent/v2_contract.go:949-984 | The receipt of any run of a validated plan validates exactly when the plan has an id and the clock did not go back |
| `PlanReceipt.ReceiptStatusExact` | agents/linux-go-full-agent/v2_contract.go:805-904 | The stored receipt tells how the run went: success exactly when every operation went well, else unknown or failed by the first that did not, with the matching error code and reason |
| `PlanReceipt.RunPlanKeeps` | agents/linux-go-full-agent/v2_contract.go:703-724 | A run of a plan that writes adds one nonce record and one receipt, changes nothing else, and every stored receipt keeps belonging to a consumed nonce |
| `PlanReceipt.RanIsBound` | agents/linux-go-full-agent/v2_contract.go:606-709 | A plan that runs is bound to its token field by field, within the limits, and holds an operation that is not harmless |
| `PlanReceipt.LoadedIsBound` | agents/linux-go-full-agent/v2_contract.go:949-1017 | Whatever is in the store, an accepted receipt is the one under the trimmed nonce, consumed under this token and for this plan, bound to the token field by field, with a digest of its own fields and a verified signature |
| `PlanReceipt.ReceiptAcceptedExactly` | agents/linux-go-full-agent/v2_contract.go:879-1017 | Whatever each operation's outcome, the loader accepts the written receipt exactly when the plan has an id, the clock did not go back, nonce and token id are trimmed and the trimmed last id is in the plan; it then lists exactly the run's results |
| `PlanReceipt.TrimmedIdsAccepted` | agents/linux-go-full-agent/v2_contract.go:879-1017 | With trimmed ids and a clock that does not go back every written receipt is accepted |
| `PlanReceipt.AcceptedUnderAll` | agents/linux-go-full-agent/v2_contract.go:879-1017 | Before the run: the receipt is accepted under every outcome exactly when, besides these conditions, the trimmed id of every operation the executor can reach is an id of the plan |
| `PlanReceipt.PaddedIdRefused` | agents/linux-go-full-agent/v2_contract.go:906-916 | In a concrete setting every plan of one service operation with a nonblank id runs, and its receipt is accepted exactly when the id is not padded and the clock did not go back; " a" is such a padded id |
| `RelaySessions.NextInv` | agents/go-gateway-agent/relay.go:343-366 | Each atomic step keeps the counter equal to the number of held sessions |
| `RelaySessions.SessionsBounded` | agents/go-gateway-agent/relay.go:315-366 | Under every interleaving the counter is the number of held sessions, lies between 0 and 128, and every tracked connection holds one |
| `RelaySessions.RefusedOnlyWhenFull` | agents/go-gateway-agent/relay.go:343-349 | A connection is refused only when all 128 sessions were held at its load |
| `RelayFrame.Reader.constructor` | agents/go-gateway-agent/relay.go:428-429 | A new reader has buffered nothing and has the whole stream ahead |
| `RelayFrame.Reader.Fill` | agents/go-gateway-agent/relay.go:518-533 | However much arrives, the unread stream stays the same |
| `RelayFrame.Reader.ReadSlice` | agents/go-gateway-agent/relay.go:518-533 | A slice ends at the first newline, at a full buffer or at the end of the stream, and slice plus unread is the old unread |
| `RelayFrame.Reader.Read` | agents/go-gateway-agent/relay.go:535-541 | A read through the connection takes buffered bytes first and loses none |
| `RelayFrame.ReadFrame` | agents/go-gateway-agent/relay.go:518-533 | For every stream, chunking and buffer size: the shortest newline-ended prefix if within the limit, else the right error; frame plus unread is the stream |
| `RelayFrame.Drain` | agents/go-gateway-agent/relay.go:535-541 | Reading on to the end gives exactly what was unread |
| `RelayFrame.Handshake` | agents/go-gateway-agent/relay.go:509-541 | Frame plus everything piped afterwards equals the original stream |
| `NonceStore.NextInv` | agents/linux-go-full-agent/nonce_store.go:45-95 | Every step of every call, and every crash, keeps record files owned by at most one call and those of started plans for good |
| `NonceStore.NonceUsedOnce` | agents/linux-go-full-agent/nonce_store.go:45-95 | Under every interleaving, failure and crash at most one call succeeds per trimmed nonce over the life of the store |
| `NonceStore.StartedIsRefused` | agents/linux-go-full-agent/nonce_store.go:73-79 | Once a nonce has started a plan, any later call with it is refused |
| `NonceStore.NonceDirectory.constructor` | agents/linux-go-full-agent/nonce_store.go:53-60 | A fresh directory holds no records |
| `NonceStore.NonceDirectory.Consume` | agents/linux-go-full-agent/nonce_store.go:45-95 | Succeeds exactly when nothing is blank, the record file is not there and creating and writing it work; the sequential code is a run of steps of the machine |

## Left out

- Timestamps, metadata, log submission, the recovery ledger and the runtime counters of the task protocol: they decide nothing in it.
- TaskRuntime.Recoverable: the update times are given by a parameter; that the ledger methods set them is not modelled.
- TaskLedger.SnapshotRoundTrip: the JSON encoding of the snapshot is not modelled; numbers in a result beyond 2^53 come back rounded after a reload, so that equality of results holds up to that.
- A corrupt or unreadable ledger snapshot, and file system damage outside the three outcomes of a write (replaced, replaced with an error reported, old file kept).
- JSON numbers are kept as their printed literals, so that float formatting is not modelled; strings are sequences of characters, so that replacement of invalid UTF-8 is not; the re-decoding branch of the printer for other Go types is not.
- StableJson.ParsePrint: stated for well-formed values, whose number literals are nonempty and made of number characters, as the encoder prints them.
- SHA-1, SHA-256, HMAC, signatures and DER are uninterpreted functions; collision freedom and verification of own signatures are assumptions of the lemmas that need them.
- Pkcs12Kdf.DeriveSha1: a negative size, on which the code would panic, is not modelled.
- Pkcs12Alias.SetKeyAlias: the order in which DER encodes a SET of attributes on marshalling is not modelled; the PFX is a tree, and failures of marshalling are not modelled.
- Observation counters for inserted, updated and duplicate records, error texts, the last-run summary and the wrap-around of the 64-bit sequence number; case-insensitive comparison of names is a parameter.
- ObservationPaging.CollectView: the COM path, certutil's CSV and the choice between them are not modelled; an answer is any listing of the rows from the cursor on.
- PathScope.CleanKeeps: cleaning is modelled for paths without parent components, which the validators refuse beforehand.
- Symbolic link races, ownership and the temporary file inside an atomic replace: a replace is one step on a map of paths.
- The effects of the single operations of a plan other than backup and restore: each is an outcome chosen by the environment, and operation details other than the status are not in the results. The checks of a plan against its token that receipts do not depend on are one predicate of the token.
- PlanExecutor.SkipsRightlyExactly: speaks of what was found when the report was made; changes to the file between the report and the skip, and the preparation of key store content before a replace, are not modelled. The path key, which folds case, is a field of the operation.
- PlanExecutor.CommittedExact: speaks of the writes that the executor tracks; a store install, a restore and a command are writes it does not track as committed.
- PlanReceipt.RunPlan: storage failures while keeping the nonce record or the receipt end without a receipt and are not told apart; the comparison with a receipt submitted in the request and the error texts are not modelled.
- The legacy receipt digests are only read by the validator and never written; the model keeps them as uninterpreted alternatives.
- Relay authentication, dialling, shutdown, idle watchdog and the two-way pump; zero-length reads from a connection.
- The accept loop's error handling, and whether a compare-and-swap loop ends under contention.
- HTTP clients, heartbeats, registration, discovery of web servers, upgrades, Windows service glue and the Linux agent's result ledger, whose write is not atomic.
