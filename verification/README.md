# takyonic in Dafny

A model of the parts of takyonic where several mechanisms have to agree with each other,
and proofs of what they promise together. takyonic is a distributed database engine: an
LSM tree and a B-Tree under multi-version concurrency control, client sessions with
optimistic validation, two-phase commit across shards, Raft replication, and a buffer pool
over chunked object storage.

`dafny verify dfyconfig.toml` verifies everything.

## How it is laid out

Each component has a module that states what it is: immutable states, the steps it can take,
and lemmas over every run of such steps. Where the program interleaves, a step is one critical
section: `Sections`, `TwoPhase`, `Catalog`, `FlushRace`, `FrameOwnership`, and the separate
halves of `begin` and `publish_watermark` in `Occ`. Modules whose steps are whole calls say so.
Where the program updates objects in place or loops, a class or method beside it does the same
and is proved against that specification.

- Distributed commit: `Shard` (one participant, whole calls), `Sections` (the same at the
  granularity of its locks), `Overlap` (what overlapping calls can break), `Participant` (the
  object form, in `LocalShard.dfy`), `TwoPhase` (coordinator, crashes, recovery, over
  interleaved lock sections), `Outcomes` (verdicts and shards over runs), `Completion` and
  `Undisturbed` (that a call which nothing disturbs gets done, and how it ends),
  `RecoveryLimits` (why recovery is guarded), `Snapshots` (the clock), `Partition`.
- Transactions: `Mvcc` (versioned store, what collection may drop), `Occ` (sessions,
  validation, commit, watermarks), `ClientService` (the service object), `ClientView` (laws on
  the calls and answers of a run), `SecondaryIndex`.
- Storage: `Survivors` (version collection), `Merge` (k-way merge), `Split`, `Catalog`
  (files, plans, reservations), `SstManager` (the catalog object), `Lsm` (lookup and
  compaction), `Tree` (file contents over runs), `FlushRace` (a reader against a flush).
- Consensus: `Election`, `RaftNode` (the handlers of one node), `Membership`, `Replica`
  (log and membership of one node).
- Pages: `BufferPool` (contents and LRU-K), `FrameOwnership` (interleavings), `ChunkLayout`
  (remote objects).

## Conventions

- A user key is its rank, a real number; `Keys` proves that ranks order and separate byte
  strings as the program's byte-wise comparison does.
- Timestamps, ids and counters are unbounded naturals. None of the modelled code relies on
  wrapping; its saturating additions only matter at 2^64.
- A version is identified by key and commit timestamp, as in the program, where one log
  index is one commit.
- Files are their sorted entry lists. Entry sizes, shard routing, key constructors and
  record encodings are parameters.
- History that the program does not keep (votes ever granted, watermarks ever published,
  committed transactions, what an iterator has returned) is part of the specification states.

## Where the code falls short of a claim

Each of these is a lemma with the failing situation, next to the condition under which the
claim is proved.

- `prepare`, `commit` and `abort` of a shard release each lock before taking the next, so
  calls on the same key can overlap. A replay can then lose a lock, and a transaction can be
  prepared on a snapshot older than the newest commit of its key (`Overlap.OverlapLosesLock`).
  The shard stays consistent exactly when each prepare locks its keys while the log has no
  unresolved prepare and no unapplied commit of them and its validation still holds
  (`Sections.Clear`, `Overlap.LockIsSafeExactlyWhenClear`), as when calls on a shard do not
  overlap. `AppliedMeansDecided`, `DecidedNeverAborted` and `AllOrNothing` do not need this:
  they are proved for every interleaving. `Outcomes.ShardsStayConsistent` does.
- `recover_participant` looks neither at the `commit` call nor at the durable log. It keeps
  the invariant behind atomicity exactly when it leaves transactions alone whose call is in
  phase 1, and those whose decision only memory holds, as after a failed append
  (`TwoPhase.MayRecover`, `RecoveryLimits.RecoveryExact`). Without the one, a commit is decided
  over an abort (`EarlyRecoveryBreaks`); without the other, a transaction is applied on one
  shard and aborted on another (`FailedAppendRun`).
- A reopened coordinator starts its clock from 1 again, so the next transactions begin on
  snapshots older than what is committed, and are refused on the keys of those commits
  (`Snapshots.ReopenExact`, `ReopenRun`, `Shard.PrepareDecision`). Until then every snapshot is
  current (`Snapshots.SnapshotIsCurrent`).
- Two branches of one transaction on one shard can leave locks behind; exactly when is
  `Shard.SecondBranch`, and `SecondBranchLeavesLock` is a run. The partitioning function never
  produces them.
- `begin` loads the applied index and registers it later; `publish_watermark` reads the table
  of open snapshots and sets the watermark later. Either can lose an open snapshot, and
  exactly when is `Occ.RegisterExact` and `Occ.SetMarkExact` (`RegisterLateLoses`,
  `PublishLateLoses`).
- A record put that fails on a missing column leaves its earlier writes in the session; a
  session in which that was harmful must not be committed (`SecondaryIndex.PutAgreement`,
  `PartialPutBreaks`).
- `handle_install_snapshot` clears a follower's vote within its term. One leader per term
  needs that this is not the vote for the sender (`Election.SnapshotSpares`,
  `SnapshotsAllowTwoLeaders`).
- `handle_append_entries` returns on a gap before rebuilding the membership it has cut
  (`Replica.GapAfterCut`).
- `install_outputs` does not look at the ids of the outputs (`SstManager.Manager.InstallOutputs`).
- `new_page` puts a page into a second frame if its id was fetched before it was allocated
  (`BufferPool.NewOverFetched`).
- Migrating an old page object drops bytes behind its last whole page
  (`ChunkLayout.MigrationExact`).

## Model

| member | source | states |
|---|---|---|
| `Keys.RankOrder` | src/types.rs:60-71 | The rank used as a key orders byte strings exactly as the byte-wise comparison does, both ways |
| `Keys.RankInjective` | src/types.rs:60-71 | Different byte strings have different ranks, so nothing is lost by working with ranks |
| `Shard.ReachableShard` | src/dtxn.rs:233-434 | In every state reached by whole calls, with no other call between a call's lock sections, the lock table is exactly the keys of the prepared write-sets, commit timestamps of a key strictly increase along the log, and replaying the log rebuilds the same prepared and lock maps and the same answer to every snapshot read |
| `Shard.GetAtNewest` | src/dtxn.rs:425-434 | In every such state, replays included, a snapshot read returns the newest version committed at or below its timestamp, or nothing when there is none |
| `Shard.PreparedDisjoint` | src/dtxn.rs:320-368 | With an exact lock table, write-sets prepared by different transactions share no key |
| `Shard.PrepareDecision` | src/dtxn.rs:320-368 | In every run of whole calls a prepare is accepted exactly when no index of its read-set and none of its writes has a key that the shard's log commits above the snapshot, and no write has a key that another prepared transaction writes |
| `Shard.ReplayLookup` | src/dtxn.rs:233-268 | A store rebuilt from the log answers every lookup as a scan of the log itself |
| `Shard.RunKeepsInv` | src/dtxn.rs:233-434 | Whole prepare, commit and abort calls, replays and unrelated log entries, in any order, keep the shard invariant |
| `Shard.SecondBranch` | src/dtxn.rs:320-368 | A second branch of one transaction on one shard keeps the lock table exact if and only if its write-set covers the first one |
| `Shard.SecondBranchLeavesLock` | src/dtxn.rs:320-400 | A run with two such branches whose commit leaves a lock behind although nothing is prepared any more, in the live maps and after a replay |
| `Sections.ClearRunsStayExact` | src/dtxn.rs:233-419 | With the lock sections of any number of calls interleaved and every lock taken under the condition `Clear`: whenever no call is running the shard is as consistent as after whole calls, and a crash at any point, in the middle of any calls, recovers to such a state |
| `Sections.ClearRunsReadNewest` | src/dtxn.rs:425-434 | In such runs, whenever no call is running, a snapshot read returns the newest version committed at or below its timestamp |
| `Sections.ClearRunsValidateFresh` | src/dtxn.rs:282-331 | In such runs, at the moment a prepare validates, the key at every index of its read-set and of its writes has no commit above the snapshot in the log, save commits that a call in progress has logged and not applied yet |
| `Sections.RefusalHasCause` | src/dtxn.rs:282-331 | In every run, whatever the interleaving: if validation refuses, the log has a commit above the snapshot of the key at some index of the read-set or of the writes |
| `Sections.RefusedOverHeldKey` | src/dtxn.rs:333-350 | In clear runs a prepare that validated is refused only over a key, at some index of its writes, that another transaction has prepared, is preparing or is giving up |
| `Sections.SerialRunsAreClear` | src/dtxn.rs:320-419 | Runs in which no call starts before the last one has ended meet the condition at every lock |
| `Sections.RunKeepsSound` | src/dtxn.rs:233-419 | What every section keeps under the condition: live locks are those of prepared entries and of calls in progress, a key unlocked ahead of its log record stays free until then, and a key is at most one logged commit behind |
| `Sections.RunKeepsLinked` | src/dtxn.rs:233-419 | What every section keeps in every interleaving: prepared entries and calls in progress agree with the log, and whatever the log holds prepared is in the map or in the hands of a call |
| `Overlap.LockIsSafeExactlyWhenClear` | src/dtxn.rs:333-350 | A lock section taken under the condition keeps the shard consistent, and from every state in which the condition fails the calls in progress can be carried on to a lost lock, a prepared transaction older than the newest commit of its key, or a newest commit overwritten by an older one |
| `Overlap.OverlapLosesLock` | src/dtxn.rs:320-400 | The run in which a commit gives up its lock, another prepare of the key validates, locks and logs, and the commit then logs: all calls over, the replayed lock table is empty although that prepare stands, on a snapshot older than the newest commit |
| `Overlap.PrepareAlone` | src/dtxn.rs:320-368 | The sections of a prepare with nothing in between are the whole call |
| `Overlap.CommitAlone` | src/dtxn.rs:370-400 | The sections of a commit with nothing in between are the whole call |
| `Overlap.AbortAlone` | src/dtxn.rs:402-419 | The sections of an abort with nothing in between are the whole call |
| `Participant.LocalShard.Prepare` | src/dtxn.rs:320-368 | Reports a conflict exactly when some index of the read-set or of the writes was committed after the snapshot or some write is locked by another; else makes the write-set durable and locked, and reports a failure all the same when told to crash after that |
| `Participant.LocalShard.OccValidate` | src/dtxn.rs:282-312 | True exactly when the key at no index of the read-set and at no index of the writes was committed after the snapshot |
| `Participant.LocalShard.Apply` | src/dtxn.rs:270-280 | Adds one version per written key and notes the commit timestamps |
| `Participant.LocalShard.Commit` | src/dtxn.rs:370-400 | Applies the prepared write-set once at the given timestamp and releases its locks; an unknown transaction is an error |
| `Participant.LocalShard.Abort` | src/dtxn.rs:402-419 | Logs the abort and releases the locks, whether or not the transaction was prepared |
| `Participant.LocalShard.RecoverFromRaftLog` | src/dtxn.rs:233-268 | Rebuilds the prepared set and the locks from the log alone, and applies every logged commit again on top of the store and the last-commit index it finds |
| `Participant.LocalShard.GetAt` | src/dtxn.rs:425-434 | The reverse scan returns what the specification of snapshot reads returns |
| `TwoPhase.AppliedMeansDecided` | src/dtxn.rs:662-787 | In every run of coordinator calls, participant lock sections in any interleaving, crashes, guarded recoveries and reopenings, a write-set logged as committed on a shard is a branch of a transaction whose durable decision is Committed with that same timestamp |
| `TwoPhase.DecidedNeverAborted` | src/dtxn.rs:662-787 | In every such run no shard logs an abort of a transaction whose durable decision is Committed |
| `TwoPhase.AllOrNothing` | src/dtxn.rs:662-787 | In every such run, once no shard holds the transaction prepared or runs a call of it, every branch was applied exactly once at the decided timestamp if the durable decision is Committed, and no shard applied anything otherwise |
| `Outcomes.VerdictIsPermanent` | src/dtxn.rs:762-787 | From that moment on no shard ever holds the transaction again, a committed one stays applied on every branch exactly once, and one that is not committed is never applied anywhere |
| `Outcomes.NeverHeldAgain` | src/dtxn.rs:662-787 | Once a transaction is past its votes, a shard that has resolved it never holds it again |
| `Outcomes.ShardsStayConsistent` | src/dtxn.rs:662-787 | If every lock is taken under the condition `Clear`, every shard of every system state replays to exact locks and increasing commit timestamps, recovers from a crash at that point to a consistent shard, and is one between calls, although reopening restarts the clock |
| `Outcomes.AskedIsFresh` | src/dtxn.rs:682-694 | In every run with all locks taken under the condition, a branch is validated only if the key at every index of its reads and of its writes has no commit above the transaction's snapshot in the shard's log, save those of calls in progress |
| `Outcomes.UnaskedIsStale` | src/dtxn.rs:682-694 | In every run, whatever recoveries it starts, a branch that its shard does not let pass has a key, at some index of its reads or writes, that the shard's log commits above the transaction's snapshot |
| `Completion.AllVotesCommit` | src/dtxn.rs:718-751 | From every state with all votes in, the call has one way to go if nothing fails: it decides at the clock's value, makes the decision durable, runs the commit of branch after branch and returns. At each state on the way it has no other step. Then each branch's shard has exactly one more log record, the commit of that branch at that timestamp, the other shards are unchanged, and no shard holds the transaction |
| `Completion.FailedPrepareAborts` | src/dtxn.rs:698-714 | After every failed prepare the call has one way to go if nothing else fails: it aborts at each known shard of its branches and records the abort. Then no shard holds the transaction, and shards without a branch are unchanged |
| `Completion.GoesKeepsInv` | src/dtxn.rs:662-753 | The steps of such a call keep the protocol's invariant |
| `Undisturbed.VerdictExact` | src/dtxn.rs:662-753 | From every state in which a commit call starts, the undisturbed call ends Committed at the clock's value if and only if every branch's shard is known and admits it, Aborted otherwise, and no shard holds the transaction |
| `Undisturbed.CommitsIfAdmitted` | src/dtxn.rs:676-751 | Then each branch's log has gained exactly its prepare and its commit |
| `Undisturbed.AbortsIfNot` | src/dtxn.rs:698-714 | Otherwise each branch's log has gained its prepare, if it comes before the first branch not admitted, and an abort, and what the shards store is unchanged |
| `Snapshots.SnapshotIsCurrent` | src/dtxn.rs:647-655 | As long as the coordinator has not been reopened, a transaction that begins takes a snapshot above every commit in every shard's log and above every commit decided |
| `Snapshots.ReopenExact` | src/dtxn.rs:580-595 | The first transaction after a reopening reads at timestamp 1; its snapshot is current if and only if nothing was ever committed |
| `Snapshots.ReopenRun` | src/dtxn.rs:497-507 | A run in which a transaction begins, after a reopening, on a snapshot older than a logged commit |
| `TwoPhase.DecisionsStand` | src/dtxn.rs:580-613 | A durable Committed decision is never lost or changed in the rest of the run |
| `RecoveryLimits.RecoveryExact` | src/dtxn.rs:762-787 | Starting a recovery keeps the protocol's invariant if and only if the transaction's commit call is not in phase 1 and its decision is not one that only memory holds |
| `RecoveryLimits.UndurableRecoveryApplies` | src/dtxn.rs:624-634 | From every state in which only memory holds the decision, a recovery logs a commit without a durable decision |
| `RecoveryLimits.FailedAppendSplits` | src/dtxn.rs:725-732 | From every state after a failed append of the decision in which two shards hold the transaction: recovering one before and the other after a reopening applies it on one, aborts it on the other, and leaves it prepared on neither |
| `RecoveryLimits.FailedAppendRun` | src/dtxn.rs:624-634 | The whole run from the start: begin, two prepares, decision in memory, failed append, recovery, reopening, recovery |
| `RecoveryLimits.EarlyRecoveryAborts` | src/dtxn.rs:762-787 | A recovery during phase 1 logs an abort while the commit call goes on unchanged |
| `RecoveryLimits.EarlyRecoveryBreaks` | src/dtxn.rs:714-738 | A commit call that has all its votes decides Committed durably over such an abort |
| `RecoveryLimits.RecoverAlone` | src/dtxn.rs:762-787 | A recovery with nothing in between resolves the orphan as the decision in memory says, and the shard then holds it no longer |
| `RecoveryLimits.EarlyRecoveryReachable` | src/dtxn.rs:662-787 | A run without any recovery that reaches a state with all votes in and the call still running |
| `TwoPhase.RunKeeps` | src/dtxn.rs:662-800 | Every step and every interleaved lock section keeps the per-transaction invariant that the results above rest on |
| `Partition.PartitionBranches` | src/dtxn.rs:815-904 | One branch per shard that a write or read is routed to, in ascending shard order; each holds exactly the writes and reads at the positions routed there, in their order; the default branch when there are none |
| `Mvcc.CollectKeepsReads` | src/epoch.rs:73-106 | A collection that drops only versions with a newer one below the watermark changes no read at watermark - 1 or later |
| `Mvcc.CollectBoundIsExact` | src/epoch.rs:73-106 | The bound is exact: it holds of a snapshot for all stores and legal collections if and only if watermark <= read timestamp + 1 |
| `Mvcc.SeenNewest` | src/engine.rs:602-656 | The seen timestamp is the newest version at or below the read timestamp, 0 when there is none |
| `Occ.RunsAreSerializable` | src/client_service.rs:405-465 | Every run of interleaved sessions, with begins and publishing calls taken apart and in time, and collectors using any watermark published so far, is serializable in commit order: replaying committed transactions one by one shows each every value it recorded and ends in the same store |
| `Occ.AnswersAreSerial` | src/client_service.rs:127-144 | Every answer an open session gets, committed later or not, is its own write or the serial state of its snapshot |
| `ClientView.GetsAreSerial` | src/client_service.rs:338-360 | If a transaction enters the history, as entry m, every get of a key it had not written was answered with the value that key has after the first m entries run one by one; stated on the calls and answers of the run |
| `ClientView.SessionIsItsCalls` | src/client_service.rs:127-168 | In every run a session's read-set is exactly the keys it got or wrote, and its write-set the last write of each |
| `ClientView.CommitByCalls` | src/client_service.rs:405-465 | A commit with writes answers Conflict and changes nothing exactly when a key the session got or wrote was written by a transaction that committed after the snapshot; otherwise it enters the history with the last write of each key it wrote |
| `ClientView.StaleGetConflicts` | src/client_service.rs:405-465 | A get of a key that another session then commits makes a later commit with writes answer Conflict |
| `ClientView.OwnWriteAnswered` | src/client_service.rs:127-144 | A session reads its own last write |
| `ClientView.AnswerFromSnapshot` | src/client_service.rs:127-144 | Keys it has not written are answered from the serial state of its snapshot |
| `ClientView.SnapshotIsCurrent` | src/client_service.rs:320-336 | A transaction sees everything that was committed when it began |
| `ClientView.LateSnapshotIsCurrent` | src/engine.rs:666-676 | A begin that other calls came in between of sees everything that was committed when it loaded the applied index |
| `Occ.SnapshotNeverMoves` | src/engine.rs:2432-2447 | An open transaction reads the same value of every key from its first step to its last, whatever commits and collections happen in between |
| `Occ.PublishKeepsInv` | src/engine.rs:2432-2447 | A publishing call with nothing in between never passes an open snapshot nor the one the next begin takes, although the watermark is not monotone |
| `Occ.SetMarkExact` | src/engine.rs:2432-2447 | A watermark set late keeps the invariant if and only if every open snapshot is at least the watermark - 1, which for a table that was read empty means at least the applied index loaded |
| `Occ.PublishLateLoses` | src/engine.rs:2432-2447 | A run in which the table is read empty, a session begins, another commits, and the watermark then set lets a collector remove what the open session reads |
| `Occ.PublishInParts` | src/engine.rs:2432-2447 | Reading the table, loading the applied index and setting the watermark back to back is the whole publishing call |
| `Occ.ValidatesExactly` | src/engine.rs:762-784 | Validation refuses exactly the sessions whose read or written keys were overwritten after their snapshot |
| `Occ.CommitDecision` | src/client_service.rs:405-465 | A commit with writes enters the history exactly when nobody overwrote its footprint; otherwise nothing changes in the store |
| `Occ.InvariantsHoldInEverySnapshot` | src/client_service.rs:405-465 | A predicate each transaction keeps when run alone (a bank total, say) holds of the committed store and of every open snapshot |
| `Occ.RunKeepsInv` | src/client_service.rs:320-476 | Begin, get, put, delete, commit, abort, other log entries, collections and the separate parts of begins and publishing calls keep the invariant behind the results above |
| `Occ.RegisterExact` | src/engine.rs:666-676 | A begin that registers after loading the applied index keeps the invariant if and only if no watermark beyond loaded + 1 was published in between |
| `Occ.BeginInParts` | src/engine.rs:666-676 | Loading the applied index and registering it back to back is the whole registration of a begin |
| `Occ.RegisterLateLoses` | src/engine.rs:666-676 | A run in which the snapshot is registered too late and has lost its value |
| `ClientService.Service.Oldest` | src/epoch.rs:49-51 | The smallest registered read timestamp, None exactly when nobody is registered |
| `ClientService.Service.PublishWatermark` | src/engine.rs:2432-2447 | Publishes the oldest open snapshot, or one past the applied index when there is none |
| `ClientService.Service.BeginTxn` | src/client_service.rs:320-336 | A begin step of the state machine, with a fresh id and the applied index as snapshot |
| `ClientService.Service.TxnGet` | src/client_service.rs:338-360 | Own writes first, else the snapshot; a get step of the state machine, which puts the key into the read-set; unknown ids are refused |
| `ClientService.Service.TxnWrite` | src/client_service.rs:362-374 | Records the key as read on first contact and buffers the write; unknown ids are refused |
| `ClientService.Service.Validate` | src/engine.rs:769-784 | The loop over read and written keys decides validation exactly |
| `ClientService.Service.NoteCommittedKeys` | src/engine.rs:944-954 | Every written key gets the commit timestamp and no other key changes |
| `ClientService.Service.TxnCommit` | src/client_service.rs:405-465 | A commit or end step of the state machine, and which of the five answers is given when |
| `ClientService.Service.TxnAbort` | src/client_service.rs:467-476 | Ends the session if it is open, else does nothing |
| `SecondaryIndex.IndexesAgree` | src/client_service.rs:170-256 | With injective keys, in every run of sessions built from record puts and deletes, failed puts included, in which no session with a harmfully failed put is committed, each non-vector index agrees exactly with the live rows, in the committed store, in every open snapshot and in the own view of every other session |
| `SecondaryIndex.PutAgreement` | src/client_service.rs:170-225 | Writing a record keeps the indexes right if and only if no index behind the first one it lacks a column for has its column, which is when a failed put is harmless |
| `SecondaryIndex.DeleteAgreement` | src/client_service.rs:227-256 | Deleting a record keeps the non-vector indexes right |
| `SecondaryIndex.PartialPutBreaks` | src/client_service.rs:204-218 | For every record that lacks an indexed column and has that of a later index, the run begin, put, commit ends in a committed store that disagrees with its rows |
| `SecondaryIndex.PutRecordShape` | src/client_service.rs:170-225 | On any state that shows the session its recorded reads, a put replaces the row and exactly its index entries |
| `SecondaryIndex.DeleteRecordShape` | src/client_service.rs:227-256 | On any such state, a delete removes the row and exactly its non-vector index entries |
| `SecondaryIndex.OutcomesExactly` | src/client_service.rs:170-256 | When a record put or delete succeeds, and which error it ends with otherwise |
| `SecondaryIndex.SessionPutRecord` | src/client_service.rs:170-225 | The loops over the indexes perform the specified put, error cases and partial writes included |
| `SecondaryIndex.SessionDeleteRecord` | src/client_service.rs:227-256 | The loop over the indexes performs the specified delete, error cases included |
| `Survivors.SurvivorsForKey` | src/epoch.rs:84-96 | Keeps exactly the versions at or above the watermark and the newest below it, newest first |
| `Survivors.DeadVersionsForKey` | src/epoch.rs:99-106 | Exactly the versions with a newer one below the watermark |
| `Survivors.DeadIsShadowed` | src/epoch.rs:73-106 | What a collection drops is exactly what has a newer version below the watermark |
| `Survivors.SurvivingReadsSame` | src/memtable.rs:209-258 | After a collection every snapshot at watermark - 1 or later reads the same |
| `Survivors.VersionMap.CollectKey` | src/memtable.rs:225-246 | Collecting one key keeps its survivors and touches no other key |
| `Survivors.VersionMap.CollectBelow` | src/btree_storage.rs:147-176 | Memtable collection and B-Tree vacuum leave exactly the survivors and count what they removed |
| `Merge.MergeAll` | src/compaction.rs:746-806 | Draining the merge of any number of key-sorted runs yields, key ascending and timestamp descending without duplicates, exactly the survivors of the union of versions |
| `Merge.KWayMerge.NextEntry` | src/compaction.rs:769-806 | Returns the next entry of that merge, and nothing only when what it has returned is the whole merge |
| `Merge.TakeGroup` | src/compaction.rs:769-786 | Pops from the heap all versions of the smallest key of all runs and nothing else |
| `Merge.TopIsLeast` | src/compaction.rs:668-676 | With every run's head in the heap, the smallest key of the heap is the smallest of all runs |
| `Merge.Pop` | src/compaction.rs:667-677 | The top of the heap is first in the order key ascending, timestamp descending, source descending |
| `Merge.ChainMerges` | src/compaction.rs:746-806 | Taking the smallest key out again and again until nothing is left emits the merge of the union |
| `Split.SplitByMaxBytes` | src/compaction.rs:53-78 | The slices concatenate to the input, cuts fall only between two keys and only where the next entry did not fit, and a slice goes on to another key only if that key's first entry fits |
| `Split.OverOnlyByOneKey` | src/compaction.rs:53-78 | A slice is over budget only by entries of a single key or by later versions of its last key |
| `Split.RangesAscend` | src/compaction.rs:53-78 | Slices of a sorted run have strictly ascending, disjoint key ranges |
| `Catalog.CatalogStaysSound` | src/compaction.rs:472-626 | Under every interleaving of level 0 adds, picks, aborts and installs: ids unique, no key in the ranges of two files of a level from 1 up, in-flight plans hold disjoint sets of files still in the catalog, and exactly those files are reserved |
| `Catalog.InstallNeverRejects` | src/compaction.rs:558-608 | The checks of an install never reject a plan in flight |
| `Catalog.InstallsGoThrough` | src/compaction.rs:558-626 | An install reached in any run replaces the inputs by the outputs |
| `Catalog.PickApart` | src/compaction.rs:472-549 | The key span of a new plan stays clear of the span of every plan in flight from the same level |
| `Catalog.PickPlanOk` | src/compaction.rs:472-549 | No file of the output level outside the plan reaches into the span of its inputs |
| `Catalog.RunKeepsInv` | src/compaction.rs:280-626 | Every step keeps the catalog invariant |
| `SstManager.Close` | src/compaction.rs:491-518 | The overlap closure of a candidate terminates, leaves no gap, holds nothing reserved and misses no overlapping file; it gives up only on meeting a reserved overlapping file |
| `SstManager.Manager.AddSst` | src/compaction.rs:280-316 | Adds the file unless its level is out of range, its id is taken, or it overlaps a file of its level above 0 |
| `SstManager.Manager.Pick` | src/compaction.rs:472-549 | A pick step of the state machine, or nothing, and then every unreserved candidate is blocked by a reserved file in its range |
| `SstManager.Manager.Abort` | src/compaction.rs:551-556 | Gives exactly the plan's reservations back |
| `SstManager.Manager.InstallOutputs` | src/compaction.rs:558-626 | Accepts under exactly the specified conditions and then replaces inputs by outputs, otherwise changes nothing; the ids of the catalog stay distinct if and only if those of the outputs are |
| `Lsm.GetAt` | src/lsm_storage.rs:256-297 | The newest version at or below the read timestamp over active memtable, immutable memtable and all levels, range-skipped files included |
| `Lsm.CompactionKeepsReads` | src/compaction.rs:1069-1135 | Replacing inputs by their collected merge changes no lookup at watermark - 1 or later, whatever versions of the key live elsewhere |
| `Lsm.PlanKeepsLookups` | src/compaction.rs:1069-1135 | The same for a tree of levels in which the inputs of a plan were replaced by the split output files |
| `Tree.CompactionNeverShows` | src/compaction.rs:472-626 | In every run of flushes, picks, aborts and installs, a lookup at a snapshot that the merges so far have spared finds exactly what it would find if every version ever flushed were still there |
| `Tree.LookupsAreExact` | src/lsm_storage.rs:256-297 | The same for the lookup over the level lists of any reachable tree together with the memtables |
| `Tree.InstallKeepsLookups` | src/compaction.rs:558-626 | An install reached in any run changes no lookup at watermark - 1 or later; that it swaps exactly the inputs' entries for the outputs' follows from the catalog |
| `Tree.RunKeepsInv` | src/compaction.rs:280-626 | Every step keeps, for each snapshot spared so far, a version as new as any ever flushed |
| `Lsm.CompactionIsCollection` | src/compaction.rs:788-806 | Seen on the whole store a compaction drops only versions with a newer one below the watermark and changes no value, so it is one of the collections of the transaction model |
| `Lsm.ExecutePlan` | src/compaction.rs:1069-1135 | Merge, split and write produce files whose contents are the merge, whose bounds enclose their entries, and which satisfy what an install expects |
| `Lsm.NewestIsKept` | src/compaction.rs:735-740 | What a snapshot at watermark - 1 or later sees of the inputs survives the merge |
| `FlushRace.ReaderMissesNothing` | src/lsm_storage.rs:151-210 | Wherever drain, freeze, SST add, clear, slot reset and compaction installs fall between its probes, a reader finds a version of its key that it may see, that was in the store since it started, and that is as new as any visible version present when it started |
| `FlushRace.ReaderAnswersExactly` | src/lsm_storage.rs:256-297 | If no version it could see is put meanwhile, it finds exactly the newest visible version of everything the store held when it started, and nothing if there was none |
| `FlushRace.StepKeepsAhead` | src/lsm_storage.rs:151-210 | No step of the flusher or of a compaction takes a needed version out of the places still to be probed |
| `FlushRace.ProbeKeeps` | src/lsm_storage.rs:256-297 | A probe finds the needed version or leaves it ahead |
| `BufferPool.Pool.FetchPage` | src/bpm.rs:207-296 | Returns a pinned frame holding the page's contents, zeros if it was never written, logs one access, and changes the contents of no page; fails exactly on the invalid id, or when every frame is pinned |
| `BufferPool.Pool.NewPage` | src/bpm.rs:299-319 | A page of zeros under the next id; no other page changes; the frame taken was empty or, by the access times of the pages, one whose K-th last access is not newer than that of any other unpinned page |
| `BufferPool.Pool.WritePage` | src/bpm.rs:53-62 | Changes exactly that page |
| `BufferPool.Pool.Unpin` | src/bpm.rs:322-343 | Drops one pin, refuses an absent or unpinned page, changes no contents |
| `BufferPool.Pool.FlushPage` | src/bpm.rs:390-407 | Disk then holds the page; no contents change |
| `BufferPool.Pool.FlushAll` | src/bpm.rs:360-387 | Disk then holds every resident page, no frame is dirty, no contents change |
| `BufferPool.Pool.AllocateFrame` | src/bpm.rs:434-451 | Free list first with stale entries skipped, then eviction of a page whose K-th last access time is not newer than any other's; pinned frames are never taken and no page loses its contents |
| `BufferPool.Pool.EvictVictim` | src/bpm.rs:460-510 | The victim is unpinned, written back if dirty, and by the access times of the pages no unpinned page has a K-th last access older than the victim's, pages with fewer than K accesses being oldest |
| `BufferPool.Pool.PickVictim` | src/bpm.rs:466-489 | An empty unpinned frame at once, else one that by the access times has no K-th last access newer than another unpinned page's; None exactly when all are pinned |
| `BufferPool.Pool.Flood` | src/bpm.rs:453-510 | For K of at least 2, a flood of new-then-dropped pages never evicts a page accessed K times since it was loaded, given one empty frame or one unpinned page accessed fewer times |
| `BufferPool.HistoryIsLastK` | src/bpm.rs:426-432 | Recording accesses one by one keeps the last K of the page's access log, so the head of a full history is the K-th most recent access |
| `BufferPool.SeenIsWorst` | src/bpm.rs:466-489 | The frame the scan prefers by backward distances over recorded histories is one with no newer K-th last access time than any other, read off the full access logs, and the other way round |
| `BufferPool.NewOverFetched` | src/bpm.rs:299-319 | A page that was fetched before its id was allocated, and is resident when the id is handed out, ends up in two frames |
| `BufferPool.EvictKeepsContent` | src/bpm.rs:491-505 | Writing back, unmapping and claiming a frame changes the contents of no page and keeps clean frames equal to disk |
| `BufferPool.LoadKeepsContent` | src/bpm.rs:247-289 | Loading a page into a claimed frame changes the contents of no page |
| `BufferPool.FlushAllKeepsContent` | src/bpm.rs:360-387 | Writing all dirty frames and clearing the flags changes the contents of no page |
| `FrameOwnership.OneOwner` | src/bpm.rs:212-319 | Under every interleaving of hits, misses, lost publish races, allocations and evictions no frame has two owners, and every page-table entry leads to a frame that holds its page and is nobody's private one |
| `FrameOwnership.PinnedNeverRecycled` | src/bpm.rs:322-343 | A guard's frame holds its page with one pin per guard as long as the guard is out, and giving it back is never refused |
| `FrameOwnership.LocalKeeps` | src/bpm.rs:434-510 | A step of one thread around one frame leaves every other thread's and frame's ownership intact, stale or duplicate free-list entries notwithstanding |
| `FrameOwnership.FetchAlone` | src/bpm.rs:207-296 | A fetch with nothing in between ends with one more guard, for the page it asked for, and fails exactly when the page is not resident and every frame is pinned |
| `FrameOwnership.NewPageAlone` | src/bpm.rs:299-319 | The same of a new page, which is then resident under the next id |
| `FrameOwnership.RunKeepsInv` | src/bpm.rs:207-510 | Every lock-protected step keeps the ownership invariant |
| `Election.OneLeaderPerTerm` | src/consensus.rs:687-777 | With a fixed voter set and messages delayed, lost, duplicated or reordered, two nodes that are leader of the same term at any two moments are the same node, provided no snapshot clears the vote its sender was elected with |
| `Election.ForgetKeeps` | src/consensus.rs:437-446 | Clearing a vote inside a term is harmless once the term has a leader and the vote was for somebody else |
| `Election.SameWinner` | src/consensus.rs:715-731 | Enough votes for a node in a term that has a leader means that node is the leader |
| `Election.NobodyWonYet` | src/consensus.rs:734-769 | A candidate with enough votes is the first of its term |
| `Election.RunKeepsInv` | src/consensus.rs:389-446 | Every handler and message step keeps the voting invariant |
| `Election.QuorumElects` | src/consensus.rs:687-750 | From any state, a voter that stands is made leader of its new term by any voters not ahead of it that make a quorum with it |
| `Election.VoteExactly` | src/consensus.rs:389-425 | In every run, while the term has no leader, a node gives its vote exactly when the request is not stale, the candidate's log is up to date, and it has given none to another candidate of that term |
| `Election.SnapshotsAllowTwoLeaders` | src/consensus.rs:517-532 | For any voters, snapshots from the leader that clear enough votes for a standing candidate of the same term let that candidate win the term as well |
| `Election.OneClearedVoteIsEnough` | src/consensus.rs:517-532 | With an odd number of voters and a leader elected by the least quorum, one cleared vote is enough for that |
| `Election.TwoLeadersReachable` | src/consensus.rs:687-731 | A run without snapshots among three voters that reaches the situation |
| `RaftNode.SoftState.StartElection` | src/consensus.rs:687-712 | A voter enters the next term as candidate with its own vote, an election step of the cluster; others change nothing |
| `RaftNode.SoftState.HandleRequestVote` | src/consensus.rs:389-425 | Grants exactly for an up-to-date log in a newer term, or in its own term unless it has voted for another; a newer term makes a follower; else nothing changes; a vote step of any cluster this node is in |
| `RaftNode.SoftState.HandleLeaderTerm` | src/consensus.rs:437-446 | Stale terms are refused; a newer term, or the same term for a non-follower, makes a follower without a vote; an append step of the cluster |
| `RaftNode.SoftState.HandleSnapshotTerm` | src/consensus.rs:517-532 | A term that is not stale makes a follower without a vote, whatever it was; a snapshot step of the cluster |
| `RaftNode.SoftState.RecordVoteGranted` | src/consensus.rs:715-731 | Counts the vote of a member, or of the node itself, for a live candidacy and reports a majority, the own vote included |
| `RaftNode.SoftState.BecomeLeader` | src/consensus.rs:734-750 | Only a candidate still in that term is promoted; a promotion step of the cluster when its round was won |
| `RaftNode.SoftState.MaybeStepDown` | src/consensus.rs:772-777 | A higher term makes a follower without a vote; a step of the cluster |
| `Membership.RebuildIsExact` | src/consensus.rs:1065-1091 | Rebuilding from the base of the applied prefix by replaying everything after the snapshot gives the membership of the whole log, although some changes are applied twice; what that membership is, entry by entry, is VotersExactly and AddressesExactly |
| `Membership.ReplayTwice` | src/consensus.rs:1065-1104 | Applying the same configuration entries a second time changes nothing, addresses included |
| `Membership.VotersExactly` | src/consensus.rs:1094-1104 | A node is a voter after a log exactly when the last entry naming it adds it, or none names it and it was a voter before |
| `Membership.AddressesExactly` | src/consensus.rs:1094-1104 | A node's address after a log is that of the last entry adding it, or the one it had before |
| `Membership.QuorumIsMajority` | src/membership.rs:63-100 | Enough votes are those that outnumber all others |
| `Membership.MajoritiesOverlap` | src/membership.rs:63-100 | Majorities before and after one configuration change share a voter |
| `Replica.Node.HandleAppend` | src/consensus.rs:448-500 | For any request: what becomes of the log, when it is refused, and that the memberships stay right unless the log was cut and a gap met after that, or cut below an applied entry; a leader's request leaves everything up to the first entry the log did not have plus the rest of the request |
| `Replica.Node.Append` | src/consensus.rs:323-353 | Appended configuration changes take effect at once: each node's live membership and address are those of the last entry of the batch naming it, or as before |
| `Replica.Node.Rebuild` | src/consensus.rs:1065-1091 | Live membership and addresses are then those of the last entry of the log naming each node, or of the start |
| `Replica.Node.ApplyThrough` | src/consensus.rs:874-916 | The base follows the applied entries: membership and address are those of the last applied entry naming each node |
| `Replica.Node.MembersExact` | src/consensus.rs:1065-1104 | Live membership is read off the whole log, the base off its applied prefix, by the last entry naming each node |
| `Replica.Node.Compact` | src/raft_log.rs:268-321 | Discarding the applied prefix changes neither membership |
| `Replica.MergeAt` | src/consensus.rs:464-491 | What a request makes of the log, given the first entry the log does not have |
| `Replica.Scan` | src/consensus.rs:464-491 | The loop over any request, consecutive or not, keeps, cuts, applies and refuses as specified entry by entry |
| `Replica.ScanIsMerge` | src/consensus.rs:464-491 | On the consecutive entries a leader sends, the loop is never refused, and cut log plus new entries are the merge of log and request |
| `Replica.GapAfterCut` | src/consensus.rs:472-490 | A request that contradicts an entry and then leaves a gap cuts the log and is refused before anything is rebuilt, so that the live membership still counts what was cut |
| `ChunkLayout.PlaceIsUnique` | src/disk.rs:377-387 | Pages and (chunk, slot) pairs correspond one to one |
| `ChunkLayout.WriteOneExact` | src/disk.rs:397-422 | Writing a page changes exactly its bytes and no byte of any sibling page |
| `ChunkLayout.OneByOneLastWins` | src/disk.rs:331-360 | After any list of writes a page holds its last write, or what it held before |
| `ChunkLayout.CoalescedIsOneByOne` | src/disk.rs:331-422 | Grouping by chunk and uploading each chunk once leaves the same objects as writing page by page in order |
| `ChunkLayout.Remote.WriteCoalesced` | src/disk.rs:331-360 | Fails exactly if some write has the invalid id or a table page of the wrong size, with the error of the first such write and the objects untouched; else every table page holds its last write, no other byte changes, and each distinct chunk is written once |
| `ChunkLayout.Remote.UploadChunk` | src/disk.rs:397-422 | Overlays the pages in order on the chunk's object with a single write |
| `ChunkLayout.Remote.MigrateV1` | src/disk.rs:493-525 | Cuts the old object into chunks unless chunks exist or there is nothing to migrate |
| `ChunkLayout.MigrationKeepsPages` | src/disk.rs:493-525 | Every whole page of the old object keeps every byte; what follows the last whole page reads as zeros |
| `ChunkLayout.MigrationExact` | src/disk.rs:493-525 | Migration preserves every page if and only if only zeros follow the last whole page, as when the length is a multiple of the page size |

## Left out

- Raft log matching, leader completeness and state-machine safety: followers report their
  last index, not the last entry checked against the leader, as the match index.
- Restarts in the election model: term and vote start from zero when a node opens. In the
  membership model a reopened node takes its live membership as base.
- InstallSnapshot in the membership model: it replaces log, base and live membership at once.
- Cross-shard snapshot reads: phase 2 applies branches one after the other.
- Transaction ids reused after the coordinator reopens: `TwoPhase` takes ids as fresh.
- A replay of a shard's log while calls on it are running: a crash ends them, and a
  coordinator reopens when none is running.
- The window between applying a commit and mirroring it into B-Tree tables, in which a session
  can begin and read the old B-Tree value: a commit in `Occ` is one step up to its publishing.
- Raw put and delete mixed with sessions, and engine-level commits mixed with service
  commits: they hold different locks.
- A proposal that reports an error and is applied later: a failed commit is taken as not
  applied.
- Serializable (SSI) isolation of the embedded engine, admission control, the write-ahead
  log and metrics.
- Vector indexes: `session_delete_record` keeps their entries, so only non-vector indexes
  are claimed to agree. Statistics edits are not modelled.
- File retirement while a reader is inside one level, a second concurrent flush, and the
  engine's own flush window: a level is probed in one step and one flusher runs.
- The order of files within a level, which lookups do not depend on; adding files above
  level 0 while plans are in flight; clearing or replacing the whole catalog.
- Errors of disk and object store, such as a failed write-back during an eviction or a
  chunk read error taken for an empty chunk.
- Page contents under interleavings: `BufferPool` has one caller at a time and
  `FrameOwnership` has no contents; between reading a page and publishing it, and between the
  two halves of `flush_all`, another thread can write that page.
- File-cache pages in the buffer pool: read-only, never written back.
- The local page file behind the remote objects; memtable size accounting; prefix-limited
  memtable collection.
- Bloom filters, block formats, WAL bytes, catalogs, SQL, HNSW search and networking.
- BufferPool.Pool.NewPage: takes a next id that is neither resident nor on disk;
  `NewOverFetched` shows what happens to the page table otherwise.
- Shard.ReachableShard: whole calls only; `Sections.ClearRunsStayExact` has the interleavings.
- Shard.GetAtNewest: whole calls only; `Sections.ClearRunsReadNewest` has the interleavings.
- Shard.RunKeepsInv: whole calls only; `Sections.RunKeepsSound` has the interleavings.
- ClientService.Service.TxnCommit: whether the log took the batch is a parameter.
- Split.SplitByMaxBytes: byte counts do not saturate at 2^64.
