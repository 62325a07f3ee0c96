# Syncio: a verified model of its engines and protocols

Syncio is an embedded and distributed document database. This project models, in Dafny 4.11, the parts of it whose
correctness spans many functions and many steps, and proves what those parts promise:

- the optimistic commit engine of `src/storage-core.js`, with write-ahead log, checkpoint, backup and replay: transaction
  bodies interleave freely with a committer that applies its batches one operation at a time, and a crash may come at any
  await (`Transactions`, `StorageCore`, `CommitLog`, `StorageRecovery`, `StorageSafety`, `StorageRuns`,
  `StorageTheorems`, `StorageDatabase`, `TransactionCalls`, `CommitFabric`, `EventLog`);
- the segmented document store of `src/tiered-store.js` with its bucketed, evicting index (`BucketCache`, `BucketIndex`,
  `TieredStore`, `DocumentStore`, `StoreRuns`, `StoreRefinement`);
- two-phase commit with journals, recovery and guarded writes, `src/distributed.js` (`Participant`, `Distributed`,
  `Reexecution`, `Outcomes`, `Atomicity`, `Orphans`, `Coordinator`);
- the first-generation engine of `src/index.js` (`FirstGeneration`, `FirstGenerationRuns`, `FirstGenerationTheorems`,
  `SyncioDatabase`) and the change streams of both engines (`Streams`, `QueuedStreams`);
- the derived views, each against recomputation: secondary indexes (`CanonicalKeys`, `Documents`,
  `QueryMeaning`, `SecondaryIndex`, `IndexMaintenance`, `IndexRuns`), sync views (`SyncView`) and reactive queries (`Reactive`, `ReactiveGraph`,
  `ReactiveTheorems`);
- the smaller algorithms: log file format (`Wal`, `CanonicalEnds`), attested commit chain (`CommitChain`),
  consistent-hash ring (`HashRing`), budget tree (`Scheduler`), token bucket (`RateLimiter`, `RateLimiterRuns`).

Protocols are state machines: a datatype of steps, `Enabled`, `Next` and `Run`, an invariant kept by every step, and
theorems about all states of all runs. A step ends where the code awaits a durable write, so every crash point lies
between two steps; the store operations of one batch are separate steps, so readers meet half-applied batches.
`history` and `acked` are history variables of those machines. Code that updates objects in place also appears as
classes with loops (`StorageDatabase`, `TieredStore`, `DocumentStore`, `Coordinator`, `IndexMaintenance`,
`ReactiveGraph`, `SyncioDatabase`, `Streams`, `Wal`, `CommitChain`, `HashRing`, `Scheduler`, `RateLimiter`), whose
methods are proved to do what the specification functions or machine steps say. The layers meet in proofs: a store
operation is one cell update of the commit engine, the engine's log is a stream its watchers can number, indexes, sync
views and reactive queries are stated over every history of the engine.

`dafny verify dfyconfig.toml` checks the whole project.

## Where the code stops short

For each of these there is a lemma at a concrete run or value, or at every input of the failing kind, named first, and
then one that says for all inputs when the code does keep its promise.

- `open` ignores a torn last log line but does not cut it. When nothing is replayed the file is not rewritten either, the
  next append is glued to the torn text, and the opening after that reports corruption; `docs/ARCHITECTURE.md` (line 65)
  says a truncated final record is treated as an interrupted append and ignored. The model follows the code:
  `StorageTheorems.TornTailLosesCommit`; `StorageTheorems.SpoiledIffTornAppend`, `Wal.AppendAfterCutIff`. The
  first-generation engine does the same: `FirstGenerationTheorems.TornTailLosesWrite`;
  `FirstGenerationTheorems.SpoiledIffTornWrite`.
- Reading a key again replaces the version recorded for it, so a body may validate although it saw two states:
  `StorageTheorems.RereadIsNotSerial`; `Transactions.SerialIffRepeatable`.
- A batch over more buckets than the index cache holds can lose entries, and lookups meanwhile can miss them:
  `BucketIndex.EvictedDirtyBucketLosesEntry`; `BucketIndex.EntryPersistedIff` for the files,
  `BucketIndex.BatchReadsRightIff` for the lookups.
- `prepare` returns an aborted entry as success, so executing a transaction again after its abort began can split it:
  `Atomicity.ReexecutionBreaksAtomicity`; `Reexecution.ReexecutionSplitsIff`. Atomicity is proved of all runs without such
  a call. The digest by which a repeated submission is recognised sorts the keys of the plan, so the call may list the
  participants in another order and then goes by its own; the condition is the same for all orders.
- A participant that prepared just before the coordinator stopped stays prepared after `recover`, and a second
  submission in another order can leave a second one so: `Orphans.OrphanStays`, `Orphans.TwoOrphans`. While no transaction
  is executed again once its abort has begun, these are exactly the participants that were never noted,
  `Orphans.OrphanIff`; there is at most one for each call stopped at that point, `Orphans.OrphanPerInterruption`, and at
  most one in all when every submission lists the participants in the same order, `Orphans.OneOrphan`.
- A transaction given null for its origin or its partition is logged with null, and replay compares with a default
  instead, so the engine refuses its own log: `StorageTheorems.NullOriginLosesCommit`;
  `StorageRecovery.BuiltEntryVerifies`, `StorageTheorems.Recovery`.
- Executing an aborted transaction again can leave more participants reserved, and when the first one to commit has
  aborted the transaction stays undecided for ever and `recover` gets no further than to it: `Outcomes.TwoReserved`;
  `Outcomes.ReservedAfterRefusal`, `Outcomes.ReservedWhenBlocked`, `Outcomes.RecoverReaches`.
- The first-generation engine logs the incoming replicated record but stores the resolved one, and logs changes of an
  unknown type that replay refuses; and it accepts negative zero, which JSON text does not keep:
  `FirstGenerationTheorems.ResolutionLost`, `FirstGenerationTheorems.UnknownTypeUnreplayable`,
  `FirstGenerationTheorems.NegativeZeroLost`; `FirstGenerationTheorems.WriteRecoveredIff`.
- A first-generation watcher that opens more than 10000 matching events behind misses some:
  `QueuedStreams.LongReplayMissesEvents`; `QueuedStreams.ExactlyOnceIff`.
- Indexes key on the first value of a path while matching looks at all of them: `IndexRuns.TaggedRecordMissed`;
  `SecondaryIndex.PlanCompleteIff`.
- An index update reads a commit's events back from the retained log, which a large commit may have outgrown:
  `IndexRuns.LargeCommitLosesRecord`; `IndexRuns.CommitIndexedIff`.
- Fields that occur only inside arrays of `$and`, `$or` or `$nor` branches are not watched:
  `ReactiveTheorems.UnwatchedBranch`; `Reactive.CoveredIff`.
- After a commit with too many matching rows, or one the query is refused on, a reactive query keeps its old rows and
  later commits are applied to those: `ReactiveTheorems.RowLimitLosesInsert`; `ReactiveTheorems.DeliveredIdsIff`.
- Each subscription applies every commit to the whole graph and passes on its own query only, so all but the first are
  told nothing of a change to a query that is kept by applying mutations, and of a query that is evaluated only when the
  evaluation has changed meanwhile; and when the task of one query throws, nothing is told of any:
  `ReactiveGraph.LaterToldIff`, `ReactiveGraph.ToldAgainIff`; `ReactiveGraph.ReactiveQueryGraph.ApplyCommit`.
- A rate-limit key whose bucket was evicted starts full again: `RateLimiterRuns.EvictedKeySpendsTwice`;
  `RateLimiterRuns.TrackedIff`.
- `append` writes an entry that does not follow the last one, and the log is unreadable from then on; both engines append
  in sequence: `Wal.GapUnreadable`; `Wal.WriteAheadLog.Append`.

## Model

| member | source | states |
|---|---|---|
| StorageTheorems.Serializable | src/storage-core.js:64-88 | Serializability under torn applies, for every interleaving: the state after the i-th commit holds, under every key, what the body of that commit sees over the state before it: its last put, nothing where it last removed, else what was there; the events announce exactly these changes in the order of the first writes, with true prior records; a body that scans each collection at most once was told, at every call, what it would be told alone on that state if and only if its repeated reads repeated, and then it would also have written the same alone |
| Transactions.SerialIffRepeatable | src/storage-core.js:123-134 | A body that passes `validate` and scans each collection at most once has serial results if and only if its re-reads agreed, because `get` and `all` overwrite the recorded version |
| Transactions.ReadsOnceIsRepeatable | src/storage-core.js:123-134 | A body that reads each key at most once meets that condition, whatever it observed |
| Transactions.CurrentIsSerial | src/storage-core.js:123-134 | If every call of an interleaved body saw the committed state on the key it touched, then all its results and its write set are those of the body run alone |
| StorageTheorems.RereadIsNotSerial | src/storage-core.js:127-133 | A concrete run in which a body reads a key twice around another commit, still validates and commits, and was told something that it would not be told alone on the state it commits against |
| TransactionCalls.TraceOkIff | src/storage-core.js:123-134 | What the calls of a body mean, said of the calls alone: the machine's record of a body is right if and only if every call was answered from the body's own last write of the record, or from the database where it had written none; its write set then holds exactly the keys written, each with what was left there last, with the record found there at the first write, and in the order of the first writes |
| TransactionCalls.OwnIs | src/storage-core.js:127-129 | What a body sees of its own is what the last call that writes the key left there: the record put, or nothing |
| TransactionCalls.SerialIff | src/storage-core.js:123-134 | The results the machine calls serial are exactly those in which every call was answered from the body's own writes and one content |
| TransactionCalls.TouchIff | src/storage-core.js:123-129 | A call reads its key from the database if and only if the body has not written it before |
| StorageSafety.WorkKeepsTx | src/storage-core.js:126-130 | Whatever half-applied batch a call reads, the recorded versions stay an exact account: an unchanged version means the record, or the collection, is still what was seen |
| StorageSafety.ApplyKeepsTx | src/tiered-store.js:61-83 | Applying a single operation of a batch makes every recorded version of that key stale and preserves all other accounts |
| StorageSafety.FinishKeepsTx | src/storage-core.js:83-85 | Advancing collection versions when a commit finishes makes every recorded scan of a touched collection stale |
| StorageSafety.ValidatedReads | src/storage-core.js:133 | A body that validates between commits last looked at everything it depends on when that was the content it commits against |
| StorageRecovery.BeforeImages | src/storage-core.js:128-129 | Each buffered before-image of a validated body is the record of the validated state, although it was read earlier |
| StorageRecovery.EventsStore | src/storage-core.js:77-80 | The events built from a write set are numbered from the base sequence, touch distinct keys, carry true prior records, and folding them in order stores the write set at once |
| StorageRecovery.NothingToStore | src/storage-core.js:74-76 | A write set from which no operation remains after comparing before and after changes nothing when stored |
| StorageRecovery.BuiltCommitOk | src/storage-core.js:73-81 | The entry built from any validated body, whatever context it is given, is a legal next commit of the history it was validated against |
| StorageTheorems.CommittedAtRest | src/storage-core.js:82-88 | In every state of every run outside an apply, the visible records are the fold of the history, and the metadata names the last sequence and commit, exactly the collections ever written to, the last sequence in each, and the newest events |
| StorageTheorems.HistoryGrows | src/storage-core.js:64-88 | Over any stretch of any run, crashes included, committed history is only extended and acknowledged commits stay in it |
| StorageRuns.InvStep | src/storage-core.js:28-138 | Every step of the engine (calls, validation, log append, single store operation, finish, both checkpoint writes, compaction, crash, lost checkpoint, a replay stopped anywhere with any of its applied keys written, reopening) keeps the invariant |
| StorageRuns.InvRun | src/storage-core.js:28-138 | The invariant holds in every state of every run |
| StorageRuns.CrashedSegments | src/tiered-store.js:61-83 | Whichever of the applied operations had reached the segments at a crash, their keys hold final records and every other key is untouched |
| StorageRuns.AppliedIsFinal | src/storage-core.js:138 | Once one operation of a batch has been applied, its key already holds the record the whole batch leaves there, although operations are regrouped by collection |
| StorageTheorems.Recovery | src/storage-core.js:28-44 | Crash recovery: in every stopped state of every run (before or after a log append, mid-apply, between primary, backup and compaction, with the primary unreadable, or inside an earlier recovery, whichever of the keys it had applied reached the segments), opening gives exactly the fold of all durable commits, everything acknowledged at any earlier time included, with metadata that names the sequence and commit of the last event, exactly the collections of the log, the last sequence in each, and the newest events; it is refused if and only if a log line was spoiled or a commit made with null for its origin or partition lies after the checkpoint |
| StorageTheorems.SpoiledIffTornAppend | src/wal.js:27-67 | A run ends with an unreadable log if and only if some append followed a torn one with no compaction in between or since |
| StorageTheorems.TornTailLosesCommit | src/storage-core.js:36-43 | A concrete run (torn append, reopening with nothing to replay, one acknowledged commit, second crash) after which the database no longer opens, so an acknowledged commit is out of reach |
| StorageSafety.OpenRestores | src/storage-core.js:28-44 | For any durable disk contents, `open` restores the fold of the durable commits, and metadata that names the end of the log, its collections with the last sequence in each, and its newest events, whatever part of the replayed suffix the segments already hold; it refuses exactly a spoiled line and a commit after the checkpoint that was made with null for its origin or partition |
| StorageRecovery.BuiltEntryVerifies | src/storage-core.js:137 | An entry that `commitTransaction` writes passes `verifyEntryFabric` if and only if neither its origin nor its partition was given as null: the envelope rebuilt from the logged events, with its defaults, then has the logged identity |
| StorageTheorems.NullOriginLosesCommit | src/storage-core.js:64-137 | For every such context a run leads there: one commit, acknowledged, and a crash; the log is intact, yet the database no longer opens |
| StorageRecovery.PartialReplay | src/storage-core.js:136-138 | Replaying part of a commit, with any subset of its applied keys written, over segments that are right up to keys the remaining log touches leaves them so |
| StorageRecovery.ReplayCommit | src/storage-core.js:136-138 | Replaying one whole commit settles all its keys, whatever the segments held of it before |
| StorageRecovery.ReplayRestores | src/storage-core.js:136 | `replayWal` from any checkpoint position accepts every entry of the history if and only if none of them was made with null for its origin or partition, and then ends with its content and metadata |
| StorageRecovery.AfterCheckpoint | src/wal.js:22-25 | The entries listed after a checkpoint sequence are exactly those of the commits after that checkpoint |
| StorageRecovery.MetaExtends | src/storage-core.js:83-85 | Finishing a commit turns the metadata of a history into that of the longer history, trimming included, and the result names the end of the longer log, its collections with the last sequence in each, and its newest events |
| StorageRecovery.MetaRecords | src/storage-core.js:83-85 | The metadata of every history, without naming how it is built up: sequence and commit id of the last event, or those of a new database; a collection is listed if and only if some event touched it; its version is the sequence of its last event; the changes are the newest events within the retention |
| StorageRecovery.EntrySays | src/storage-core.js:73-81 | An entry is written if and only if some record of the write set changed; it then has one event for each changed record and no other, in the order of the first writes, numbered from the base sequence, with the new and the prior record, the kind and the fields that follow from these, and origin, partition, transaction, time and parents of the context |
| StorageRecovery.GroupedStores | src/storage-core.js:138 | Applying the events of one commit, grouped by collection, leaves under each of their keys the record of its event and touches nothing else |
| StorageRecovery.VersionsExtend | src/storage-core.js:84 | Finishing a commit raises the version of exactly the collections it touched |
| CommitLog.FoldGrouped | src/storage-core.js:138 | Applying events grouped by collection leaves the same content as applying them in order |
| CommitLog.GroupedLast | src/storage-core.js:138 | Grouping keeps the last event of every key |
| CommitLog.TrimAbsorb | src/storage-core.js:147 | Trimming the retained changes before absorbing more events and trimming again equals trimming once at the end |
| CommitLog.AbsorbNumbered | src/storage-core.js:84 | Absorbing numbered events advances the sequence by their number and keeps every collection version at or below it |
| CommitFabric.Create | src/commit-fabric.js:9-15 | An envelope is produced if and only if the database id is non-empty and the sequence positive; whatever is produced verifies and carries each given item in its place, the parents sorted |
| CommitFabric.ChecksumPinsEnvelope | src/commit-fabric.js:9-22 | Two envelopes that verify share a checksum, or a commit id, if and only if they are the same envelope |
| StorageDatabase.WriteSetTransaction.Get | src/storage-core.js:127 | `get` returns what the body last wrote to the key, nothing if it removed it, and the database's record if it wrote none; only in the last case the record's version is recorded, replacing an earlier one |
| StorageDatabase.WriteSetTransaction.Put | src/storage-core.js:128 | `put` buffers the given record under its key, with the record found at the first write of that key, and touches no other key; a version recorded earlier stays |
| StorageDatabase.WriteSetTransaction.Remove | src/storage-core.js:129 | `remove` answers true exactly when the body sees a record there, and then buffers its absence with the record found at the first write; otherwise it buffers nothing; a version recorded earlier stays |
| StorageDatabase.WriteSetTransaction.All | src/storage-core.js:130 | The overlay loop of `all` returns under every key of the collection what the body sees there, its own last write first, and nothing else; the version of the collection is recorded |
| StorageDatabase.WriteSetTransaction.Validate | src/storage-core.js:133 | The two validation loops accept if and only if every recorded record and scan version is still current |
| StorageDatabase.StorageDatabase.GroupEvents | src/storage-core.js:138 | The grouping loop lists the collections by first appearance, each with exactly its events in order |
| StorageDatabase.StorageDatabase.ApplyEvents | src/storage-core.js:138 | `applyEvents` leaves the stores as the grouped single operations do, one after another |
| StorageDatabase.GroupedBatches | src/storage-core.js:138 | The recursive grouping the machine uses equals the batches by first appearance that the Map holds |
| StorageDatabase.StorageDatabase.CommitTransaction | src/storage-core.js:73-88 | `commitTransaction` commits if and only if the scheduler admits it, every recorded record and scan version is still current and some record changes, and otherwise changes nothing; the entry has one event for each changed record, of the right kind; each such key then holds the record buffered for it and no other cell changes; the metadata advances by these events; log, disk and history gain exactly this commit |
| StorageDatabase.CommitIsRun | src/storage-core.js:73-88 | That outcome is the one of the machine's steps: validate, append, apply each operation, finish |
| StorageDatabase.StorageDatabase.VerifyEntryFabric | src/storage-core.js:137 | The grouping and checking loops accept an entry if and only if, for every commit id occurring in it, the envelope rebuilt from its events has that identity and checksum |
| StorageDatabase.StorageDatabase.GroupCommits | src/storage-core.js:137 | The grouping loop lists the commits by first appearance, each with exactly its events in order |
| StorageDatabase.StorageDatabase.ReplayWal | src/storage-core.js:136 | The replay loop succeeds if and only if the specification does, with the same stores and metadata |
| StorageDatabase.StorageDatabase.CheckpointNow | src/storage-core.js:116-117 | `checkpointNow` is primary, backup and compaction in this order, each an enabled machine step |
| EventLog.ResumableIff | src/storage-core.js:91-92 | For a cursor that is not ahead, `resumeStatus` says resumable if and only if `changesSince` still returns every later event |
| EventLog.LogBefores | src/storage-core.js:77-85 | In every history events are numbered without gaps and each records the record it replaced in the state built by all events before it |
| EventLog.LogKinds | src/storage-core.js:80 | In every history an event is a removal if and only if it has no record, an insert if and only if it stores a record under a key that held none when all earlier events had been applied, and an upsert otherwise |
| EventLog.LogKeyed | src/storage-core.js:128 | In every history each record is stored under its own id |
| EventLog.MetaLog | src/storage-core.js:83-85 | The metadata of a history holds its length and the newest end of its log |
| Streams.ExactlyOnce | src/storage-core.js:93 | Exactly-once streams, storage engine: in every run of commits, emissions and openings, a watcher has received, once all is emitted, precisely the events above its cursor that are of its collection (any, if it named none), with rising numbers and none missing, despite trimming |
| Streams.BetweenPicks | src/storage-core.js:91-93 | The one list of events that satisfies this description is the one the watchers are compared with |
| Streams.RetainedSince | src/storage-core.js:91-93 | From a resumable cursor the trimmed window still yields every later event |
| Streams.FeedKeeps | src/storage-core.js:86-93 | Every commit, emission or opening keeps what the watcher has received equal to the matching events up to its position |
| Streams.ChangeWatcher.Handle | src/storage-core.js:93 | The handler delivers an event if and only if it lies beyond the cursor and is of the collection asked for, and moves the cursor accordingly |
| QueuedStreams.ExactlyOnceIff | src/index.js:155-205 | Exactly-once streams, first-generation engine: once drained, a watcher has received precisely the events above its cursor that it asked for, rising and none missing, if and only if at most 10000 of them had been published when it opened; events adopted but unpublished at that moment are neither missed nor doubled |
| QueuedStreams.InvRun | src/index.js:155-205 | In every run the delivered events are the replayed prefix followed by the published suffix handled so far |
| QueuedStreams.LongReplayMissesEvents | src/index.js:134-142 | A watcher that opens at zero after any number of published events beyond 10000 is not given all of them |
| QueuedStreams.TakeBetween | src/index.js:134-142 | A replay cut at the limit is exactly the matching events up to the last one it contains |
| StoreRefinement.StepIsApplyCell | src/tiered-store.js:61-83 | One operation of a proved segmented store is one cell update of the commit engine, versions included |
| StoreRefinement.LogIsStream | src/storage-core.js:83-87 | Every history of the commit engine is a numbered stream and each commit an append to it, so the stream theorem applies to it |
| BucketCache.KeptIffRecent | src/tiered-store.js:159-165 | The LRU stack property, exactly: an accessed bucket is still cached if and only if fewer than `maxCachedBuckets` distinct other buckets were accessed since |
| BucketCache.CacheIsRecentStack | src/tiered-store.js:159-165 | The bounded cache is always the recent end of the unbounded access stack |
| BucketCache.KeptWithinBound | src/tiered-store.js:159-165 | Accesses to at most `maxCachedBuckets` distinct buckets never evict one of them |
| BucketIndex.BatchReadsRightIff | src/tiered-store.js:61-83 | Every lookup during and after a batch, interleaved reads included, is right if and only if no dirty bucket ever has `maxCachedBuckets` other buckets accessed after it |
| BucketIndex.BatchWithinBound | src/tiered-store.js:61-83 | A batch that with its interleaved reads touches at most `maxCachedBuckets` buckets keeps every answer right |
| BucketIndex.EntryPersistedIff | src/tiered-store.js:61-83 | Which written entry reaches its file, exactly: the entry a batch leaves for an id is missing after `persist` if and only if its bucket was evicted and read again after that entry was set, and then written to |
| BucketIndex.UnwrittenPersists | src/tiered-store.js:61-83 | Whatever is evicted, an id that the batch does not write keeps its entry in the files |
| BucketIndex.BoundedStep | src/tiered-store.js:148-165 | The accounting behind the store: one access within the bound keeps the index equal to the plain map |
| BucketIndex.PersistSettles | src/tiered-store.js:158 | Writing the dirty buckets at the end of such a batch makes every bucket file exactly its share of the map |
| BucketIndex.EvictedDirtyBucketLosesEntry | src/tiered-store.js:159-165 | One bucket too many: with room for one bucket, writing a, then b elsewhere, then c beside a loses a on disk |
| TieredStore.BucketedOffsetIndex.Load | src/tiered-store.js:159-165 | The object form of `load`, with its eviction loop, has the cache, order and answer of the specification |
| TieredStore.BucketedOffsetIndex.Get | src/tiered-store.js:148 | `get` answers from the cached or the stored bucket and moves it to the recent end |
| TieredStore.BucketedOffsetIndex.Set | src/tiered-store.js:149-154 | `set` hands out the changed bucket and leaves cache and dirty map as specified |
| TieredStore.BucketedOffsetIndex.Evict | src/tiered-store.js:164 | The eviction loop keeps exactly the `maxCachedBuckets` most recent buckets |
| TieredStore.BucketedOffsetIndex.Persist | src/tiered-store.js:158 | The persist loop writes every dirty bucket and touches no other file |
| DocumentStore.SegmentedDocumentStore.ApplyBatch | src/tiered-store.js:61-83 | Refinement of a plain map: a batch within the bucket bound performs its operations one after another; every read that comes in while an envelope, a bucket file or the manifest is written sees exactly the operations before it; an id keeps its version exactly while nothing is written to it and otherwise gets a new, higher one; and nothing is left unpersisted |
| DocumentStore.SegmentedDocumentStore.Persist | src/tiered-store.js:158 | Writing the dirty buckets in any portions, with reads between them, changes no answer and leaves nothing dirty |
| BucketIndex.BoundedPersistSome | src/tiered-store.js:158 | After any part of the dirty buckets has been written, every lookup is still right and the others are still owed to the files |
| StoreRuns.VersionsNeverRepeat | src/tiered-store.js:21-83 | Over any run of batches and reopenings an id has one version at two moments only with the same record, and a changed version lies beyond every version given out before |
| DocumentStore.SegmentedDocumentStore.Get | src/tiered-store.js:45-53 | `getSync`, through hot cache, index and segments, returns the record of the plain map, inside a batch too |
| DocumentStore.SegmentedDocumentStore.Version | src/tiered-store.js:42 | `version` is the sequence of the last write to the id, zero if there was none since compaction |
| DocumentStore.SegmentedDocumentStore.Scan | src/tiered-store.js:155-157 | Iterating the buckets while loading and evicting them lists every live and every deleted id exactly, and finds the newest sequence |
| DocumentStore.SegmentedDocumentStore.LiveIds | src/tiered-store.js:43 | `ids` are the keys of the plain map, sorted |
| DocumentStore.SegmentedDocumentStore.Append | src/tiered-store.js:117-125 | An appended envelope lands at a fresh location, past everything written, also across a segment roll |
| DocumentStore.SegmentedDocumentStore.Perform | src/tiered-store.js:66-79 | One operation changes the plain map, counters, tombstones and version exactly as the operation says; removing an absent id does nothing; reads during its write see the map before it |
| DocumentStore.SegmentedDocumentStore.Reopen | src/tiered-store.js:21-37 | Closing and opening between batches changes nothing: counts and sequence recomputed from the index are those of before |
| DocumentStore.SegmentedDocumentStore.Compact | src/tiered-store.js:87-113 | `compact` keeps the live map, drops all tombstones, and leaves versions only to live ids |
| Atomicity.Atomic | src/distributed.js:39-61 | 2PC atomicity over all crashes and `recover` runs in which no splitting call is made, repeated submissions with the participants in any order included: no transaction is committed at one participant and aborted at another; a participant commit implies a durable decision to commit; a transaction reported committed is committed at every participant of its plan |
| Reexecution.ReexecutionSplitsIff | src/distributed.js:44-56 | The calls to avoid are exactly those: left to itself, `execute` with the same mutations, in whatever order it lists the participants, ends with its transaction split if and only if, before the call, some participant has aborted it, every participant will prepare it, and the first one to commit has not aborted it |
| Reexecution.CommitAsked | src/distributed.js:45 | A participant asked to commit refuses if and only if it has aborted; that is then the first one asked and nothing is committed anywhere |
| Reexecution.KeepSound | src/distributed.js:44-57 | Every step but a splitting call keeps the invariant behind atomicity, executions of a transaction being aborted and submissions in another order included |
| Reexecution.SoundRun | src/distributed.js:44-57 | That invariant holds in every state of every run without a splitting call |
| Reexecution.SameRanked | src/distributed.js:56-57 | Two submissions with the same mutations ask the participants to commit in the same order, however each lists them |
| Reexecution.RunsOut | src/distributed.js:44-57 | Every call of the coordinator ends when it is not interrupted |
| Orphans.OrphanIff | src/distributed.js:56-57 | Reservations after recovery, in runs that never execute a transaction again once its abort has begun: when the abort is done, a participant is still prepared if and only if it had prepared and the coordinator never noted it |
| Orphans.OrphanStays | src/distributed.js:56-57 | A run leads there: a stop between a participant preparing and the coordinator noting it; `recover` calls the transaction aborted and the participant stays prepared |
| Orphans.OneOrphan | src/distributed.js:56-57 | When moreover every submission of the transaction lists its participants in the same order, at most one of them stays prepared, however many calls were interrupted: the next one in that order after those noted |
| Orphans.TwoOrphans | src/distributed.js:56-57 | A run leads there in which a transaction is submitted twice, with its participants in different orders, and each call is stopped between an answer and its note: both participants stay prepared after `recover` |
| Orphans.OrphanPerInterruption | src/distributed.js:56-57 | In general an aborted transaction leaves at most as many participants prepared as calls were stopped between a participant answering and the coordinator noting it |
| Outcomes.TwoReserved | src/distributed.js:56-57 | A concrete run without a splitting call, in which an aborted transaction is executed again: two participants stay prepared, and `recover` changes nothing |
| Outcomes.ExecuteRefused | src/distributed.js:56 | Where an uninterrupted `execute` ends, exactly, when a participant refuses: while the abort had not been noted, everyone noted before or asked by this call is aborted and every other entry is as it was; afterwards nothing changes but that those asked without an entry are prepared |
| Outcomes.ExecuteAccepted | src/distributed.js:56 | Where it ends when everyone prepares, in whatever order the call lists them: committed at every participant if nobody has aborted; stuck with a decision to commit, and everyone asked prepared, if the first to commit has |
| Outcomes.ReservedAfterRefusal | src/distributed.js:56 | What a refused `execute` leaves reserved, exactly: while the abort had not been noted, whoever was prepared without being noted and is not asked before the refusal; for an aborted transaction, whoever was prepared before, and whoever this call reaches before the refusal without an entry |
| Outcomes.ReservedWhenBlocked | src/distributed.js:56 | When the first to commit has aborted, exactly the participants of the plan that have not aborted are left prepared, under a decision to commit |
| Outcomes.ReservationStays | src/distributed.js:56-57 | Over any stretch of any run, with any recoveries and crashes, the entries of an aborted transaction stay as they are until it is executed again |
| Outcomes.StalledForEver | src/distributed.js:56-57 | A transaction decided to commit whose first participant has aborted stays as it is in every later state of every run without a splitting call |
| Outcomes.RecoverDecides | src/distributed.js:57 | One entry of `recover` ends decided if and only if it is not stalled in this way, and no other transaction changes |
| Outcomes.RecoverReaches | src/distributed.js:57 | `recover` without a crash decides exactly the transactions before the first stalled one; it stops there, and that one and all after it stay undecided |
| Atomicity.PreparedKeysFrozen | src/distributed.js:42-45 | Prepared transactions at one participant hold disjoint keys, and each finds every reserved record as it was when it prepared, under guarded writes, other commits and executions of aborted transactions |
| Atomicity.CommitNeverRefused | src/distributed.js:45 | When no transaction being aborted is executed again, the coordinator can always take its next step, and a participant it asks to commit never refuses, in whatever orders the plans were listed |
| Atomicity.CommitRefusedIff | src/distributed.js:45 | In every run without a splitting call a participant asked to commit refuses if and only if it has aborted, and then nothing is committed |
| Atomicity.CommitEffect | src/distributed.js:45 | The step that commits a prepared transaction at a participant carries out its plan there: every record put is in the database afterwards, every record removed is not, every other record is as it was; a guarded write does this for the records it names, and no other step changes a database; committed and aborted are final |
| Atomicity.ReexecutionBreaksAtomicity | src/distributed.js:44 | A splitting call in a concrete run: executing a transaction again after recovery began to abort it, with its participants in the same or in the other order, commits it at one participant while it is aborted at the other, since `prepare` returns an aborted entry as success |
| Atomicity.Keep | src/distributed.js:44-57 | Every journal write, participant call, guarded write and crash, and every call that does not execute a transaction again once its abort has begun, keeps the protocol invariant |
| Atomicity.InvRun | src/distributed.js:44-57 | The protocol invariant holds in every state of every run that does not re-execute a transaction being aborted |
| Atomicity.RespectfulRunIsHarmless | src/distributed.js:44-57 | A run that executes no transaction again once its abort has begun contains no splitting call |
| Participant.PrepareKeepsOk | src/distributed.js:44 | Preparing keeps lock sets disjoint and before-images true |
| Participant.CommitKeepsOk | src/distributed.js:45 | Committing one transaction keeps the before-images of all other prepared ones true |
| Participant.GuardedWriteKeepsOk | src/sharding.js:20-25 | A write that passes the router's guard keeps every prepared before-image true |
| Coordinator.DurablePartitionParticipant.IsLocked | src/distributed.js:42 | The search loop answers whether another prepared transaction has a mutation that names the key |
| Coordinator.DurablePartitionParticipant.Prepare | src/distributed.js:44 | The guard and snapshot loops accept if and only if the transaction was prepared with the same mutations before, or none of its keys is reserved; then exactly its keys are reserved, each with the record it held, and no database changes |
| Coordinator.DurablePartitionParticipant.Commit | src/distributed.js:45 | Accepted if and only if the transaction is committed already, or is prepared and every reserved record is as it was; then every record put is in the database, every record removed is not, and every other record is as it was; a refusal changes nothing |
| Coordinator.DurablePartitionParticipant.Abort | src/distributed.js:46 | `abort` marks a transaction aborted unless it is committed or unknown, and changes no database |
| Participant.CommitCarries | src/distributed.js:45 | Committing a prepared transaction whose mutations name distinct records leaves each record put in the database, each record removed out of it, and every other one as it was |
| Coordinator.DurableTransactionCoordinator.PrepareAll | src/distributed.js:56 | The prepare loop notes the participants of the plan given to the call one by one, for a new transaction a prefix of it, and touches no database |
| Coordinator.DurableTransactionCoordinator.CommitAll | src/distributed.js:56-57 | The commit loop, of `execute` or of a recovery that skips noted participants, ends with the transaction committed |
| Coordinator.DurableTransactionCoordinator.Execute | src/distributed.js:56 | Without a crash a new transaction either ends committed at every participant, each record its plan puts there being in that database, each one it removes not, and all else as before; or it leaves every database as it was and nothing reserved |
| Coordinator.DurableTransactionCoordinator.Recover | src/distributed.js:57 | `recover` without a crash decides every transaction: what was committing ends committed, everything else undecided ends aborted |
| CanonicalKeys.CanonicalInjective | src/superior-indexed.js:74 | Two JSON-like values, with undefined, null, negative zero, infinities, nested arrays and objects, have the same canonical text if and only if they are equal up to the order of object members |
| CanonicalKeys.StableKeyInjective | src/superior-indexed.js:73 | Two lists of indexed values share a key if and only if they are equal |
| CanonicalKeys.Read | src/superior-indexed.js:74 | Unique readability: from a canonical text followed by anything delimited, both the value and the place where it ends are determined |
| CanonicalKeys.QuotePrefix | src/superior-indexed.js:74 | An escaped string (section 7 of RFC 8259) determines its characters and where its closing quote stands |
| CanonicalKeys.NumeralPrefix | src/superior-indexed.js:74 | A printed number determines the number and where it ends |
| SecondaryIndex.PlanCompleteIff | src/superior-indexed.js:32-33 | Exactly when index planning is safe: on a right index, no query misses a record it should show if and only if in every record either some indexed path can be met by no equality condition or every indexed path only by its first value |
| SecondaryIndex.MissedByPlan | src/superior-indexed.js:32-33 | A record with an array on an indexed path that can be met by another value is missed by the query naming that value |
| SecondaryIndex.NoArraysDecide | src/document.js:161-173 | Records without arrays on the indexed paths meet that condition |
| SecondaryIndex.NamedIff | src/document.js:117-173 | An equality condition is met if and only if it names a value of the path or an element of an array value, as path fan-out and Mongo-like equality have it |
| SecondaryIndex.IndexEqualsScan | src/superior-indexed.js:32-33 | Index equals scan: under that condition a planned query shows exactly the records a full scan shows |
| SecondaryIndex.FindExact | src/superior-indexed.js:52 | A lookup returns exactly the records whose indexed values are the ones asked for; a sparse index none for undefined |
| SecondaryIndex.Plan | src/superior-indexed.js:33 | `explainQuery` picks an index whose every field has a simple equality, with the most fields among those, and of several the one defined first |
| SecondaryIndex.ApplyRight | src/superior-indexed.js:54-57 | Applying an event with a true before-image keeps the index exactly that of the next content |
| SecondaryIndex.ReapplyCompletes | src/superior-indexed.js:54-59 | Applying an event again after a crash among its bucket writes answers every lookup as if it had been applied once |
| SecondaryIndex.CatchUpFromBetween | src/superior-indexed.js:19 | Catching up from such a half-written event ends where catching up from before it would |
| IndexMaintenance.CatchUp | src/superior-indexed.js:19 | `catchUpIndex` leaves an index exactly right for the committed state, by retained changes when they reach back to its manifest, whatever bucket writes of the next event had happened, and otherwise by a rebuild, whatever its files hold |
| IndexRuns.IndexFollows | src/superior-indexed.js:19-59 | In every run of commits, single bucket and manifest writes, rebuilds, stops anywhere and restarts: an index that has followed the log to its end shows exactly the committed state, and a stopped one meets what `catchUpIndex` asks of it |
| IndexRuns.Keep | src/superior-indexed.js:38-59 | Every such step keeps the invariant |
| IndexRuns.InvRun | src/superior-indexed.js:38-59 | The invariant holds in every state of every such run |
| IndexRuns.ReapplyBuckets | src/superior-indexed.js:54-59 | Applying an event to whatever of its own buckets had been written gives exactly the buckets of one application |
| IndexMaintenance.CaughtUp | src/superior-indexed.js:19 | From any interruption point of any log, applying the later events makes the index right for the whole log |
| IndexMaintenance.PersistentDocumentIndex.Apply | src/superior-indexed.js:54 | `apply` removes, adds and persists dirty buckets to exactly the specified files, and never lowers the persisted sequence |
| IndexMaintenance.PersistentDocumentIndex.Rebuild | src/superior-indexed.js:53 | `rebuild` from scanned records gives a right index whatever was there before |
| IndexMaintenance.PersistentDocumentIndex.Find | src/superior-indexed.js:52 | `find` through the bucket cache answers as the files do |
| IndexMaintenance.PersistentDocumentIndex.PersistBuckets | src/superior-indexed.js:59 | One file per dirty bucket, no other file touched |
| IndexMaintenance.RunQuery | src/superior-indexed.js:32 | `query` without order and limits returns, planned or scanned, exactly the ids of the records that satisfy the query, as `QueryMeaning.MatchesIff` explains satisfying |
| IndexMaintenance.TrimmedCommitIndexedIff | src/superior-indexed.js:38 | When one commit exceeds the retained log and its first n events are gone, the index is right afterwards if and only if none of those events changed an index key |
| IndexRuns.CommitReadBack | src/superior-indexed.js:38 | Reading a commit back from the retained log gives its events without the first ones that exceed the retention |
| IndexRuns.CommitIndexedIff | src/superior-indexed.js:38 | For every history and every next commit: the index is right afterwards if and only if every event of the commit that the retention drops left its record under the same key |
| IndexRuns.LargeCommitLosesRecord | src/superior-indexed.js:38 | With a retention of one event, a commit of two new records leaves the first out of the index |
| IndexRuns.TaggedRecordMissed | src/superior-indexed.js:32-33 | A record with an array on the indexed path is shown by a scan and missed by the query planned on its index |
| Documents.OneValue | src/document.js:161-168 | A path that meets no array has at most one value, and it is not an array |
| Documents.ArrayMatchesByElement | src/document.js:161-173 | A concrete document that a query matches by an array element while its first path value is the array |
| Documents.EveryIff | src/document.js:15-39 | A query is satisfied if and only if each of its entries is |
| QueryMeaning.MatchesIff | src/document.js:13-173 | What matching means: unless something is refused, a document matches if and only if every entry holds: `$and` when every branch is satisfied, `$or` when some is, `$nor` when none is, `$not` when the inner query is not; a condition when each of its operators passes, `$exists` by whether the path has a value, `$not` when the inner condition fails, and the others when some value of the path is alike, not alike, alike one of the list, alike none, an array of that length, an array containing all, or an array with an object that satisfies the query |
| QueryMeaning.EveryStops | src/document.js:15-37 | A query object is evaluated in order, and the first entry that does not hold ends it: with false, or with its refusal |
| QueryMeaning.AllOfStops | src/document.js:16-19 | `$and` ends with its first branch that does not match, or is refused |
| QueryMeaning.AnyOfStops | src/document.js:20-27 | `$or` and `$nor` end with their first branch that matches, or is refused |
| QueryMeaning.MeetsAllStops | src/document.js:119-134 | Several operators in one condition: the first that does not pass, or is refused, ends it |
| QueryMeaning.AnyElementStops | src/document.js:157 | `$elemMatch` looks at the arrays of the path in turn and ends with the first that has a matching element or is refused on one |
| QueryMeaning.RefusedClauses | src/document.js:13-37 | Which entries throw: unknown logical operators and empty paths always, lists that are no arrays never, the others exactly when a branch they reach does |
| QueryMeaning.RefusedTests | src/document.js:121-158 | Which operators throw: unknown ones and `$in`, `$nin` and `$all` without an array always, `$not` and `$elemMatch` exactly when what they ask does, the others never |
| QueryMeaning.ResolveIff | src/document.js:161-168 | The values of a path are exactly what steps along it lead to: members named by its parts in turn, and elements of every array met on the way |
| QueryMeaning.SplitJoins | src/document.js:5-9 | The parts of a path have no dots, and with dots between them they are the path |
| QueryMeaning.FirstOfArray | src/document.js:10-12 | Through an array, the first value of a path is that of the first element that has any |
| QueryMeaning.FirstValueIs | src/document.js:10-12 | The first value of a path is the first of its values, or undefined when it has none |
| QueryMeaning.FieldValues | src/document.js:161-168 | A path without dots has the value of that field of the record, its id for `id`, or none |
| SyncView.SyncExact | src/storage-core.js:101-102 | Sync-view deltas: for every history and every resumable cursor, applying the served changes in order to the view as it was at the cursor gives exactly the current view |
| SyncView.PatchEvents | src/storage-core.js:102 | For any content and any events with true before-images, patching by their deltas is materializing after them |
| SyncView.SyncViewChanges | src/storage-core.js:102 | The delta loop refuses an expired cursor and fails exactly when the view's query is refused on some served record; otherwise the answer has one delta for each served event that touches the view, in order: the record, when it satisfies the query now, and a removal, when only the prior one did |
| SyncView.Materialize | src/storage-core.js:101 | Materializing fails exactly on a query refused on some record or on too many rows, and otherwise returns exactly the records of the collection that satisfy the query |
| ReactiveTheorems.IncrementalEqualsRecompute | src/reactive.js:16-34 | Incremental equals recompute: for every history of the commit engine, a registered covered query delivered each commit holds exactly the ids of the matching documents at every point, and their fields as far as it looks at them, skipped commits included, while no commit is rejected |
| ReactiveTheorems.DeliveredIdsIff | src/reactive.js:16-34 | With rejections too, exactly: the ids are right at every point of a history if and only if every rejected commit changed nothing about which documents match |
| ReactiveTheorems.CommitIdsIff | src/reactive.js:16-22 | A rejected commit leaves the rows as they were; the ids are right after a commit if and only if it is not rejected or changed nothing about which documents match |
| ReactiveTheorems.RejectedIff | src/reactive.js:20-31 | A commit that may affect right rows is rejected if and only if the query is refused on a record it stores or more documents match afterwards than the limit allows |
| ReactiveTheorems.RowLimitLosesInsert | src/reactive.js:20 | A concrete query at its row limit: an insert is rejected and the rows stay without it |
| ReactiveTheorems.CommitKeepsRows | src/reactive.js:16-22 | One commit that is not rejected, skipped or applied, leaves the ids those of a recomputation; row contents may differ only on fields the query does not look at |
| ReactiveTheorems.EngineCommitFits | src/storage-core.js:78-80 | What each commit of any history announces names each record once with the fields it changed, and leads to the next state |
| ReactiveTheorems.UnwatchedBranch | src/reactive.js:33 | A concrete query with an array of branches: a commit is skipped and the rows keep a record that no longer matches |
| Reactive.CoveredIff | src/reactive.js:32-34 | Exactly which queries are never skipped over a change to a field they look at: those that watch everything or have every such field at the head of a collected path |
| Reactive.WatchedIff | src/reactive.js:32-33 | The watched paths are exactly those of the entries of the query and of queries it negates, at any depth of `$not`, and of no query inside an array |
| Reactive.SkippedAgrees | src/reactive.js:34 | A change that a covered query may skip leaves every field the query looks at alone |
| Reactive.MatchesAgrees | src/document.js:15-39 | A verdict depends only on the top-level fields the query looks at, through arbitrarily nested logical operators |
| Reactive.NestedAddsNothing | src/reactive.js:32-34 | A longer dependency path never triggers where its own prefix does not |
| Reactive.EntriesDecide | src/reactive.js:32-34 | The paths `walk` collects inside conditions count against the limit but never decide whether a commit may affect the query |
| ReactiveGraph.ReactiveQueryGraph.Register | src/reactive.js:7-14 | Registration succeeds if and only if all collected dependencies, those inside conditions included, and rows are within the limits; a covered query without order, limit, offset or projection is then one the theorems speak of; the listing by collection stays exact if and only if the id is new or stays in its collection |
| ReactiveGraph.RegisterKeeps | src/reactive.js:12-13 | Registering an id again under another collection leaves it listed under the former one, and only that |
| ReactiveGraph.ReactiveQueryGraph.Remove | src/reactive.js:15 | `remove` takes out the query and its listing |
| ReactiveGraph.ReactiveQueryGraph.ApplyCommit | src/reactive.js:16-23 | What one commit does to every registered query: untouched when nothing it depends on may have changed; replaced by its own evaluation when that is how it is kept; and otherwise, row by row, what the last mutation about the row says: the record it stores if that satisfies the query, else no row; refusals and too many rows leave it as it was. The result tells exactly the queries whose rows changed, with the rows they have now, or nothing at all when the task of one query throws |
| ReactiveGraph.ToldAgainIff | src/reactive.js:16-30 | What applying one commit to the graph a second time tells, exactly: a query kept by applying mutations is never told again; one that is evaluated is told again if and only if the commit may affect it and the evaluation now gives other rows, within the limit |
| ReactiveGraph.LaterToldIff | src/storage-core.js:96 | Several subscriptions that handle a commit in turn: a listener other than the first is passed something if and only if its query is evaluated, the evaluation gives other rows than those left by the subscription before, and no query throws |
| ReactiveGraph.AppliedTwice | src/reactive.js:31 | Applying the same mutations to rows again gives the same rows |
| FirstGenerationTheorems.RecoveryAgrees | src/index.js:30-42 | After every step of every run with recoverable writes, checkpoint plus log replays to the content, sequence, retained changes and applied ids of the whole durable history, which at rest is the state in memory; it fails only on a spoiled line |
| FirstGenerationTheorems.SpoiledIffTornWrite | src/index.js:30-42 | A run of the first-generation engine ends with an unreadable log if and only if some write that logs something followed a torn one with no compaction in between or since |
| FirstGenerationTheorems.TornTailLosesWrite | src/index.js:30-42 | A concrete run (torn append, reopening with nothing to replay, one acknowledged write, second crash) after which the database no longer opens |
| FirstGenerationTheorems.WriteRecoveredIff | src/index.js:211-248 | Exactly which writes survive a crash as they were: those whose logged records read back from JSON text unchanged (of the values a record may hold only negative zero does not) and that are local writes, transactions, replicated removals, or replicated records of a known type that agree with their resolution |
| FirstGenerationTheorems.Keep | src/index.js:278-317 | Every write, adoption, checkpoint write, crash and reopening keeps the invariant |
| FirstGenerationTheorems.InvRun | src/index.js:278-317 | The invariant holds in every state of every such run |
| FirstGenerationTheorems.HistoryGrows | src/index.js:293-307 | The durable history is only ever extended |
| FirstGenerationRuns.ReplaysIffFaithful | src/index.js:442-476 | An entry replays to the draft adopted live if and only if its logged changes, read back from JSON text, produce the content of the draft and the changes it retains |
| FirstGenerationRuns.FaithfulIff | src/index.js:211-248 | That holds of a write exactly when every record it logs reads back unchanged and it is not a replicated record that differs from its resolution or has an unknown type |
| FirstGenerationTheorems.ResolutionLost | src/index.js:211-248 | A first replicated record, resolved to another: the live state holds the resolution, a restart the incoming record |
| FirstGenerationTheorems.UnknownTypeUnreplayable | src/index.js:211-248 | A first replicated change of an unknown type is stored and logged, and opening is refused from then on |
| FirstGenerationTheorems.NegativeZeroLost | src/index.js:76-87 | A first record holding negative zero: the live state keeps the sign, a restart finds zero |
| Json.RereadIff | src/index.js:407-428 | A value is unchanged by writing it as JSON text and reading it back if and only if it holds no negative zero, no other special number and no undefined; what comes back holds none |
| Json.RereadIs | src/index.js:506-531 | What reading back gives, for every value: zero for negative zero, null for the other special numbers and for undefined, except that undefined members disappear; everything else as it was |
| Json.ChangedFieldsIff | src/storage-core.js:149 | `changedFields` lists exactly the fields on which two versions of a record differ, and `*` for a new record, a removed one, or when nothing differs |
| FirstGenerationRuns.DiffFaithful | src/index.js:377-392 | apply(diff(before, after), before) = after, in any order of the changes |
| FirstGenerationRuns.OpenRestores | src/index.js:30-42 | Opening any durable disk contents restores the state of the whole durable history |
| FirstGeneration.PruneOnce | src/index.js:493-500 | Pruning once per entry, as replay does, equals pruning after each event, as live writes do |
| FirstGeneration.PruneTidy | src/index.js:493-500 | After pruning, the applied ids are exactly those of the retained window, with their newest sequences |
| FirstGeneration.ForgetPrefix | src/index.js:493-500 | Forgetting the removed events leaves exactly the ids of the remaining ones, also when an id occurs in both parts |
| SyncioDatabase.DiffCollections | src/index.js:377-392 | The nested loops over sorted collections and ids list each difference between two contents once, by collection and id in ascending order |
| SyncioDatabase.PruneChangeMetadata | src/index.js:493-500 | The loop over the removed events forgets an id only when its recorded sequence is that of the removed event, as the specification does |
| SyncioDatabase.ReplayWal | src/index.js:442-476 | The replay loops succeed if and only if the specification does, with its state |
| SyncioDatabase.SyncioDatabase.AppendChanges | src/index.js:325-340 | Appending the changes of a draft one by one, pruning each time, gives the numbered events and the draft of the specification |
| SyncioDatabase.SyncioDatabase.Commit | src/index.js:293-307 | `#commitDraft` logs and adopts exactly one machine write, and takes a checkpoint at every `checkpointEvery`-th commit |
| SyncioDatabase.DraftLogs | src/index.js:325-340 | Whatever a write does, its draft adds one event per change, numbered on, keeps the newest within the retention, and remembers exactly the change ids of those |
| SyncioDatabase.SyncioDatabase.Mutate | src/index.js:278-291 | After an insert or upsert the record stands under its key, after a removal nothing does, and no other record changes; exactly one event is added, with the next sequence, the given change id, the kind of the call and that record, and the log line or, when one is due, the checkpoint holds it; nothing changes exactly when an inserted record exists or a removed one does not |
| SyncioDatabase.SyncioDatabase.Transact | src/index.js:118-132 | A transaction leaves exactly the content its body made and logs exactly the differences, one event each, numbered on; without a difference nothing changes |
| SyncioDatabase.SyncioDatabase.ApplyReplicationChange | src/index.js:211-248 | A replicated change is applied if and only if its id is not in the retained window and it carries what its type needs; then the resolved record stands under its key, or none after a removal, no other record changes, and one event with the incoming change and its id is added |
| SyncioDatabase.SyncioDatabase.Checkpoint | src/index.js:309-317 | A checkpoint writes the state, as it reads back from JSON text, to primary and backup and keeps exactly the log entries beyond it; nothing happens when nothing was committed since the last one |
| Wal.TruncatedReads | src/wal.js:95-116 | Cut at any character, the file reads back as exactly the entries whose line break survived |
| Wal.ReadPrinted | src/wal.js:95-116 | The file of contiguous entries reads back as those entries |
| Wal.AppendAfterCutIff | src/wal.js:27-67 | Appending to a cut file reads back as the survivors and everything appended if the cut fell between lines; otherwise the file is refused, whatever is appended later |
| Wal.JoinedLine | src/wal.js:95-143 | A line glued to any text without a line break is no line, so the whole log is refused |
| CanonicalEnds.OnlyWhole | src/superior-indexed.js:74 | The text of an object stands at the end of a printed value and what follows it only when it is the whole of it |
| CanonicalEnds.GluedObject | src/superior-indexed.js:74 | With anything before it, the text of an object is not a printed value |
| Wal.ParseExact | src/wal.js:118-143 | A line is accepted as an entry if and only if it is the line printed for that entry and the entry is sound |
| Wal.CanonicalOneLine | src/wal.js:59 | No printed entry contains a line break |
| Wal.WriteAheadLog.Append | src/wal.js:27-67 | `append` refuses exactly unsound envelopes and otherwise extends entries and file; the file still reads back as the entries if and only if the new one follows the last, and is unreadable otherwise |
| Wal.GapUnreadable | src/wal.js:95-116 | A log with a gap before its last entry is refused as a whole |
| Wal.WriteAheadLog.CompactThrough | src/wal.js:69-77 | `compactThrough` keeps exactly the entries ending beyond the sequence, in memory and in the file |
| Wal.WriteAheadLog.Reset | src/wal.js:79-84 | `reset` empties both |
| Wal.ReadWalEntries | src/wal.js:95-116 | The line loop, with its accumulators and error exits, reads what the specification reads |
| Wal.AfterSuffix | src/wal.js:69-77 | What compaction keeps is a suffix, so a compacted log stays contiguous |
| CommitChain.EqualRoots | src/superiority-v2.js:10-13 | Two chains of one partition have equal roots over two ranges, of whatever lengths, if and only if the ranges lie at the same place and the chains agree on every entry up to their end, earlier ones included |
| CommitChain.DistinctRootInjective | src/superiority-v2.js:98 | Over lists without repetition, of any lengths, a Merkle root determines the list |
| CommitChain.HashPinsPast | src/superiority-v2.js:9 | Equal chain hashes mean equal entries at the same place, and equal everything before |
| CommitChain.RootInjective | src/superiority-v2.js:98 | Over lists of one length a Merkle root determines the list |
| CommitChain.RepeatedLast | src/superiority-v2.js:98 | Without either hypothesis it does not: an odd last value may as well be there twice |
| CommitChain.ComputeRoot | src/superiority-v2.js:98 | The level loop terminates with the root of the recursive definition: a tree whose leaves, from left to right, begin with the leaves of the values in their order and after that only repeat some of them |
| CommitChain.AttestedCommitChain.AlwaysVerifies | src/superiority-v2.js:12 | In every state reached by `append` and `seal`, all links and all roots check |
| CommitChain.AttestedCommitChain.Verify | src/superiority-v2.js:12 | The verification loops answer true if and only if the links hold and every root is that of its range |
| CommitChain.AttestedCommitChain.Append | src/superiority-v2.js:9 | `append` refuses exactly incomplete or non-advancing commits and takes a root at every multiple of the interval |
| CommitChain.AttestedCommitChain.Seal | src/superiority-v2.js:11 | After `seal` the last root ends at the last entry, and no root is lost |
| CommitChain.SealedChecks | src/superiority-v2.js:12 | A root stays valid when the chain grows, because selecting its range by sequence finds exactly its entries |
| HashRing.ConsistentHashRing.Locate | src/sharding.js:10 | The binary search returns the owner of the first point at or after the key's hash with wraparound, refusing only an empty key |
| HashRing.ConsistentHashRing.constructor | src/sharding.js:9 | Building the ring from the shards in any order gives the sorted points of exactly these shards |
| HashRing.OneOwner | src/sharding.js:9-10 | The owner is unique, under hash ties too, so it depends on the set of shards only |
| Ordering.LessIff | src/sharding.js:9 | The order that ties and sorted listings go by: one string ends where the other goes on, or has the smaller character at the first place where they differ |
| HashRing.AddMovesOnlyToNew | src/sharding.js:9-10 | Adding a shard moves keys only onto it |
| HashRing.RemoveMovesOnlyOwn | src/sharding.js:9-10 | Removing a shard moves only its own keys |
| Scheduler.AdaptiveScheduler.Admit | src/scheduler.js:7 | Admission through a tree of any depth: refused, with no account touched, if and only if on some node of the path what is used of a budgeted resource and what is asked of it together exceed the budget; otherwise every node on the path uses, of every resource, what it did and what is asked; `used` stays the sum of outstanding admissions and within budget at every node |
| Scheduler.AdaptiveScheduler.Release | src/scheduler.js:7 | Releasing any outstanding admission, in any order, gives every node on the path exactly its cost back, without clipping |
| Scheduler.RefundBalanced | src/scheduler.js:7 | Subtracting the cost of an outstanding admission never needs the clip at zero and keeps the account balanced |
| Scheduler.ChargeBalanced | src/scheduler.js:7-25 | An admission that exceeds no budget keeps the account the sum of outstanding costs and within budget |
| RateLimiter.WindowBound | src/resource-control.js:13-33 | The calls one bucket answers under a monotone clock are admitted at most capacity plus rate times window length, in every window |
| RateLimiterRuns.TrackedIff | src/resource-control.js:13-44 | In every run of requests with a rising clock, a key used before still has its bucket if and only if fewer than `maxKeys` other keys were used since |
| RateLimiterRuns.TrackedWindowBound | src/resource-control.js:13-44 | In every window of every run of requests with a monotone clock, a key that finds its bucket again at each use after the first spends at most capacity plus rate times window length |
| RateLimiterRuns.KeyWindowBound | src/resource-control.js:13-44 | With a rising clock that bound holds whenever fewer than `maxKeys` other keys are used between one use of the key and the next |
| RateLimiterRuns.EvictedKeySpendsTwice | src/resource-control.js:37-44 | For every `maxKeys` and every window, however short: a key that lets that many others pass spends its whole capacity twice |
| RateLimiter.Potential | src/resource-control.js:13-33 | What a run of calls spends and leaves never exceeds what was there and what time refilled |
| RateLimiter.RetryAfterExact | src/resource-control.js:27-29 | After a refusal with no other use the same request is admitted if and only if at least `retryAfterMs` have passed |
| RateLimiter.TokenBucketLimiter.Consume | src/resource-control.js:13-33 | A tracked key spends from its own bucket and no other changes; a new key starts full and costs at most one least recently touched key its bucket; an empty key or a cost out of range changes nothing |
| RateLimiter.TokenBucketLimiter.EvictOldest | src/resource-control.js:37-44 | Eviction removes one key, a least recently touched one |

## Left out

Parts of the code that are not modelled:

- Failing writes. A write to disk either happens or the process stops; errors that are caught and reported (degraded
  state, retry of a checkpoint, metrics) are not modelled. File handles, syncing, temporary files and renames are one
  durable write.
- Retries of a transaction and their metrics; the scheduler's answer inside `commitTransaction` is a parameter.
- `sourceChangeId` and applied change ids of the storage engine, offline intents, `replaceState`, legacy import,
  point-in-time recovery and the first opening, before any checkpoint exists.
- Argument checks of ids, names and sizes that throw before anything is touched, except where a row names them.
- Read-only transactions: they skip validation, so nothing is claimed of what they saw.
- Ids and collection names that are also names of object prototype members, and strings with lone surrogates.
- The order of fields inside a record, and so the comparison of records by their JSON text, which depends on it; records
  are compared by value.
- Values in records that JSON text does not keep (`Json.RereadIff` says which), outside the first-generation engine: the
  records of the storage engine, of indexes and of participants are taken to read back as they were written.
- Mutations of a distributed transaction that `validateMutations` lets through although they cannot be applied as
  reserved: unknown types, removals that give a record instead of an id, and puts whose id differs from that of their
  record. The mutations of the model put or remove the record they name; plans have the same content when their
  mutations are equal, where the code compares JSON text and also the spelling of the type.
- Writes to a participant's database that do not go through its guard.
- Several subscriptions handle one commit before the next one is announced.
- Numbers with a fraction: JSON numbers are integers, negative zero, the infinities and NaN. Costs, budgets and tokens are
  reals; rounding is not modelled.
- `localeCompare` and default `sort()` are the order by UTF-16 code unit.
- SHA-256 is a free constructor: digests are equal exactly when the digested values are. How a bucket name or a ring
  position is derived from a digest is an arbitrary function.
- `$gt`, `$gte`, `$lt` and `$lte` are arbitrary predicates on a value.
- `queryRecords` with order, limit, offset or projection; projections, update operators and aggregation of documents.
- Unique indexes and transactions of indexed databases that run concurrently.
- `walk` over an object operand of `$and`, `$or` or `$nor`: no record matches such a query.
- Text, geo and vector search, replica groups, regional topology, migration planning, servers, clients and billing.
- `child` names, decisions other than admit or not, scores and the `released` flag of the scheduler: a release is only
  called for an outstanding admission.
- The size-based eviction of the hot-record cache and of the cache of index buckets in `src/superior-indexed.js`: any
  subset may stay cached.
- Requests to the rate limiter that arrive at the same instant: which of several least recently touched keys goes is then
  left open, so `RateLimiterRuns.TrackedIff` supposes a clock that rises between requests.
- In the runs of `IndexRuns` every commit fits the retained log; `IndexRuns.CommitIndexedIff` says what happens otherwise.
- A reactive query re-registered under another collection: `Register` says that it stays listed under the former one, but
  the other methods of the graph speak of graphs without such a listing. Rows are a map from ids, so a change of their
  order only, as the first incremental pass may make, counts as no change. An evaluation that throws is not modelled.
- The paths `walk` collects inside conditions are a parameter of `Register`; that they lie below paths of entries is all
  that is known of them.
- Compaction gives versions afresh, so `StoreRuns` speaks of runs between compactions.
- Segment reconciliation at opening: what a crash leaves of a batch is modelled per key in `StorageCore`, not per byte.

Members that state less than the code does:

- Coordinator.DurableTransactionCoordinator.Execute: the coordinator holds its participants by value, so two coordinators
  sharing a participant are not modelled.
- Coordinator.DurableTransactionCoordinator.Recover: speaks of a recovery without a crash, while no transaction was
  executed again once its abort had begun; crashes are in the runs of `Atomicity`, the other states in
  `Outcomes.RecoverReaches`.
- DocumentStore.SegmentedDocumentStore.ApplyBatch: speaks of batches within the bucket bound; beyond it,
  `BucketIndex.BatchReadsRightIff` says what happens to the index.
- StorageDatabase.StorageDatabase.CommitTransaction: one call without a crash; interleaving and crashes are steps of
  `StorageCore`.
- DocumentStore.SegmentedDocumentStore.Reopen: between batches only; a crash inside a batch is a step of `StorageCore`.
- Wal.WriteAheadLog.Append: a line is the canonical text of the entry, not the text of `JSON.stringify`; both are one line
  that determines the entry. Write provenance is not part of an entry.
- Wal.ReadWalEntries: parsing one line is a parameter, taken as the exact inverse of printing it; `JSON.parse` and the
  comparison of the digest are not modelled beyond that.
- Wal.ParseExact: for the same reason speaks of the lines that entries print, not of other texts that `JSON.parse` reads
  as the same value.
- IndexMaintenance.RunQuery: returns the set of ids, without the order in which records come.
- Reactive.CoveredIff: exact for the fields a query looks at; a change to such a field need not change the verdict.
