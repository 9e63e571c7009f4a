# ncps, modelled and verified in Dafny

ncps is a proxy cache for Nix binary caches. Its state is shared: a relational database (`narinfos`,
`nar_files`, `chunks` and two link tables), a store of whole NAR files, a store of content-defined chunks,
and several actors that change them at the same time. This project models that core and proves what keeps
it together. `dafny verify dfyconfig.toml` checks everything.

## How the model is built

- `Database` has one field per table. Foreign keys, UNIQUE columns and AUTOINCREMENT are the predicate
  `Consistent`; cascades are part of each delete. Each `withTransaction` body is one atomic step.
- `Repository` adds the two stores and the relation `Prunes`: deletions that lose nothing a surviving row
  depends on. Eviction, stale-lock cleanup and every fsck pass are instances of it.
- `Fsck`, `FsckFixpoint` and `FsckCommand`: the meaning of the three phases as functions, what rounds of
  them preserve and converge to, and the command's loops, proved to compute those functions. `FsckOutcome` tells what
  a whole round leaves, row by row and file by file, in columns and stores alone.
- `PinnedClosure`, `Lru` and `Eviction`: the bounded search, the candidate fetch loop in 64-bit
  arithmetic, and the eviction transaction.
- `ChunkWriter` is the writer's select loop for any order of events. `ChunkingProtocol` is the shared state
  with any number of writers, takeovers, new narinfos and files, evictions and deleting passes interleaved, one
  transaction, statement or file removal at a time. `Enabled` is what the code lets happen; `Undisturbed` is the
  hypothesis under which the invariants hold. `ChunkReader` are the readers that stream while chunking goes on.
  `AttemptOutcome` is when an attempt may begin and what that does, `ReaderOutcome` when a reader fails and that it can finish.
- `Cluster` is about whole runs of both, from an empty installation; a run is careful if every step was undisturbed.
  `FsckRun` shows that a whole fsck round is such a run, `Scenarios` and `Races` exhibit particular ones: what the
  theorems speak of, and what happens when a hypothesis is broken.
- `Migration` is the move of a stored compressed NAR to chunks, driven by the same writer steps, with failures, crashes
  and reruns at every point; `MigrationLinks` follows the narinfos through it, `MigrationCases` exhibits harmful runs,
  and `MigrationProgress` shows that an interrupted migration can be run again and succeed.
- `DownloadJob`, `DownloadLock` and `TempFileReader`: one download and its wait groups, the lock and the job
  maps of all instances, and the condition variable between downloader and readers.
- `Chunker`, `CircuitBreaker` and `NarUrl`: the buffer pool, the breaker, the NAR URL grammar.

Loops, objects and in-place updates of the source are methods and classes proved against specification
functions. Protocols are step relations; a run is a datatype that lists its steps, and theorems about
runs hold for every such value. What happens outside (clock readings, failing calls, the order in which
a select is ready, the order of rows without ORDER BY) is a parameter or an arbitrary choice.

The hypotheses of the main theorems can be met: `FsckCommand.Command.Run` performs a `Round` from every consistent
state, `Eviction.Cache.RunLRU` produces the `RunOf` that its theorems assume, `Scenarios.SharedChunkSurvives` is a
careful run with two complete NARs, an eviction and an fsck round, and `ReaderOutcome.EarlyReaderGetsTheNar` is one in
which a reader comes before the first chunk and gets the whole NAR. That nothing is safe only because it is stuck is
proved too: `ReaderCanFinish`, `AttemptCanComplete`, `MigrationCanSucceed`, `JobCanCleanUp` and `LockCanBeFreed` continue
runs to their end.

## Where the code does not do what one would expect

Each of these is proved of the code as it is; where the code is safe under a condition, the condition is proved too.

- fsck findings that have grown old can delete a NAR that is whole (`StaleFindingDeletesServableNar`,
  `StaleFindingDeletesRestoredNar`); `ServableNarSurvivesIff` gives the condition. A stored whole file does not save
  a nar_file that is marked as chunked (`StoredFileOfBrokenNarIsLost`, `RoundKeepsIffServable`).
- A deleting pass cannot see a chunk that is put and not yet committed, nor, after its last look, one that is put and
  committed; such a chunk is lost (`StrayCheckTakesPendingChunk`, `EvictionTakesPendingChunk`, `CleanupTakesCommittedRow`), and an attempt that
  outlives its lock leaves a gap (`OvertakenAttemptLeavesGap`, `BatchLeavesNoGapIff`).
- The LRU fetch starts at no more than 10000 bytes, so a store whose oldest entry is larger is never cleaned
  (`LargeOldestFileBlocksEviction`). With everything pinned the fetch loop can run for ever or, with a driver that
  rejects large parameters, fail (`CandidateLoopOutcome`, `NarrowLoopOutcome`).
- Evicted narinfos that share a nar_file charge it twice (`SharedFileIsCountedTwice`, `TargetIsReachedIff`).
- Pinned closures follow 52-character prefixes while narinfo hashes have 32 characters, so references protect
  nothing (`LongPrefixesReachNoNarInfo`). The comment on the constant says otherwise; the code is followed.
- A narinfo without a nar_file is never evicted: its lookup fails with an error the loop does not expect
  (`EvictCandidates`).
- Migration takes a fresh lock on an unfinished nar_file for a finished migration, even its own from before a crash, and
  deletes the only whole copy (`CrashThenRerunLosesNar`, `FreshLockLosesNar`). It declares no size, so a truncated stream
  costs the copy too (`TruncatedStreamLosesNar`); `WholeFileGoneIsChunkedIff` says when it is safe.
- A migration whose relink is skipped, fails or comes after the rename leaves narinfos behind
  (`SkippedRelinkStrandsNarInfo`, `RelinkAfterRenameUnlinks`, `NarInfoIsRelinkedIff`). It may also remove another NAR's
  zstd file (`ZstdVariantSurvivesIff`), as eviction may remove another NAR's file (`SurvivorLosesFileIff`).
- A prefetch cancelled while it feeds the channel ends a stream silently, and without a declared size a truncated NAR
  is read as complete (`SilentCancelTruncates`, `TruncatedTotalTruncates`, `RecordedTotalDecides`).
- An empty download never ends for its readers (`EndIsSeenIffNotEmpty`), and a reader that gives up before
  streaming keeps the temp file for ever (`AbandonedReaderKeepsFile`, `CleanerGoesOnIff`).

## Model

| member | source | states |
|---|---|---|
| `Database.RowsAreNumbered` | pkg/database/generated_querier.go:220-228 | rows that are a prefix of a listing are returned by the ordered query with consecutive indices from the requested one, and with every such row |
| `Database.QueryReturnsSegment` | pkg/database/generated_querier.go:212-228 | for such rows the ordered query returns exactly the segment of the listing that starts at its index |
| `Database.QueryReturnsAllRows` | pkg/database/generated_querier.go:212-219 | for any rows, gaps included: the query for all chunks returns one entry per row of the nar_file, and exactly the chunks those rows lead to |
| `Database.CreateNarFile` | pkg/database/generated_querier.go:69-90 | the upsert keeps foreign keys, UNIQUE columns and ids consistent and every existing row as it is; a new row appears only if the key was free, with the next id and the columns of an unchunked NAR |
| `Database.EnsureOutcome` | pkg/cache/cache.go:1404-1450 | afterwards the row with that key, old or new, has the written size; no other column or row has changed |
| `Database.BatchRows` | pkg/database/generated_querier.go:427-434 | a batch stands for exactly the consecutive slots from its start index, each with its own chunk |
| `Repository.PruningKeepsRows` | pkg/ncps/fsck.go:1557-1580 | no deleting pass changes the chunk rows of a surviving nar_file or makes its chunks broken |
| `Repository.PruningKeepsServable` | pkg/ncps/fsck.go:1112-1354 | a servable NAR that a deleting pass spares stays servable |
| `Repository.PruningKeepsMismatches` | pkg/database/generated_querier.go:181-191 | no deleting pass creates a size mismatch |
| `Repository.SweepChunksPrunes` | pkg/ncps/fsck.go:1433-1458 | the closing chunk sweep of a repair takes no chunk that a row uses and leaves no unused one |
| `Repository.DeleteFilesAndInfosPrunes` | pkg/ncps/fsck.go:1393-1431 | deleting nar_files and the narinfos they orphan deletes exactly those nar_files and breaks no survivor |
| `Repository.ChunksBrokenIff` | pkg/ncps/fsck.go:1557-1580 | on the rows and the chunk store: the check is true iff the number of rows differs from the given total or some row leads to a chunk that is not stored |
| `Fsck.RepairPrunes` | pkg/ncps/fsck.go:1112-1354 | whatever the findings, all repair passes together only prune: survivors keep columns, links, chunk rows and bytes |
| `Fsck.ServableNarSurvivesIff` | pkg/ncps/fsck.go:1112-1554 | for findings of any age, a linked servable NAR survives the repair if and only if it is not listed as missing while its whole file is absent, nor listed as broken under an id whose re-check fails |
| `Fsck.SoundFindingsCondemnNothing` | pkg/ncps/fsck.go:770-987 | findings that are genuine for the state they are applied to condemn no servable NAR |
| `Fsck.ServableNarSurvivesRound` | pkg/ncps/fsck.go:457-987 | a complete round keeps every servable NAR with its narinfo, nar_file, chunk rows and bytes, however its chunks are shared |
| `Fsck.ServableNarSurvivesRounds` | pkg/ncps/fsck.go:1112-1579 | the same over any number of rounds |
| `Fsck.PruningShrinksIssues` | pkg/ncps/fsck.go:1112-1354 | repairs create no missing, broken or mismatched nar_file |
| `Fsck.StampKeepsQueries` | pkg/ncps/fsck.go:457-766 | marking rows verified between the queries changes the answer of none of them |
| `FsckFixpoint.RepairCleansRows` | pkg/ncps/fsck.go:1112-1354 | a repair driven by complete findings empties every issue category of the database |
| `FsckFixpoint.RepairOnCleanRows` | pkg/ncps/fsck.go:1112-1354 | on rows in order a repair removes exactly the stray NAR and chunk files |
| `FsckFixpoint.RoundCleansRows` | pkg/ncps/fsck.go:457-987 | one round empties every database-side category |
| `FsckFixpoint.TwoRoundsCleanEverything` | pkg/ncps/fsck.go:457-1354 | two rounds empty all categories, stray files included |
| `FsckFixpoint.CleanRoundOnlyStamps` | pkg/ncps/fsck.go:457-766 | a round on a clean repository reports nothing and changes only verified_at |
| `FsckFixpoint.RoundKeepsIffServable` | pkg/ncps/fsck.go:457-1554 | a round keeps a linked nar_file if and only if it is servable: whole file stored while total_chunks is 0, or a complete and size-consistent chunk set |
| `FsckFixpoint.RoundsKeepIffServable` | pkg/ncps/fsck.go:457-1554 | the same for any number of rounds, judged by the state before the first |
| `FsckFixpoint.LinksShareFate` | pkg/ncps/fsck.go:1112-1554 | all narinfos linked to one nar_file keep or lose it together |
| `FsckFixpoint.StoredFileOfBrokenNarIsLost` | pkg/ncps/fsck.go:1373-1458 | with total_chunks above 0 a stored whole file does not count: if the chunks are broken, round one deletes the nar_file and round two the file |
| `FsckFixpoint.OrphanRecordLeavesStray` | pkg/ncps/fsck.go:1141-1168 | one round is not enough: an orphaned record with a stored file always leaves a stray file behind |
| `FsckFixpoint.StaleFindingDeletesServableNar` | pkg/ncps/fsck.go:1184-1209 | a NAR reported missing while it was being chunked is deleted although its chunks are now complete |
| `FsckFixpoint.StaleFindingDeletesRestoredNar` | pkg/ncps/fsck.go:1392-1411 | a broken NAR deleted and stored again after it was reported is deleted by key although it is whole |
| `FsckOutcome.CategoriesInColumns` | pkg/ncps/fsck.go:457-766 | missing, broken and size-mismatched nar_files are told by total_chunks, the stores, the number of rows and where they lead, and the sizes linked narinfos declare |
| `FsckOutcome.RoundOutcome` | pkg/ncps/fsck.go:393-1579 | the whole outcome of a round: exactly the links to healthy nar_files stay, with the narinfos and nar_files at their ends (stamped, otherwise unchanged), their chunk rows and the chunks these use; a stored NAR goes iff no nar_file named it; a chunk file stays iff its chunk is still used or had a record that was already unused |
| `FsckCommand.Command.IsChunkBroken` | pkg/ncps/fsck.go:1557-1580 | the loop decides whether the row count differs from the given total or some chunk is not stored |
| `FsckCommand.Command.Collect` | pkg/ncps/fsck.go:457-766 | the collecting loops list every issue of every category and nothing else, and stamp exactly the healthy nar_files |
| `FsckCommand.Command.ReVerify` | pkg/ncps/fsck.go:770-987 | keeps exactly those suspects that still show their issue |
| `FsckCommand.ReVerifiedIff` | pkg/ncps/fsck.go:770-987 | whatever happened since the collection, each list keeps exactly the entries that are issues now, told by links, keys, rows, sizes and stores |
| `FsckCommand.ReVerifyKeepsCollected` | pkg/ncps/fsck.go:770-987 | with nothing else running, re-verification drops nothing |
| `FsckCommand.Command.RepairIssues` | pkg/ncps/fsck.go:1112-1354 | deleting row by row and file by file, with re-checks on the changing state, equals the set-at-a-time repair |
| `FsckCommand.Command.RepairBrokenFiles` | pkg/ncps/fsck.go:1373-1458 | the broken pass, its narinfo cascade and its chunk sweep, against the state it started from |
| `FsckCommand.Command.RepairMismatchedFiles` | pkg/ncps/fsck.go:1460-1554 | the size-mismatch pass, which does nothing at all on an empty list |
| `FsckCommand.Command.Run` | pkg/ncps/fsck.go:393-455 | the command performs one round in the sense of the theorems above |
| `PinnedClosure.GetPinnedClosureHashes` | pkg/cache/cache.go:6843-6926 | the search returns exactly the hashes within maxDepth references of a pinned root, and every hash enters the queue at most once |
| `PinnedClosure.WithinIffReaches` | pkg/cache/cache.go:6843-6926 | its levels are exactly bounded reachability by walks along references |
| `PinnedClosure.EdgeIff` | pkg/cache/cache.go:6885-6911 | the search goes from a hash exactly to the beginnings, of the given length, of the references of the narinfo with that hash |
| `PinnedClosure.LongPrefixesReachNoNarInfo` | pkg/cache/cache.go:6838-6911 | with a prefix length that no narinfo hash has (52 against 32) references protect no narinfo |
| `Lru.SelectCandidates` | pkg/cache/cache.go:5337-5399 | the fetch loop, in 64-bit arithmetic, ends at the first bound that stops it, or is shown to repeat itself for ever |
| `Lru.BoundIsPower` | pkg/cache/cache.go:5355-5399 | the k-th bound is f * 2^k modulo 2^64 |
| `Lru.LeastUsedIff` | pkg/database/generated_querier.go:237-255 | a narinfo is selected iff the nar_files linked by narinfos accessed earlier, or at the same time with no larger id, add up to no more than the bound |
| `Lru.OldestFirst` | pkg/database/generated_querier.go:237-255 | with a narinfo goes every one accessed earlier, or at the same time with a smaller id |
| `Lru.NeverAccessedGoesFirst` | pkg/database/generated_querier.go:237-255 | a narinfo without an access time is selected by every bound |
| `Lru.FirstFetchIsCapped` | pkg/cache/cache.go:5337-5353 | for every 64-bit cleanup size, overflow of the doubling included, the first bound is twice the size but at most 10000 |
| `Lru.CandidateLoopOutcome` | pkg/cache/cache.go:5337-5399 | with a driver that takes any uint64 and sizes below 2^63: candidates are found iff the first fetch is not empty and something is unpinned, and are those of the first bound f * 2^k that reaches an unpinned narinfo, without overflow; the loop hangs iff everything is pinned and a zero bound still selects something |
| `Lru.NarrowLoopOutcome` | pkg/cache/cache.go:5362-5399 | with a driver that rejects uint64 values with the high bit set the loop never hangs; it fails iff the first fetch is not empty and no bound below 2^63 selects anything unpinned, and otherwise finds what the first such bound selects |
| `Lru.LargeOldestFileBlocksEviction` | pkg/cache/cache.go:5337-5374 | with the first bound capped at 10000 bytes, a store whose oldest entry is larger is never cleaned |
| `Lru.SizeOfMonotone` | pkg/database/generated_querier.go:358-362 | sums of file sizes grow with the set and stay within the total |
| `Lru.DeletedSizesLeave` | pkg/database/generated_querier.go:158-165 | the total falls by exactly the sizes of the deleted nar_files |
| `Eviction.EvictionKeepsSurvivors` | pkg/cache/cache.go:5478-5545 | after a committed eviction every survivor has exactly its nar_files and chunk rows, nothing unlinked remains, and sizes are conserved |
| `Eviction.EvictionLeaves` | pkg/cache/cache.go:5403-5546 | row by row: a nar_file stays iff a narinfo that was not evicted links it, a chunk row iff its nar_file does, and with CDC a chunk iff a row that stays uses it |
| `Eviction.RemovedFilesAreNamed` | pkg/cache/cache.go:5489-5560 | the narinfo files removed are named by the narinfos that are gone, the NAR files by the nar_files that are gone, without their query |
| `Eviction.EvictionSparesPinned` | pkg/cache/cache.go:5411-5417 | no pinned narinfo is lost |
| `Eviction.TargetIsReached` | pkg/cache/cache.go:5411-5460 | if distinct charged nar_files, each linked only by evicted narinfos, add up to the cleanup size, the total after commit is within maxSize |
| `Eviction.TargetIsReachedIff` | pkg/cache/cache.go:5478-5505 | whatever was charged, the total after commit is within maxSize iff the nar_files linked by no survivor are as large as the excess |
| `Eviction.RunReachesTarget` | pkg/cache/cache.go:5292-5505 | so a committed run that collected enough over unshared nar_files ends within the limit, past-the-target candidates included |
| `Eviction.RunEvicts` | pkg/cache/cache.go:5403-5460 | a committed run evicts exactly the unpinned and linked narinfos among the candidates it handled |
| `Eviction.RunStops` | pkg/cache/cache.go:5403-5460 | it leaves candidates unhandled only when the charged files have the size to clean up and fewer than all but one candidates are evicted, and it went on after no charge at which both held |
| `Eviction.RunEndsWithinLimitIff` | pkg/cache/cache.go:5292-5505 | a committed run over unshared nar_files ends within maxSize iff the nar_files that only its evictable candidates link to, or nobody, are as large as the excess |
| `Eviction.RunSparesPinned` | pkg/cache/cache.go:5620-5686 | a committed run keeps every pinned narinfo |
| `Eviction.SharedFileIsCountedTwice` | pkg/cache/cache.go:5419-5460 | a concrete run of the whole LRU pass: it evicts two narinfos that share a nar_file, counts it twice, commits as done and leaves the store over its limit |
| `Eviction.SuchTablesExist` | pkg/cache/cache.go:5419-5460 | the tables of that run are consistent |
| `Eviction.Cache.CalculateCleanupSize` | pkg/cache/cache.go:5292-5322 | nothing to clean up to maxSize, the excess above it, an error past the signed 64-bit range |
| `Eviction.Cache.EvictCandidates` | pkg/cache/cache.go:5403-5460 | evicts exactly the evictable ones among the candidates handled; leaves some unhandled only with at least the cleanup size collected and fewer than all but one evicted, and never went on past such a point |
| `Eviction.Cache.DeleteLRURecords` | pkg/cache/cache.go:5326-5546 | candidates, evictions and sweeps of one transaction |
| `Eviction.Cache.RunLRU` | pkg/cache/cache.go:5620-5717 | the run leaves everything unchanged or commits the eviction and then removes exactly the narinfo files, NAR files and chunk files of what it deleted |
| `Eviction.SurvivorLosesFileIff` | pkg/cache/cache.go:5489-5497 | the stored file of a surviving nar_file is removed all the same iff its URL has no query and a freed one differs from it by its query alone |
| `ChunkWriter.Writer.Run` | pkg/cache/cache.go:1936-2084 | for every sequence of select events the loop reaches the progress Replay gives, with the database and chunk store that progress stands for |
| `ChunkWriter.EveryOrderOfEvents` | pkg/cache/cache.go:1936-2084 | for every order of events, all that changes in the database: rows 0..k-1 in stream order, their chunks, and the row of the nar_file, unlocked at the end and on completion with the number and bytes of all chunks received, which is the declared size if there was one; at most 100 chunks wait |
| `ChunkWriter.StillRunning` | pkg/cache/cache.go:1936-2084 | until an event ends it, an attempt holds what was delivered, and of that all is committed but what came since the timer fired, less every full hundred |
| `ChunkWriter.FirstEndDecides` | pkg/cache/cache.go:1946-2083 | the first event that can end an attempt decides it: completed iff it is the end of the stream, the last batch and the final update commit, and the declared size is 0 or that of what was delivered; otherwise failed, with what is committed then |
| `ChunkWriter.AttemptLeavesPrefix` | pkg/cache/cache.go:1894-1904 | however an attempt ends, its rows are the first committed chunks of the stream |
| `ChunkWriter.RecordedRows` | pkg/cache/cache.go:2274-2310 | on a nar_file without rows a recorded list is exactly the rows 0, 1, 2, ... and other nar_files are untouched |
| `ChunkWriter.RecordTwice` | pkg/cache/cache.go:2274-2310 | two adjacent batches equal one longer batch, although inserts keep existing rows |
| `ChunkWriter.BatchAdds` | pkg/cache/cache.go:2274-2310 | a batch adds its chunks and its rows from the start index on, and changes no row that is there |
| `ChunkWriter.Writer.RecordChunkBatch` | pkg/cache/cache.go:2274-2310 | all or nothing, and nothing to do cannot fail |
| `ChunkWriter.Writer.Step` | pkg/cache/cache.go:1946-2083 | one turn of the select keeps the batch equal to what was received and not committed |
| `ChunkWriter.Writer.OnClose` | pkg/cache/cache.go:1970-2013 | completion is committed only after the last batch and only for the declared size |
| `ChunkingProtocol.StepKeepsBytes` | pkg/cache/cache.go:2046-2250 | every undisturbed step of writers, takeovers, LRU runs and deleting passes, which list chunks first and then delete records and files one by one, keeps each row leading to a record with stored bytes |
| `ChunkingProtocol.StepKeepsWriter` | pkg/cache/cache.go:2097-2197 | every step but those of an overtaken attempt keeps the rows of every nar_file a prefix of its chunk list and totals true |
| `ChunkingProtocol.StepKeepsInv` | pkg/cache/cache.go:1838-2250 | both together, for all interleavings in which no chunk is put while a deleting pass has it on its list, or listed while it is put and not committed, and overtaken attempts have stopped |
| `ChunkingProtocol.DeletionPrunes` | pkg/cache/cache.go:2205-2250 | deleting a listed chunk record takes no row with it, although the delete cascades |
| `ChunkingProtocol.DeclaredSizeRulesOutTruncation` | pkg/cache/cache.go:1974-1990 | a stream prefix has the declared size iff it is the whole stream |
| `ChunkingProtocol.BatchExtendsPrefix` | pkg/database/generated_querier.go:427-434 | a batch starting where the committed rows end extends the prefix even over leftover rows of a failed attempt |
| `ChunkingProtocol.BatchLeavesNoGapIff` | pkg/database/generated_querier.go:427-434 | a batch leaves the rows a prefix iff it starts at 0 or right after a row |
| `AttemptOutcome.BeginIff` | pkg/cache/cache.go:2097-2195 | an attempt begins iff the nar_file with the key is not complete and not locked in the last hour, or there is none and a new one is made |
| `AttemptOutcome.BeginOutcome` | pkg/cache/cache.go:2097-2195 | its transaction locks the row and sets the size, deletes the rows of a nar_file whose old lock it takes over, remembers their chunks, and changes nothing else |
| `AttemptOutcome.CleanupLists` | pkg/cache/cache.go:2205-2254 | the cleanup after a takeover lists exactly those of the remembered chunks that no row uses |
| `AttemptOutcome.NextAttemptIff` | pkg/cache/cache.go:1904-1927 | after a failure the next attempt may begin at once, after a crash only once the lock is an hour old |
| `ChunkReader.MoveKeepsInv` | pkg/cache/cache.go:6230-6515 | every move of producer, channel and consumer keeps the reader's invariant, whatever happened to the tables in between |
| `ChunkReader.EmitsPrefix` | pkg/cache/cache.go:6304-6515 | what a reader has emitted is a prefix of the NAR |
| `ChunkReader.FinishEmitsTotal` | pkg/cache/cache.go:6193-6300 | a nil finish without cancellation has emitted at least the recorded total, and the whole NAR when its attempts declare the size |
| `ChunkReader.RightTotalIsWhole` | pkg/cache/cache.go:6193-6300 | on either path an uncancelled success over a recorded total that is the length of the NAR has emitted the whole NAR |
| `ChunkReader.CompletePathIsWholeIff` | pkg/cache/cache.go:6193-6300 | a reader opened on a complete nar_file: an uncancelled success is the whole NAR iff the recorded total is the length of the NAR |
| `ReaderOutcome.MoveTroublesIff` | pkg/cache/cache.go:6193-6515 | a move brings a reader into trouble iff it finds a cause: on the progressive path a row that is gone or has neither total nor lock, or a time-out without a total; on the complete path another number of rows than recorded; a chunk that cannot be fetched or copied; a cancellation |
| `ReaderOutcome.TroubledIff` | pkg/cache/cache.go:6193-6515 | over every run: a reader has an error in its channel, on the way there or reported iff one of its moves found such a cause |
| `ReaderOutcome.ReaderCanFinish` | pkg/cache/cache.go:6193-6515 | in every careful run a reader that met no error, of a NAR that is complete by now, can go on to finish with the whole NAR, wherever it has come to and whichever path it is on |
| `ReaderOutcome.AttemptCanComplete` | pkg/cache/cache.go:1946-2083 | an attempt at the whole NAR with no deleting pass under way can go on to complete it |
| `ReaderOutcome.EarlyReaderGetsTheNar` | pkg/cache/cache.go:6304-6515 | a run for every NAR: a reader comes before the first chunk is recorded, waits, and finishes with the whole NAR |
| `Cluster.RunKeepsInv` | pkg/cache/cache.go:1838-2250 | the invariants of shared state and readers hold after every careful run |
| `Cluster.RowsAlwaysLeadToBytes` | pkg/cache/cache.go:2046-2082 | in every careful run from an empty installation every nar_file_chunks row points to a record with stored bytes |
| `Cluster.ReadersEmitTheNar` | pkg/cache/cache.go:6193-6515 | in every careful run each reader has emitted a prefix of its NAR, and exactly the NAR if it finished uncancelled and that nar_file's attempts declare the size |
| `Cluster.RecordedTotalDecides` | pkg/cache/cache.go:6193-6515 | both, for every reader in every careful run, declared sizes or not |
| `Cluster.CompleteNarsHaveTheirRows` | pkg/cache/cache.go:1992-2013 | in every careful run a nar_file marked complete has its first total rows in order with their bytes stored, and the whole list if its attempts declare the size |
| `Cluster.LinkedNarStaysWhole` | pkg/cache/cache.go:5411-5545 | however a careful run goes on, a linked complete NAR keeps link, total, rows and bytes as long as no step deletes its own narinfo or nar_file, whoever shares its chunks |
| `Cluster.StepSparesNar` | pkg/cache/cache.go:5478-5545 | one such step |
| `FsckRun.RoundIsARun` | pkg/ncps/fsck.go:1112-1579 | while no attempt has uncommitted chunks a whole fsck round is a run of single statements and file removals, with exactly the outcome of the round |
| `Scenarios.RoundInRunSpares` | pkg/ncps/fsck.go:1112-1579 | such a round, at any point of a careful run while nobody chunks, keeps every linked servable NAR |
| `Scenarios.SharedChunkSurvives` | pkg/cache/cache.go:5478-5545 | from an empty installation: two NARs share a chunk, one is evicted, fsck runs, and the other is still linked with all its rows and bytes |
| `Races.StrayCheckTakesPendingChunk` | pkg/ncps/fsck.go:1331-1352 | a run: a chunk is put, fsck removes it as stray, the batch is committed, and its row has no bytes |
| `Races.EvictionTakesPendingChunk` | pkg/cache/cache.go:5516-5617 | from any good state: evicting a chunk that an attempt still has to link, removing its file and committing leaves a row without bytes |
| `Races.CleanupTakesCommittedRow` | pkg/cache/cache.go:2222-2249 | a run: between the listing of a stale chunk and the delete of its record another attempt commits it, and the cascade leaves a gap, though nothing is pending at either moment |
| `Races.OvertakenAttemptLeavesGap` | pkg/cache/cache.go:2155-2197 | a run: a lock is taken over after an hour, the first attempt goes on, and the rows have a gap |
| `Races.SilentCancelTruncates` | pkg/cache/cache.go:6244-6277 | a run: a reader cancelled while its producer feeds the channel reports success without a byte |
| `Races.TruncatedTotalTruncates` | pkg/cache/cache.go:1970-2005 | a run: without a declared size a stream that ends early is recorded as complete, and an uncancelled reader reports success on part of the NAR |
| `Migration.WholeFileGoneIsChunkedIff` | pkg/cache/cache.go:6519-6701 | in every run, whatever fails, crashes and is run again at whatever time: when the whole file is gone, the rows are the whole list, as many as recorded and all stored, iff the last stream finished was as long as the NAR; that is, the last stream begun was not truncated and the cleanup was not entered by the already-exists exit for a locked, unfinished nar_file |
| `Migration.RunKeepsMigration` | pkg/cache/cache.go:6519-6630 | in every run the row of the uncompressed form records exactly the length of the last stream finished, and the cleanup is entered only after one or by the already-exists exit |
| `Migration.ExitIsRightIff` | pkg/cache/cache.go:2154-2165 | where the already-exists exit is taken the row is complete or its lock is less than an hour old, and only the first is a NAR in chunks |
| `Migration.OwnWorkIsUndisturbed` | pkg/cache/cache.go:2205-2250 | alone, a migration never puts a chunk that its own stale cleanup is about to delete |
| `Migration.CleanupIsIdempotent` | pkg/cache/cache.go:6632-6701 | rename and removal may each be repeated, in any order and any number of times |
| `Migration.CleanupRemoves` | pkg/cache/cache.go:6632-6700 | the cleanup removes exactly one stored name: the original if it is there or itself a zstd file, otherwise its zstd variant |
| `MigrationLinks.CrashesAfterRelinkRecoverIff` | pkg/cache/cache.go:6519-6701 | for every run after the relink commit, with any crashes and failed renames, a rerun that gets to the removal leaves what the uninterrupted run leaves iff some rename committed or there was nothing to rename |
| `MigrationLinks.RerunsOnlyClean` | pkg/cache/cache.go:6632-6701 | at every moment of such a run the state is decided by whether a rename has committed and whether the removal was done |
| `Migration.RelinkedFiles` | pkg/cache/cache.go:2018-2041 | the relink transaction changes the links of a narinfo exactly by its URL |
| `Migration.MigrationRelinksByURL` | pkg/cache/cache.go:2258-2272 | after the whole migration each narinfo has its other links and, iff its URL was the old one, the new nar_file and the new URL |
| `MigrationLinks.NarInfoIsRelinkedIff` | pkg/cache/cache.go:2018-2041 | in every run a narinfo whose only nar_file was the old one is linked to the uncompressed one iff a relink committed before any rename; otherwise to the old one or, if a relink came later, to none |
| `MigrationLinks.NarInfoIsServedIff` | pkg/cache/cache.go:6519-6701 | in every run, once the whole file is gone, the narinfo leads to the whole NAR in chunks iff it was relinked in time and the last stream finished was as long as the NAR |
| `MigrationCases.SkippedRelinkStrandsNarInfo` | pkg/cache/cache.go:2035-2041 | runs: a crash before the relink or a failed relink, then the cleanup; the narinfo's only nar_file has neither file nor chunks |
| `MigrationCases.RelinkAfterRenameUnlinks` | pkg/cache/cache.go:2258-2272 | a run: a rename without chunks, a crash, and a later migration whose relink finds no narinfo under the old URL; the narinfo ends without any nar_file |
| `MigrationCases.CrashThenRerunLosesNar` | pkg/cache/cache.go:1874-1885 | a run: a crash while the whole stream is being chunked and a rerun within the hour; the already-exists exit lets the cleanup delete the only copy |
| `MigrationCases.FreshLockLosesNar` | pkg/cache/cache.go:2154-2165 | from any idle point of a run before a stream is finished: anybody's fresh lock on the unfinished nar_file costs the only copy |
| `MigrationCases.TruncatedStreamLosesNar` | pkg/cache/cache.go:1793-1796 | a run: no size is declared, the stream ends after one chunk, the migration records it as complete and deletes the only whole copy |
| `MigrationProgress.FailureUnlocks` | pkg/cache/cache.go:1904-1927 | a migration that fails while chunking gives its lock back, so that the next attempt may begin at once |
| `MigrationProgress.MigrationCanSucceed` | pkg/cache/cache.go:6519-6701 | whatever failed or crashed before: while the whole file is there, no stream was finished and nobody holds a fresh lock, a rerun can do the whole migration; the file is then gone, the chunks are the NAR, and the narinfos are relinked unless a rename had come first |
| `Migration.ZstdVariantSurvivesIff` | pkg/cache/cache.go:6676-6701 | a zstd file stored under the same hash survives the cleanup iff the original is still there to be removed |
| `DownloadJob.RunKeepsInv` | pkg/cache/cache.go:2312-2622 | in every interleaving each wait group counts exactly its users and each exit path owes exactly its closings |
| `DownloadJob.MoveOutcome` | pkg/cache/cache.go:2491-2509 | signals only rise and the key is given up exactly once |
| `DownloadJob.SignalsIff` | pkg/cache/cache.go:2312-2622 | in every run each signal is up iff one of its events occurred; stored iff the store took the NAR or its nar_file was ready |
| `DownloadJob.PathsIff` | pkg/cache/cache.go:2446-2622 | a chunker is there iff one was spawned, and nothing counts as stored before a stream ended without error or a chunker was spawned |
| `DownloadJob.JobCanCleanUp` | pkg/cache/cache.go:2312-2622 | from every state in which no reader returned early a job can come to its end: file gone, channels closed, key free |
| `DownloadJob.FileOutlivesItsUsers` | pkg/cache/cache.go:2418-2445 | the temp file is removed only when download, chunking and every admitted reader are over |
| `DownloadJob.NoLateReaders` | pkg/cache/cache.go:1061-1083 | once it may be removed no reader is admitted, then or later |
| `DownloadJob.EveryExitCleansUp` | pkg/cache/cache.go:2312-2622 | on every exit path start and done are closed, start exactly once, and the key is out of the job map |
| `DownloadJob.NothingIsClosedTwice` | pkg/cache/cache.go:2312-2622 | start and done are closed and the key is removed at most once |
| `DownloadJob.AbandonedReaderKeepsFile` | pkg/cache/cache.go:1061-1140 | once an admitted reader has returned early, the temp file is never removed in any continuation of the run |
| `DownloadJob.CleanerGoesOnIff` | pkg/cache/cache.go:2418-2445 | with no reader left the cleaner goes on iff no reader returned early |
| `DownloadLock.LiveJobHoldsLock` | pkg/cache/cache.go:4909-5104 | a job neither stored nor done has a caller of its instance holding the lock |
| `DownloadLock.AtMostOneLiveJob` | pkg/cache/cache.go:4909-5104 | across all instances at most one such job exists |
| `DownloadLock.JoinsIff` | pkg/cache/cache.go:4909-5060 | a caller joins without the lock, and with the lock starts no new job, iff its instance has a job that has not removed its key |
| `DownloadLock.LockCanBeFreed` | pkg/cache/cache.go:4950-5104 | in every run whoever holds the lock can go on until it is free, with nobody moving but itself and its job |
| `DownloadLock.JobMapListsUnfinishedJobs` | pkg/cache/cache.go:5012-5104 | the job map of an instance lists exactly its job that has not removed itself |
| `TempFileReader.FileAvailableReader.Read` | pkg/cache/cache.go:464-502 | each call returns the next bytes of the file, never past bytesWritten, or the verdict the shared state calls for |
| `TempFileReader.ReadersGetTheFile` | pkg/cache/cache.go:464-502 | in every interleaving a reader has the file's bytes in order and sees EOF after exactly finalSize bytes |
| `TempFileReader.DecideIff` | pkg/cache/cache.go:464-502 | a call returns as many bytes as are there and fit; it sleeps, fails or reports the end iff there is nothing to return, by what the state says |
| `TempFileReader.ReaderCanFinish` | pkg/cache/cache.go:464-502 | after a download that ended without an error, of a file that is not empty, every reader can go on to EOF with the whole file |
| `TempFileReader.NoLostWakeUp` | pkg/cache/cache.go:1617-1659 | a reader sleeps on bytes, a final size or an error only while a broadcast is still to come |
| `TempFileReader.EndIsSeenIffNotEmpty` | pkg/cache/cache.go:470-502 | the end of a download is seen iff the file is not empty; an empty one leaves readers asleep |
| `Chunker.CDCChunker.GetBuffer` | pkg/chunker/chunker.go:117-125 | no buffer is handed out that a live chunk still uses |
| `Chunker.CDCChunker.Emit` | pkg/chunker/chunker.go:81-160 | a chunk holds its piece at the offset of the bytes its stream handed out before, and the live chunks of all streams keep theirs |
| `Chunker.CDCChunker.Free` | pkg/chunker/chunker.go:29-33 | only the first call returns the buffer |
| `Chunker.ChunkAll` | pkg/chunker/chunker.go:81-160 | for any splitter, and whatever other streams hold, the chunks hold the pieces at their offsets, all at the same time, and together are the stream |
| `Chunker.ChunkBoth` | pkg/chunker/chunker.go:81-160 | two streams through one pool in any order of turns each keep their chunks, pieces and own offsets |
| `CircuitBreaker.Breaker.AllowRequest` | pkg/circuitbreaker/circuit_breaker.go:109-131 | admits iff closed or the timeout has passed, and then restarts the timeout |
| `CircuitBreaker.Breaker.RecordFailure` | pkg/circuitbreaker/circuit_breaker.go:86-96 | counts, and opens or re-opens at the threshold |
| `CircuitBreaker.Breaker.GetState` | pkg/circuitbreaker/circuit_breaker.go:134-147 | half-open exactly when an open breaker would admit |
| `CircuitBreaker.OpenIffThresholdReached` | pkg/circuitbreaker/circuit_breaker.go:70-161 | in every run with a monotone clock openedAt is set iff the failures reach the threshold |
| `CircuitBreaker.OpenIffFailed` | pkg/circuitbreaker/circuit_breaker.go:70-161 | in every run it is open iff it was forced open, or as many failures as the threshold (5 by default) came, since the last success |
| `CircuitBreaker.TrialsAreSpaced` | pkg/circuitbreaker/circuit_breaker.go:109-131 | n admissions while open without a success move openedAt by at least n timeouts |
| `CircuitBreaker.AdmissionsAreApart` | pkg/circuitbreaker/circuit_breaker.go:109-131 | two admissions while open without a success between them are at least the timeout apart |
| `CircuitBreaker.AdmissionsAreFew` | pkg/circuitbreaker/circuit_breaker.go:109-131 | at most T / timeout requests are admitted in the T units after the breaker opened |
| `CircuitBreaker.AdmissionsInAnyWindow` | pkg/circuitbreaker/circuit_breaker.go:109-131 | in any window of length T without a success at most T / timeout + 1 requests are admitted while open |
| `NarUrl.ParseIffSpells` | pkg/nar/url.go:28-82 | ParseURL accepts a string as a URL iff the string is spelled by the grammar [dir/]hash.nar[.ext][/][?query] for that URL |
| `NarUrl.RoundTripIff` | pkg/nar/url.go:105-130 | printing then parsing gives a URL back iff its hash is valid, its compression named, its query round-trips and its transparent-zstd flag is off |
| `NarUrl.ReprintIsStable` | pkg/nar/url.go:28-115 | an accepted string can be printed, and re-parses to the same URL iff its query survives the library's encoding |
| `NarUrl.DirectoriesDoNotMatter` | pkg/nar/url.go:24-43 | directories in front of an accepted string change nothing |
| `NarUrl.NormalizeIffValid` | pkg/nar/url.go:135-163 | Normalize succeeds iff ValidateHash accepts, and strips exactly the 33-character prefix when present |
| `NarUrl.NormalizeIsIdempotent` | pkg/nar/url.go:135-163 | the result has no prefix left and normalizes to itself |
| `NarUrl.ValidHashForms` | pkg/nar/hash.go:16-48 | the strict pattern accepts a normalized hash, one after a prefix, and nothing else |
| `NarUrl.ValidHashIff` | pkg/nar/hash.go:16-48 | on the characters: 52 of the Nix alphabet or 64 hexadecimal digits, alone or after 32 of the Nix alphabet and a dash or underscore |
| `NarUrl.LenientMatches` | pkg/nar/hash.go:27-37 | the lenient capture exists iff the lenient pattern matches |
| `NarUrl.ExtensionRoundTrip` | pkg/nar/compression_type.go:26-71 | reading an extension undoes writing it exactly for the named compression types; only other names and "" fail |
| `NarUrl.ExtensionTable` | pkg/nar/compression_type.go:26-71 | which extension is read as which compression and which is written for it, and that no other is known |

## Left out

- HTTP server, upstream clients, health checks, retries, metrics, logging, signatures and command-line flags.
- Hashing and codecs: a chunk's bytes are a fixed function of its hash, and the splitter is any sequence of pieces of at most maxSize bytes.
- The surrogate id of `chunks`, whose rows are identified by their UNIQUE hash, and the narinfo columns that no modelled query reads.
- The `.nar.zst` alias of uncompressed NARs, and file paths without a query: a stored NAR is identified by its exact key.
- Lazy chunking and its cron jobs, where the relink step is skipped.
- fsck's verify-content passes and the verified-since window.
- Lock backends and lock expiry: the download lock is exclusive and does not expire, and no instance crashes while holding it.
- The narinfo variant of coordinateDownload, and the plain temp-file loop of GetNar beside fileAvailableReader.
- Time-outs and delays: they are steps that may happen at any moment, and nothing is said about how soon.
- A failing removal of a migrated NAR's file, after which the source goes on to the zstd variant.
- A failing query of a streaming reader; it ends the stream as a missing row does.
- Storage and database errors in the middle of a phase of fsck or of an eviction: a failing transaction is rolled back, a failing command stops.
- ChunkingProtocol.StepKeepsInv: holds for undisturbed steps only. From the moment a deleting pass lists a chunk until it is done with it, no attempt may have put it without committing it, and none may put it; and an attempt whose lock was taken over takes no further step. `Races` shows that each part is needed.
- FsckRun.RoundIsARun: covers a round during which nothing else runs; interleaved with other steps, its statements and file removals are the deleting steps of ChunkingProtocol, whose re-checks are not part of the model there.
- ChunkWriter.Writer.Run: the total size is unbounded where the source adds in a signed 64-bit integer.
- DownloadLock.AtMostOneLiveJob: covers NAR downloads, which keep the lock until stored or done.
- NarUrl.ReprintIsStable: query parsing and encoding belong to the Go library and are parameters.
- Migration.WholeFileGoneIsChunkedIff: of other attempts on the same NAR only the lock they hold is there; what they do meanwhile is not.
- All attempts on one nar_file stream prefixes of one chunk list (`Env.nar`). The source may fall back to the raw bytes when a decompressor cannot be set up, and would then stream a different list.
- A turn of a chunker's loop (take a buffer, copy, hand out) is one step.
- A chunk record deleted and inserted again has a new id, which a deleting pass that read the old one would miss; by their hash the model deletes both.
- Eviction.TargetIsReached: goes one way, from what the loop has charged; the exact condition is `TargetIsReachedIff`.
