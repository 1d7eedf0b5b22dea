# Ingestion of substreams into versioned PostgreSQL rows: a Dafny model

The repository turns the events of each block into table changes (Rust) and
applies them to a PostgreSQL store that keeps every version of every entity
and can undo blocks when the chain forks (Go). This project models the path
from store deltas to rows and proves what that path keeps over every run.

`dafny verify dfyconfig.toml` checks the whole project.

## What is modelled

- **Rows and statements** (`VersionedRows.dfy`). A table maps a vid to a row
  `(id, range, updated number, fields)`. Each UPDATE, DELETE and INSERT is a
  function on that map which reads its WHERE and SET clauses literally, with
  the range operators of section 8.17 of the PostgreSQL manual.
- **History** (`History.dfy`). An independent reading of a table: the versions
  of a chain of block saves. Saving extends the chain, a fork cleanup cuts it,
  crash recovery cuts it when no row is stale, and views at a block are the
  live state of the chain at that block.
- **The store** (`EntityCache.dfy`, `StoreSpec.dfy`, `Store.dfy`, `Runs.dfy`).
  Classes with the source's fields, changed in place: the entity cache keeps
  the pointers it is given, a load caches the caller's own entity, a save
  overwrites vid, range and updated number of the entities it inserts. Each
  method is proved to take one step of a state machine, and the theorems are
  about every run of that machine: blocks, fork cleanups, crashes followed by
  recovery, loads and purges in any legal order.
- **Squashing** (`Squash.dfy`, `SquashHistory.dfy`, `Resquash.dfy`,
  `DatabaseChanges.dfy`). The meaning of a squash on values, the exact failure
  condition, squashing what was squashed before, and the code on heap objects
  with its arbitrary map order and unstable sort.
- **The return handler** (`BlockEffects.dfy`, `Columns.dfy`, `Loader.dfy`,
  `HandledRuns.dfy`, `HandledColumns.dfy`).
  Three layers over the store (pending, read by this block, store), the whole
  block as one step that refines applying every raw change in ordinal order, what
  a block that fails leaves cached, and runs whose blocks are all handled this way.
  `Columns` and `HandledColumns` say the same column by column, in terms of raw
  changes, texts and readings alone.
- **Array literals** (`ArrayGrammar.dfy`, `ArrayLiteral.dfy`). The parser's
  loops and labels against a recursive reader, the reader against a grammar of
  arrays of any depth (section 8.15.6 of the PostgreSQL manual), and the quoting
  printer.
- **Block ranges** (`BlockRange.dfy`), **counters** (`Totals.dfy`), the
  **delta merge** (`DeltaMerge.dfy`) and the row and column that the delta of a
  total, a volume or a reserve goes to (`Routing.dfy`, and key by key in
  `DeltaRows.dfy`).

## Assumptions about callers

- Block numbers are positive and grow between fork cleanups; a save sees only
  bounds below its block.
- A delete names an id that is live or was never stored. What happens
  otherwise is `History.SaveTracksIff` and `History.SaveKeepsHistoryIff`.
- A crashed block is replayed, or undone by a fork cleanup at its number or
  below, before a block of that number crashes again. `Runs.CleanRunIsRun` derives
  from this that no recovery meets a row whose updated number misleads it;
  `History.RecoverTracksIff` says what happens otherwise. The row invariant
  (`Runs.RunWellFormed`) and cache coherence (`Runs.RunCoherent`) need only that a
  save sees bounds below its block.
- The pointers of one squashed list are distinct objects, and a pending entity
  carries the vid and start block that a load gave it.
- What a column makes of a text (the value it sets, and whether it reports an
  error) is an arbitrary function of the text; columns may also ignore changes, as
  arrays do, or always reject them, as the embedded base does.
- An INSERT returns vids in insertion order, from a sequence that never repeats.

## Where the code and its intent differ

- `ParseBytes` reads the end of a closed range from the start field, so only
  open ranges and starts survive (`BlockRanges.RoundTripIff`); `[4,6)` is read
  back as `[4,4)` (`BlockRanges.ClosedRangeIsLost`).
- A delete does not invalidate the cached entity: `StoreSpec.DeleteLeavesStaleEntry`
  is an input, `StoreSpec.SaveKeepsCoherentIff` the exact condition. Deleting a
  dead id rewrites history (`History.DeadDeleteRewritesHistory`,
  `History.SaveKeepsHistoryIff`).
- `CleanDataAtBlock` is not idempotent: a second call at the same block deletes
  the rows the first one reopened (`History.SecondRecoveryLosesRows` is an input,
  `History.RecoverTwiceIff` the exact condition, and `History.RecoverTracksIff` says
  when a cleanup restores its block at all).
- A swap of non-zero amount adds to the global volumes in dollars and in coins at one ordinal
  (`modules/pancakeswap/src/lib.rs:695-715`), both are columns of the factory's
  row, and squashing rejects two changes of a row with one ordinal: a block in
  which both volumes change never squashes (`DeltaMerges.SwapNeverSquashes`).
- Squashing is not incremental: a squashed list squashed again with a later DELETE
  may lose the DELETE (`Resquash.ResquashLosesDelete` is an input,
  `Resquash.ResquashIff` the exact condition).
- A block that fails leaves the entities it loaded in the cache, overwritten but
  unsaved (`Loaders.FailedBlockCoherentIff` says when this does no harm), and so
  does a batch that is rolled back (`Stores.RollbackCoherentIff`). The client
  prints the error and goes on with the next block
  (`consumers/pancakeswap-to-graphnode/cli/exchange/graphnode.go:125-127`).
- A cleanup after the crash of a block that deletes a dead id reopens that row
  (`History.DeadDeleteIsReopened`, `History.RecoverRestoresIff`).
- A swap with an empty amount counts as a transaction but not as a swap
  (`Totals.PairLawIff`).
- The check that an array has matching dimensions compares only the sizes of the
  last groups with the number of elements. It passes every rectangular array
  (`ArrayGrammar.RectangularIsAccepted`) and also `{{a,b,c},{d}}`
  (`ArrayGrammar.UnequalIsAccepted`); `ArrayGrammar.ReadsExactlyArrays` says exactly
  which texts it passes.

## Model

| member | source | states |
|---|---|---|
| History.RepresentsWellFormed | consumers/pancakeswap-to-graphnode/graph-node/storage/postgres/postgres.go:366-424 | a table that holds the versions of a chain of saves satisfies the row invariant: ranges non-empty and pairwise disjoint per id, closed rows updated at their upper bound, open rows at their lower bound |
| History.ClosesOpenRows | consumers/pancakeswap-to-graphnode/graph-node/storage/postgres/postgres.go:369-400 | when deletes name live ids, the rows a save closes are exactly the open rows of the ids it touches |
| History.SaveTracksIff | consumers/pancakeswap-to-graphnode/graph-node/storage/postgres/postgres.go:366-509 | a save of block n turns the table of a chain into the table of the chain extended by that block if and only if each id it deletes is live or was never stored |
| History.SaveWellFormed | consumers/pancakeswap-to-graphnode/graph-node/storage/postgres/postgres.go:366-509 | every save keeps the row invariant, also one that deletes dead ids |
| History.OneOpenRow | consumers/pancakeswap-to-graphnode/graph-node/storage/postgres/postgres.go:585-588 | an id has at most one open row, so `LIMIT 1` chooses nothing |
| History.OneClosedRow | consumers/pancakeswap-to-graphnode/graph-node/storage/postgres/postgres.go:369-400 | a save closes at most one row for an id |
| History.SaveKeepsHistoryIff | consumers/pancakeswap-to-graphnode/graph-node/storage/postgres/postgres.go:369-391 | a save leaves every view of earlier blocks unchanged if and only if each id it deletes is live or was never stored |
| History.DeadDeleteRewritesHistory | consumers/pancakeswap-to-graphnode/graph-node/storage/postgres/postgres.go:370-391 | deleting a dead id makes its last version visible again at the block where it had ended, although no such view existed before |
| History.ForkRowIsRewind | consumers/pancakeswap-to-graphnode/graph-node/storage/postgres/postgres.go:747-748 | on any row of the invariant, updated numbers above the lower bound included, the DELETE hits exactly the rows with lower bound at least b, and the UPDATE reopens exactly the remaining closed rows whose upper bound is at least b |
| History.ForkIsRewind | consumers/pancakeswap-to-graphnode/graph-node/storage/postgres/postgres.go:747-748 | the two statements together remove every row created from b on and rewind every other one, and keep updated numbers exact |
| History.ForkWellFormed | consumers/pancakeswap-to-graphnode/graph-node/storage/postgres/postgres.go:705-789 | a fork cleanup at any block keeps the row invariant |
| History.ForkTracks | consumers/pancakeswap-to-graphnode/graph-node/storage/postgres/postgres.go:705-789 | fork undo: `CleanUpFork(b)` leaves the table of the saves with block below b, also after crash recoveries |
| History.ForkAgain | consumers/pancakeswap-to-graphnode/graph-node/storage/postgres/postgres.go:705-789 | a fork cleanup that stopped anywhere may be run again: doing it twice is doing it once, and so is running it again after the DELETE alone |
| History.RecoverTracksIff | consumers/pancakeswap-to-graphnode/graph-node/storage/postgres/postgres.go:515-546 | `CleanDataAtBlock(n)` leaves the table of the saves up to block n if and only if no open row carries a misleading updated number: n+1 on a row another block created, or another number on a row block n+1 created |
| History.RecoverRestoresIff | consumers/pancakeswap-to-graphnode/graph-node/storage/postgres/postgres.go:515-546 | after a crash that left nothing, the UPDATE alone, or the whole save of block n+1, one cleanup at n restores every row under its vid, up to updated = n+1 on the rows it reopened, if and only if the block deletes no dead id (or the crash left nothing) and no row that the save left alone is open with updated = n+1 |
| History.DeadDeleteIsReopened | consumers/pancakeswap-to-graphnode/graph-node/storage/postgres/postgres.go:515-546 | a crashed block that deletes a dead id is never restored: the cleanup reopens that row as live |
| History.RecoverWellFormed | consumers/pancakeswap-to-graphnode/graph-node/storage/postgres/postgres.go:515-546 | crash and cleanup keep the row invariant, whatever the updated numbers were and whatever the block deleted |
| History.RecoverTwiceIff | consumers/pancakeswap-to-graphnode/graph-node/storage/postgres/postgres.go:518-519 | a second cleanup at the same block changes nothing if and only if the first one reopens no row |
| History.ReplayIsExact | consumers/pancakeswap-to-graphnode/graph-node/storage/postgres/postgres.go:366-546 | replaying block n+1 on the restored table allows the same vids as on the original one and gives the same rows, updated numbers included, also when it deletes dead ids |
| History.SecondRecoveryLosesRows | consumers/pancakeswap-to-graphnode/graph-node/storage/postgres/postgres.go:518-519 | a concrete table on which a second cleanup at the same block deletes the row the first one reopened |
| Stores.CrashThenClean | consumers/pancakeswap-to-graphnode/graph-node/storage/postgres/postgres.go:235-294 | whatever BatchSave leaves of block n+1, cleaned once at n by a process with an empty cache, is the crash step of the state machine |
| History.TimeTravel | consumers/pancakeswap-to-graphnode/graph-node/storage/postgres/postgres.go:140-142 | the rows whose range contains m carry exactly the live entities after the last save at or before m |
| History.OneRowPerBlock | consumers/pancakeswap-to-graphnode/graph-node/storage/postgres/postgres.go:140-142 | no id has two rows that contain the same block |
| History.ChainDeterminesTable | consumers/pancakeswap-to-graphnode/graph-node/storage/postgres/postgres.go:366-509 | two tables that hold the versions of the same chain contain every row equally often, whatever the vids |
| Runs.StepTracks | consumers/pancakeswap-to-graphnode/graph-node/storage/postgres/postgres.go:211-308 | each legal step of the store (block, fork cleanup, crash with recovery that finds no misleading number, load, purge) keeps every table equal to the versions of the surviving blocks |
| Runs.RunWellFormed | consumers/pancakeswap-to-graphnode/graph-node/storage/postgres/postgres.go:211-789 | after any sequence of steps in which saved blocks are positive and lie above all bounds, stale recoveries and deletes of dead ids included, every table satisfies the row invariant: per id non-empty disjoint ranges, at most one open |
| Runs.CleanRunIsRun | consumers/pancakeswap-to-graphnode/graph-node/storage/postgres/postgres.go:211-789 | if no block crashes again while an id its first crash touched has neither been saved since nor been undone by a fork cleanup to that block, no recovery in the run meets a misleading number; the condition reads the operations only |
| Runs.ReplayWipes | consumers/pancakeswap-to-graphnode/graph-node/storage/postgres/postgres.go:366-546 | a crash followed by the replay of its block leaves nothing of it behind |
| Runs.ForkWipes | consumers/pancakeswap-to-graphnode/graph-node/storage/postgres/postgres.go:515-789 | so does a crash followed by a fork cleanup at its block or an earlier one |
| Runs.RunTracks | consumers/pancakeswap-to-graphnode/graph-node/storage/postgres/postgres.go:366-789 | over every legal run, each table holds the versions of the blocks that no later fork cleanup undid |
| Runs.RunRepresents | consumers/pancakeswap-to-graphnode/graph-node/storage/postgres/postgres.go:366-789 | over every orderly run whose crashes were replayed or forked away, each table holds exactly those versions, updated numbers included |
| Runs.RunExact | consumers/pancakeswap-to-graphnode/graph-node/storage/postgres/postgres.go:402-424 | over every orderly run whose crashes were replayed or forked away, the updated numbers are those of a plain history |
| Runs.CanonicalChain | consumers/pancakeswap-to-graphnode/graph-node/storage/postgres/postgres.go:366-789 | two such runs with the same surviving blocks end in the same tables up to vids |
| Runs.CanonicalChainSettled | consumers/pancakeswap-to-graphnode/graph-node/storage/postgres/postgres.go:366-789 | any two legal runs with the same surviving blocks do so up to the updated numbers of open rows |
| Runs.RunTimeTravel | consumers/pancakeswap-to-graphnode/graph-node/storage/postgres/postgres.go:140-142 | after every legal run, the rows that contain block m are the live state of the surviving chain at m |
| Runs.CrashThenReplay | consumers/pancakeswap-to-graphnode/graph-node/storage/postgres/postgres.go:235-546 | crash anywhere in block n+1 on a table without misleading numbers, one cleanup, and the block again: each table is one that the block alone could have given |
| Runs.RunCoherent | consumers/pancakeswap-to-graphnode/graph-node/storage/postgres/postgres.go:463-622 | over every sequence of steps without deletes, each cached entity is the open row of its id (vid, bounds, updated number, fields), or blank when there is none |
| StoreSpec.AgreesIsUnique | consumers/pancakeswap-to-graphnode/graph-node/storage/postgres/postgres.go:563-622 | there is one right answer to a load, so a coherent cache answers as the query would |
| StoreSpec.SaveKeepsCoherentIff | consumers/pancakeswap-to-graphnode/graph-node/storage/postgres/postgres.go:463-506 | a batch save keeps a coherent cache coherent if and only if no id it deletes is cached as existing before it, purged final entities aside |
| StoreSpec.DeleteLeavesStaleEntry | consumers/pancakeswap-to-graphnode/graph-node/storage/postgres/postgres.go:369-381 | one cached live id that a block deletes: whatever the save leaves behind, the cache still says it exists |
| StoreSpec.SaveKeepsOpenRow | consumers/pancakeswap-to-graphnode/graph-node/storage/postgres/postgres.go:366-509 | a save leaves the open row of every id it does not touch as it was, whatever else it deletes |
| StoreSpec.ForkKeepsCoherent | consumers/pancakeswap-to-graphnode/graph-node/storage/postgres/postgres.go:753-784 | invalidating the ids that the two statements return keeps the cache coherent |
| EntityCaches.Entity.CopyFrom | consumers/pancakeswap-to-graphnode/graph-node/storage/postgres/cache.go:36-43 | after a hit the caller's entity has the contents of the cached one, at the moment of the call |
| EntityCaches.EntityCache.GetEntity | consumers/pancakeswap-to-graphnode/graph-node/storage/postgres/cache.go:36-47 | found exactly when the key is cached; the cached entities keep their contents, a miss leaves the caller's entity alone |
| EntityCaches.EntityCache.SetEntity | consumers/pancakeswap-to-graphnode/graph-node/storage/postgres/cache.go:61-66 | files the pointer under its own table and id, replacing what was there |
| EntityCaches.EntityCache.Invalidate | consumers/pancakeswap-to-graphnode/graph-node/storage/postgres/cache.go:68-70 | removes that key and no other |
| EntityCaches.EntityCache.PurgeCache | consumers/pancakeswap-to-graphnode/graph-node/storage/postgres/cache.go:49-59 | removes exactly the cached entities whose type declares them final |
| Stores.EntityForID | consumers/pancakeswap-to-graphnode/graph-node/storage/postgres/postgres.go:624-638 | finds the greatest range of the id, open or closed, or reports that the id has no row |
| Stores.SnipFor | consumers/pancakeswap-to-graphnode/graph-node/storage/postgres/postgres.go:369-400 | the pair collected for an id names the one row the save must close and ends its range at n; no pair when no row is to be closed |
| Stores.CloseRanges | consumers/pancakeswap-to-graphnode/graph-node/storage/postgres/postgres.go:367-411 | the collected pairs and the UPDATE together close exactly the rows a save closes |
| Stores.MarkNew | consumers/pancakeswap-to-graphnode/graph-node/storage/postgres/postgres.go:413-428 | lists every entity that is not a delete once, with vid 0, range `[n,)` and updated number n, and its own fields |
| Stores.InsertIsSave | consumers/pancakeswap-to-graphnode/graph-node/storage/postgres/postgres.go:413-506 | closing the ranges and inserting the marked entities is a save of the block, with fresh vids |
| Stores.Store.Publish | consumers/pancakeswap-to-graphnode/graph-node/storage/postgres/postgres.go:503-506 | the i-th inserted entity gets the i-th returned vid and is cached under its key; other cache entries stay |
| Stores.Store.SaveTable | consumers/pancakeswap-to-graphnode/graph-node/storage/postgres/postgres.go:366-509 | `batchSave`: the table after it is a save of its changes, every saved entity reads as its new open row, the cache holds those entities on top of what it held |
| Stores.Store.StageAll | consumers/pancakeswap-to-graphnode/graph-node/storage/postgres/postgres.go:237-265 | every table is saved in its own transaction without disturbing the others, in any order |
| Stores.Store.MustCommit | consumers/pancakeswap-to-graphnode/graph-node/storage/postgres/postgres.go:357-364 | commits a prefix of the transactions, the cursor last: a crash leaves the cursor old and exactly the tables before it committed |
| Stores.Store.BatchSave | consumers/pancakeswap-to-graphnode/graph-node/storage/postgres/postgres.go:211-308 | when it completes, the cursor is the new one, the tables hold the save, the cache holds what it saved, and what it did not save stays cached unchanged except for the purge at every hundredth block; a context that is done changes nothing; a SQL error leaves tables and cursor as they were and the cache as the tables saved before it left it; a stop leaves the old cursor and each table untouched or saved |
| Stores.RollbackCoherentIff | consumers/pancakeswap-to-graphnode/graph-node/storage/postgres/postgres.go:262-265 | a rolled-back batch keeps a coherent cache coherent if and only if it had saved no entity: a saved one stays cached with a row that the rollback took away |
| Stores.Store.Load | consumers/pancakeswap-to-graphnode/graph-node/storage/postgres/postgres.go:563-622 | fills the entity with what is cached or else with what the query gives, caches the caller's own pointer also for a missing row, and queries at most once per miss |
| Stores.Store.Query | consumers/pancakeswap-to-graphnode/graph-node/storage/postgres/postgres.go:588-619 | the entity takes vid, start, updated number and fields of the row of its id that contains the block, and stays blank exactly when there is none; at a block above all bounds that row is the open one |
| Stores.Store.CleanUpTable | consumers/pancakeswap-to-graphnode/graph-node/storage/postgres/postgres.go:708-787 | one table of a fork cleanup: both statements, and the cache without the ids they return |
| Stores.Store.CleanUpFork | consumers/pancakeswap-to-graphnode/graph-node/storage/postgres/postgres.go:705-789 | all tables and the cache take one fork step; nothing else changes |
| Stores.Store.CleanDataAtBlock | consumers/pancakeswap-to-graphnode/graph-node/storage/postgres/postgres.go:511-546 | rewrites every table by the two recovery statements and leaves the cache alone |
| BlockRanges.BlockRange.String | consumers/pancakeswap-to-graphnode/graph-node/block_range.go:44-55 | prints the bounds, without an end when it is 0; panics on the empty value |
| BlockRanges.BlockRange.ParseBytes | consumers/pancakeswap-to-graphnode/graph-node/block_range.go:75-105 | new fields and outcome (return, error or panic, with the fields already assigned) on every text |
| BlockRanges.ParsePrinted | consumers/pancakeswap-to-graphnode/graph-node/block_range.go:75-105 | parsing a printed range into any receiver: the start is right, the end of a closed range becomes its start, the end of an open one stays the receiver's |
| BlockRanges.ParseQuoted | consumers/pancakeswap-to-graphnode/graph-node/block_range.go:17-19 | a printed range in the quotes of its JSON form parses, into any receiver, as the bare text does |
| BlockRanges.ParseQuotedText | consumers/pancakeswap-to-graphnode/graph-node/block_range.go:75-105 | `"[23,2314)"` with its quotes gives start 23 and end 23; `[23,)` gives start 23 |
| BlockRanges.BadStartFails | consumers/pancakeswap-to-graphnode/graph-node/block_range.go:82-88 | a start that is not a number fails, and the receiver is as it was |
| BlockRanges.LargeStartFails | consumers/pancakeswap-to-graphnode/graph-node/block_range.go:82-88 | so does a start of more than 64 bits |
| BlockRanges.RoundTripIff | consumers/pancakeswap-to-graphnode/graph-node/block_range.go:44-105 | into a fresh value the start always survives and the whole range survives if and only if it is open or ends where it starts |
| BlockRanges.ClosedRangeIsLost | consumers/pancakeswap-to-graphnode/graph-node/block_range.go:75-105 | `[4,6)` is read back as `[4,4)` |
| StoreSpec.ScannedIsParsed | consumers/pancakeswap-to-graphnode/graph-node/block_range.go:57-73 | the bounds of a loaded entity are the codec applied to the text PostgreSQL prints |
| Squash.AnySortFoldsAlike | consumers/pancakeswap-to-graphnode/pb/pcs/database/v1/database.go:42-55 | every sort by ordinal folds to the same net change or fails alike |
| Squash.SquashOrderIndependent | consumers/pancakeswap-to-graphnode/pb/pcs/database/v1/database.go:24-67 | permuting the input changes neither success nor what the result can be |
| Squash.SquashIsDetermined | consumers/pancakeswap-to-graphnode/pb/pcs/database/v1/database.go:24-67 | results of permuted inputs hold the same changes with the same fields |
| Squash.FoldPreservesRow | consumers/pancakeswap-to-graphnode/pb/pcs/database/v1/database.go:46-55 | the net of a sorted group does to a row what its changes do one after the other |
| Squash.SquashPreservesMeaning | consumers/pancakeswap-to-graphnode/pb/pcs/database/v1/database.go:22-68 | from any database where the changes apply in ordinal order, the squashed list, in any order, gives the same database |
| SquashHistory.FoldIffSound | consumers/pancakeswap-to-graphnode/pb/pcs/database/v1/database.go:49-122 | a sorted group folds if and only if ordinals grow, each CREATE follows a DELETE and every field history is linked; then each field goes from its first old value since the last CREATE or DELETE to its last new value |
| SquashHistory.SquashFailsIff | consumers/pancakeswap-to-graphnode/pb/pcs/database/v1/database.go:36-113 | Squash fails if and only if some row has several changes whose sorted history is not sound |
| SquashHistory.RepeatedOrdinalFails | consumers/pancakeswap-to-graphnode/pb/pcs/database/v1/database.go:75-77 | two changes of one row with one ordinal fail whatever the unstable sort does |
| SquashHistory.ClashInList | consumers/pancakeswap-to-graphnode/pb/pcs/database/v1/database.go:75-77 | two places of one list with one row and one ordinal make the whole squash fail |
| SquashHistory.MergedField | consumers/pancakeswap-to-graphnode/pb/pcs/database/v1/database.go:94-122 | one UPDATE merge, field by field: the history stays linked and the merged field spans it |
| Resquash.FoldResumes | consumers/pancakeswap-to-graphnode/pb/pcs/database/v1/database.go:46-55 | folding goes on from the change that stands for the part folded before |
| Resquash.ResquashIff | consumers/pancakeswap-to-graphnode/pb/pcs/database/v1/database.go:42-60 | squashing a row's squashed change again with later changes to the row has the net of squashing them all, or fails with it; it also keeps or drops the change alike, except exactly when the first group did not start with CREATE, left a CREATE, and the whole ends in DELETE: then the DELETE is lost |
| Resquash.ResquashLosesDelete | consumers/pancakeswap-to-graphnode/pb/pcs/database/v1/database.go:42-60 | UPDATE, DELETE, CREATE squashed, and squashed again with a DELETE, leaves nothing, where squashing all four leaves the DELETE |
| DatabaseChanges.TableChange.Merge | consumers/pancakeswap-to-graphnode/pb/pcs/database/v1/database.go:70-130 | merges in place as one fold step, or fails and leaves the change as it was |
| DatabaseChanges.UpdateFields | consumers/pancakeswap-to-graphnode/pb/pcs/database/v1/database.go:95-122 | the merged field list, in any order, or none on an old value that does not match |
| DatabaseChanges.SortByOrdinal | consumers/pancakeswap-to-graphnode/pb/pcs/database/v1/database.go:42-44 | some sort of the same pointers by ordinal, with no promise on ties |
| DatabaseChanges.FoldSorted | consumers/pancakeswap-to-graphnode/pb/pcs/database/v1/database.go:46-55 | the first change of the sorted group becomes the net change, or the group fails |
| DatabaseChanges.MergeGroup | consumers/pancakeswap-to-graphnode/pb/pcs/database/v1/database.go:36-63 | one group: fails exactly when its net does not exist; keeps the stand-in, or nothing for a row created and deleted here |
| DatabaseChanges.GroupByRow | consumers/pancakeswap-to-graphnode/pb/pcs/database/v1/database.go:24-30 | the groups hold every change once, in input order, under its table and key |
| DatabaseChanges.MergeAll | consumers/pancakeswap-to-graphnode/pb/pcs/database/v1/database.go:22-68 | succeeds if and only if no group fails, and then the result has one stand-in for each row that does not vanish, whatever the map order |
| DatabaseChanges.ChangeList.Squash | consumers/pancakeswap-to-graphnode/pb/pcs/database/v1/database.go:12-20 | replaces the list on success and leaves it on failure |
| BlockEffects.LiveAfterSave | consumers/pancakeswap-to-graphnode/graph-node/storage/postgres/postgres.go:366-509 | the live fields of an id after any save are the new ones if it was saved, none if it was deleted, the old ones otherwise |
| BlockEffects.FoldOverwrites | consumers/pancakeswap-to-graphnode/pb/pcs/database/v1/database.go:49-55 | whatever the columns make of a text, overwriting a row with the net change is overwriting it with each change in turn; what overwriting is, `Columns.OverwriteTakes` says |
| Columns.OverwriteTakes | consumers/pancakeswap-to-graphnode/pb/pcs/database/v1/datachange.go:11-32 | after a change, a name holds the reading, by the last column of the name that reads, of the last new value that the change gives the name; every other name keeps its value |
| Columns.AcceptableIff | consumers/pancakeswap-to-graphnode/pb/pcs/database/v1/datachange.go:35-118 | a change is accepted if and only if no column it gives a text refuses it or finds the last text of the name invalid |
| Columns.StopsAt | consumers/pancakeswap-to-graphnode/pb/pcs/database/v1/datachange.go:19-29 | a change that is rejected is written up to and including the first column that rejects it |
| Columns.OverwriteAllReads | consumers/pancakeswap-to-graphnode/pb/pcs/database/v1/datachange.go:11-32 | a run of changes leaves, in each column, the reading of the last text of its name |
| BlockEffects.EffectsAreSequential | consumers/pancakeswap-to-graphnode/cli/exchange/graphnode/return_handler.go:133-154 | the effect on a row is its base overwritten by every raw change to it in ordinal order, and exactly the changed rows have one |
| BlockEffects.BlockRefinesSequential | consumers/pancakeswap-to-graphnode/cli/exchange/graphnode/return_handler.go:113-166 | after a block of CREATE and UPDATE changes each live row is the old one, or the defaults, overwritten by every raw change in ordinal order; other rows are as before |
| Loaders.ApplyTableChange | consumers/pancakeswap-to-graphnode/pb/pcs/database/v1/datachange.go:11-32 | visits the columns in order, each taking what it reads of the last new value of its name, up to the first that rejects it; fails exactly when one does; stated by columns, fields and texts alone |
| Loaders.Loader.Save | consumers/pancakeswap-to-graphnode/cli/exchange/graphnode/return_handler.go:32-45 | files the entity under its table and id, marked as existing |
| Loaders.Loader.Load | consumers/pancakeswap-to-graphnode/cli/exchange/graphnode/return_handler.go:47-107 | pending updates win over what the block has read, which wins over the store; the three layers agree with the live row; only an empty id fails |
| Loaders.Loader.LoadFromStore | consumers/pancakeswap-to-graphnode/cli/exchange/graphnode/return_handler.go:89-104 | asks the store once and remembers a private copy, or the absence |
| Loaders.Loader.HandleChange | consumers/pancakeswap-to-graphnode/cli/exchange/graphnode/return_handler.go:133-158 | after one squashed change its row is pending with the base fields overwritten, and every row handled before is untouched; fails exactly on an unknown table, an empty id or a column that rejects its value, and even then keeps what was cached and says what is cached anew |
| Loaders.Loader.HandleAll | consumers/pancakeswap-to-graphnode/cli/exchange/graphnode/return_handler.go:133-159 | after all squashed changes the pending entities carry exactly the effects |
| Loaders.Loader.Flush | consumers/pancakeswap-to-graphnode/cli/exchange/graphnode/return_handler.go:109-111 | saving what is pending makes the whole block, loads included, one step from the state before it, and keeps the cache coherent; or the batch is skipped, rolled back or stopped |
| Loaders.Loader.ReturnHandler | consumers/pancakeswap-to-graphnode/cli/exchange/graphnode/return_handler.go:113-166 | the block is rejected if and only if the changes do not squash or some squashed change cannot be applied, and otherwise ends as its batch does; once saved, live rows are those of sequential application, the cache is coherent, the cursor is new and each key was queried at most once; rejected or skipped, tables, cursor and every older cache entry are as they were and every new entry is accounted for; rolled back, the cache is what the batch made of that |
| Loaders.FailedBlockKeepsCache | consumers/pancakeswap-to-graphnode/cli/exchange/graphnode/return_handler.go:127-157 | a failed squash, or a later failure when every row the block loaded was cached before, leaves the whole store as it was |
| Loaders.LeftoverAgreesIff | consumers/pancakeswap-to-graphnode/cli/exchange/graphnode/return_handler.go:133-158 | an entry that a failed block newly cached agrees with its row if and only if its change would have left the row as it is (or, when a column rejected it, what was written before that is the row, or the zero value of a missing one) |
| Loaders.FailedBlockCoherentIff | consumers/pancakeswap-to-graphnode/cli/exchange/graphnode/return_handler.go:127-157 | so a failed block keeps a coherent cache coherent if and only if that holds of every row it came to load and that was not cached; the condition reads the state before the block |
| HandledColumns.BlockAppliesIff | consumers/pancakeswap-to-graphnode/cli/exchange/graphnode/return_handler.go:133-154 | every squashed change of a CREATE/UPDATE block can be applied if and only if each raw change names a known table and an id, and no column rejects the new value of the raw change that decides it: the one with the highest ordinal among those of the row that name it |
| HandledColumns.ColumnIsSaved | consumers/pancakeswap-to-graphnode/cli/exchange/graphnode/return_handler.go:113-166 | after a saved CREATE/UPDATE block the row is live, and each column that a raw change decides holds its reading of that change's new value |
| HandledColumns.ColumnIsKept | consumers/pancakeswap-to-graphnode/cli/exchange/graphnode/return_handler.go:113-166 | a column that no raw change of the row names holds the old value, or the default of a row that was not live before, and such a row is new only if a raw change names it |
| HandledRuns.HandledTimeTravel | consumers/pancakeswap-to-graphnode/cli/exchange/graphnode/return_handler.go:113-166 | after any run of handled CREATE and UPDATE blocks, fork cleanups and settled crashes, the row of an id that contains block m is what the raw changes of the surviving blocks up to m, in order, make of the defaults of its type |
| HandledRuns.HandledRunIsRun | consumers/pancakeswap-to-graphnode/cli/exchange/graphnode/return_handler.go:113-166 | a run of handled blocks needs no assumption on deletes and meets no misleading number when its crashes are settled |
| HandledColumns.RowAtIff | consumers/pancakeswap-to-graphnode/cli/exchange/graphnode/return_handler.go:113-166 | after any run of handled blocks, fork cleanups and settled crashes, an id has a row that contains block m if and only if a surviving block up to m changes it |
| HandledColumns.ColumnAt | consumers/pancakeswap-to-graphnode/cli/exchange/graphnode/return_handler.go:113-166 | in that row a column holds its reading of the new value of the raw change that decides it in the last surviving block up to m that names it |
| HandledColumns.DefaultAt | consumers/pancakeswap-to-graphnode/cli/exchange/graphnode/return_handler.go:113-166 | and a column that no such block names holds the default |
| ArrayGrammar.ReadsExactlyArrays | consumers/pancakeswap-to-graphnode/graph-node/array.go:106-209 | a text is accepted with these dimensions and elements if and only if it writes a tree without empty groups, whose elements lie at most as deep as the first one, whose last group of each level has the size of that dimension, and each dimension divides the number of elements; or it is nested empty braces |
| ArrayGrammar.ReadsTree | consumers/pancakeswap-to-graphnode/graph-node/array.go:128-187 | inside open groups, a well-written tree is read as its elements in order and the sizes of its last groups, and reading goes on behind it |
| ArrayGrammar.RectangularIsAccepted | consumers/pancakeswap-to-graphnode/graph-node/array.go:201-207 | every array whose groups of one level have one size is accepted with its shape as dimensions |
| ArrayGrammar.RectangularHasProduct | consumers/pancakeswap-to-graphnode/graph-node/array.go:201-207 | an accepted text that writes such an array has as many elements as its dimensions multiply to |
| ArrayGrammar.UnequalIsAccepted | consumers/pancakeswap-to-graphnode/graph-node/array.go:201-207 | `{{a,b,c},{d}}` is accepted with dimensions 2 and 1, and no tree of that reading has groups of equal sizes |
| ArrayGrammar.UnequalIsRejected | consumers/pancakeswap-to-graphnode/graph-node/array.go:201-207 | `{{a},{b,c}}` is rejected: three elements are no multiple of two |
| ArrayGrammar.ReadsExactlyLiterals | consumers/pancakeswap-to-graphnode/graph-node/array.go:95-104 | the texts of at most one dimension are exactly the literals of the grammar, with their meaning, and nested empty braces as the empty list |
| ArrayGrammar.ReadsLiteral | consumers/pancakeswap-to-graphnode/graph-node/array.go:106-209 | every literal of the grammar reads as the meanings of its items: quoted bytes unescaped, bare text verbatim, bare NULL as null |
| ArrayGrammar.BareReads | consumers/pancakeswap-to-graphnode/graph-node/array.go:158-171 | a text without quotes between braces is one element, null exactly when it is the bytes 78 85 76 76 and otherwise itself |
| ArrayGrammar.TextsRead | consumers/pancakeswap-to-graphnode/graph-node/array.go:106-209 | `{NULL}`, `{null}` and `{"a\"b",c}`, in numbers, with their elements |
| ArrayGrammar.TextPrinted | consumers/pancakeswap-to-graphnode/graph-node/array.go:68-89 | the list of `a"b` prints as `{"a\"b"}`, in numbers |
| ArrayGrammar.RoundTrip | consumers/pancakeswap-to-graphnode/graph-node/array.go:48-89 | every list of byte strings, whatever they contain, reads back from its printed form |
| ArrayGrammar.PrintedIsInjective | consumers/pancakeswap-to-graphnode/graph-node/array.go:68-89 | different lists print differently |
| ArrayLiterals.ParseQuoted | consumers/pancakeswap-to-graphnode/graph-node/array.go:138-157 | returns the unescaped bytes up to the closing quote, or consumes the text when there is none |
| ArrayLiterals.ParseBare | consumers/pancakeswap-to-graphnode/graph-node/array.go:158-171 | stops at the first delimiter or closing brace |
| ArrayLiterals.ParseElement | consumers/pancakeswap-to-graphnode/graph-node/array.go:128-173 | opening braces and one element do what the reader does at an element, for every depth; levels that are closed stay counted |
| ArrayLiterals.ParseRest | consumers/pancakeswap-to-graphnode/graph-node/array.go:175-187 | closing braces and delimiters do what the reader does behind an element, and count one element per level they close |
| ArrayLiterals.ParseEmpty | consumers/pancakeswap-to-graphnode/graph-node/array.go:189-200 | an array without elements is accepted exactly when the closing braces match the opening ones |
| ArrayLiterals.DimensionsMatch | consumers/pancakeswap-to-graphnode/graph-node/array.go:201-207 | accepted exactly when every dimension divides the number of elements |
| ArrayLiterals.ParseArray | consumers/pancakeswap-to-graphnode/graph-node/array.go:106-209 | total for every text and every non-empty delimiter: ends, stays in bounds, never divides by 0; with a comma it accepts exactly what the reader accepts, with the same dimensions and elements |
| ArrayLiterals.ScanLinearArray | consumers/pancakeswap-to-graphnode/graph-node/array.go:95-104 | returns exactly the elements of a one-dimensional literal, and fails on everything else |
| ArrayLiterals.AppendArrayQuotedBytes | consumers/pancakeswap-to-graphnode/graph-node/array.go:210-225 | appends the string as a quoted item in which quotes and backslashes are escaped |
| ArrayLiterals.LocalStringArray.Value | consumers/pancakeswap-to-graphnode/graph-node/array.go:67-89 | nil gives null, any other list its literal |
| ArrayLiterals.LocalStringArray.ScanBytes | consumers/pancakeswap-to-graphnode/graph-node/array.go:48-65 | succeeds if and only if the text is a one-dimensional literal without an unquoted NULL; a failure leaves the array as it was; `{NULL}` fails, `{null}` and `{"a\"b",c}` do not |
| ArrayLiterals.LocalStringArray.CopyThrough | consumers/pancakeswap-to-graphnode/graph-node/array.go:33-89 | what any array prints, any other array scans to the same value, nil included |
| Totals.KeyIsInjective | modules/pancakeswap/src/lib.rs:575-610 | whatever the addresses contain, two counters never share a store key |
| Totals.KeyTexts | modules/pancakeswap/src/lib.rs:574-610 | the texts of the keys, with the day number in decimal and signed before the epoch |
| Totals.CountEvent | modules/pancakeswap/src/lib.rs:578-611 | one event adds one to its day, its pair, each of its tokens and the global count, and one to the swaps (unless the amount is empty), burns or mints of its pair; fails exactly on an event without a type |
| Totals.StoreTotals | modules/pancakeswap/src/lib.rs:561-613 | the day counter with 86400 d <= seconds < 86400 (d + 1) grows by the number of events and no other day does; a token grows by the events with it as first token plus those with it as second; pair, swap, burn and mint counters by the events of that pair and kind; the pair count by the new pairs; fails exactly when the clock has no timestamp or some event has no type |
| Totals.CountedGrows | modules/pancakeswap/src/lib.rs:561-613 | the tally of a block is the number of its events with the property of the counter |
| Totals.ReachOneMore | modules/pancakeswap/src/lib.rs:561-613 | handling one more block reaches the counters of the longer run |
| Totals.CountersFit | modules/pancakeswap/src/lib.rs:578-611 | no counter exceeds twice the events plus the pairs of the run, so 64-bit counters agree on every run below that size |
| Totals.Conservation | modules/pancakeswap/src/lib.rs:578-589 | after every run, transaction counts summed over pairs and summed over days equal the global count, and summed over tokens equal twice it |
| Totals.PairLawIff | modules/pancakeswap/src/lib.rs:591-611 | per pair, swap, burn and mint counts fall short of the transaction count by the swaps with an empty amount, so they add up if and only if there are none |
| DeltaMerges.SortByOrdinal | modules/pancakeswap/src/db.rs:567-568 | a stable sort: ordinals never decrease and the items of each ordinal keep their order |
| DeltaMerges.JoinSortDeltas | modules/pancakeswap/src/db.rs:510-569 | the stable sort of all six sources joined in source order: every item once |
| DeltaMerges.StableSortIsUnique | modules/pancakeswap/src/db.rs:567-568 | there is only one stable sort, so the contract determines the list |
| DeltaMerges.TiesKeepSourceOrder | modules/pancakeswap/src/db.rs:525-567 | of two items with one ordinal the one from the earlier source comes first |
| DeltaMerges.EmittedInOrder | modules/pancakeswap/src/db.rs:48-61 | whatever the handlers emit, the ordinals of the table changes never decrease |
| DeltaMerges.Process | modules/pancakeswap/src/db.rs:23-62 | the table changes are those of the merged items in order, with ordinals that never decrease; fails exactly when some handler panics on its item |
| DeltaRows.JoinedIs | modules/pancakeswap/src/db.rs:510-569 | the joined list is the pair, token, total, volume and reserve deltas and the events, each completely and in order |
| DeltaRows.EmittedConcat | modules/pancakeswap/src/db.rs:48-61 | the changes of a list are the changes of its items one after the other |
| DeltaRows.ProcessedIff | modules/pancakeswap/src/db.rs:23-62 | a change is in the list of a block exactly when some item of the six sources makes it |
| DeltaRows.NoPanicIff | modules/pancakeswap/src/db.rs:48-59 | the handlers of a list panic exactly when that of some item does |
| DeltaRows.CarriesTheDelta | modules/pancakeswap/src/db.rs:118-423 | what a delta emits carries its ordinal, the block number and one field with its own new and old value |
| DeltaRows.PairsAndTokensOnCreate | modules/pancakeswap/src/db.rs:64-116 | pair and token deltas create a row in their table exactly on CREATE, and panic exactly when the message does not decode |
| DeltaRows.EventsCreate | modules/pancakeswap/src/db.rs:425-508 | every event creates a row in the table of its kind at its log ordinal; one without a type panics |
| DeltaRows.PairTotals | modules/pancakeswap/src/db.rs:123-136 | key text, table, row, column and operation of a pair's transaction count |
| DeltaRows.TokenTotals | modules/pancakeswap/src/db.rs:137-147 | the same for a token |
| DeltaRows.FactoryTotals | modules/pancakeswap/src/db.rs:148-161 | the same for the global transaction and pair counts |
| DeltaRows.DayTotals | modules/pancakeswap/src/db.rs:162-177 | the same for the transactions of a day, which are never deleted |
| DeltaRows.TotalsOnly | modules/pancakeswap/src/db.rs:118-188 | no other key of a total changes anything |
| DeltaRows.TotalsPanicIff | modules/pancakeswap/src/db.rs:118-188 | a total panics exactly on a key that ends before the parts its handler reads |
| DeltaRows.PairDayVolumes | modules/pancakeswap/src/db.rs:196-217 | key text, table, row, column and operation of the volumes of a pair on a day |
| DeltaRows.PairHourVolumes | modules/pancakeswap/src/db.rs:218-239 | the same in an hour |
| DeltaRows.PairVolumes | modules/pancakeswap/src/db.rs:240-254 | the same for the volumes and the supply of a pair |
| DeltaRows.TokenDayVolumes | modules/pancakeswap/src/db.rs:255-274 | the same for the volume of a token on a day |
| DeltaRows.TokenVolumes | modules/pancakeswap/src/db.rs:275-287 | the same for the volumes and the liquidity of a token |
| DeltaRows.FactoryVolumes | modules/pancakeswap/src/db.rs:288-299 | the same for the global volumes and the liquidity |
| DeltaRows.DayVolumes | modules/pancakeswap/src/db.rs:300-319 | the same for the volumes of a day |
| DeltaRows.VolumesOnly | modules/pancakeswap/src/db.rs:190-331 | no other key of a volume changes anything |
| DeltaRows.VolumesPanicIff | modules/pancakeswap/src/db.rs:190-331 | a volume panics exactly on a key that ends before the parts its handler reads |
| DeltaRows.PairDayReserves | modules/pancakeswap/src/db.rs:340-363 | key text, table, row, column and operation of the reserves of a pair on a day |
| DeltaRows.PairHourReserves | modules/pancakeswap/src/db.rs:364-387 | the same in an hour |
| DeltaRows.Prices | modules/pancakeswap/src/db.rs:388-399 | the same for the prices of the tokens of a pair |
| DeltaRows.PairReserves | modules/pancakeswap/src/db.rs:400-411 | the same for the reserves of a pair |
| DeltaRows.ReservesOnly | modules/pancakeswap/src/db.rs:333-423 | no other key of a reserve changes anything |
| DeltaRows.ReservesPanicIff | modules/pancakeswap/src/db.rs:333-423 | a reserve panics exactly on a key that ends before the parts its handler reads |
| DeltaMerges.ClashFails | modules/pancakeswap/src/db.rs:23-62 | two items of one ordinal that change one row make the squash of the block fail |
| DeltaMerges.SwapNeverSquashes | modules/pancakeswap/src/db.rs:190-331 | the two global volumes that one swap adds to at one ordinal go to one row, so a block in which both changed never squashes |
| DeltaRows.CounterReachesColumn | modules/pancakeswap/src/db.rs:118-188 | the delta of each transaction counter changes the column that shows this counter, on the row it is about, from the delta's old value to its new one, whatever plain addresses the key holds |

## Left out

- Stores.Store.BatchSave: a SQL error leaves each table's save either complete or not begun in the entities and the cache, where the source may stop within one; failing to begin a transaction is such an error. The method always uses one transaction per table; what a crash leaves without transactions is part of `History.PartlySaved` and of the recovery theorems.
- Stores.Store.Load: entities that skip the database lookup and tables that are never read from the database are not modelled, and queries succeed; on a query error the source returns the error but still caches the blank entity, through its deferred `SetEntity`.
- Stores.SnipFor: a pending entity carries the vid and start block of the open row of its id, or no range when there is none, as a load leaves it; other entities would make the UPDATE hit other rows.
- Stores.CloseRanges: the same assumption on pending entities.
- Stores.Store.SaveTable: the same assumption; the pairs sent as JSON are a map from vid to range, and the sanitizing hook of an entity is the identity.
- Loaders.Loader.ReturnHandler: the operation of a change is ignored, as in the source, so sequential refinement is stated for CREATE and UPDATE; decoding the message is not modelled, and loads meet no query error.
- ArrayLiterals.ParseArray: with a delimiter other than a comma, which no caller passes, only totality and the divisibility of the dimensions are stated; error texts and offsets are not modelled.
- Totals.StoreTotals: counters are unbounded integers, which agree with 64-bit ones below the bound of `Totals.CountersFit`, and nothing is said of the counters of a block on which the handler panics.
- DeltaMerges.Process: the key and the fields that a pair, token or event message decodes to are an arbitrary function; their tables and operations, and total, volume and reserve deltas are handled as in the source.
- Runs.RunTracks: a block that crashes twice without a replay or a fork cleanup in between is outside the theorem, because its second recovery does delete rows.
- Block numbers are unbounded in the store, where PostgreSQL has 4-byte ranges.
- Goroutines and grace timers of BatchSave: tables are independent, so their saves are steps in any order before the commits.
- `updateDeploymentHead` returns at once; notifications, metrics, logging, prepared statements, DDL and DSN parsing are plumbing.
- Dropping, truncating and CSV export of tables, proof-of-indexing hashes and the generated entity types.
- The nested per-table maps of the cache and of the loader's `current` layer are one map keyed by table and id.
- Event decoding, prices, volumes and reserves: library arithmetic without a law that spans functions.
- The `MarshalCSV` and `ArrayAdd` helpers of string arrays, and the JSON form of block ranges: single-branch conversions.
