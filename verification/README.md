# IceCore snapshot catalog: a verified model

This project models the metadata server of IceCore, a multi-version catalog of
table partitions, and proves what its snapshots, locks, cache and histories
guarantee. `dafny verify dfyconfig.toml` checks all of it.

## How the model is built

**The database** is a record of relations (`Tables.Relations`) with the keys the
SQL schema declares, next to id sequences that never give a value back. Commits
and table operations are functions from relations to relations (`Commits`,
`Catalog`); `None` is a transaction that failed and was rolled back. The classes
`Database.PGClient`, `Registry.PartitionRegistry`, `CatalogManager.Manager` and
`Server.MetadataServer` run the statements one by one, in the order and with the
loops and early returns of the Go code, and are proved to have exactly the effect
of those functions.

**The server** is a transition system (`Interleaving`). Any number of requests is
in flight and each of them advances by one atomic step at a time: announce or
take a lock, resolve, look into the cache, query, put, draw an id, run a
transaction, invalidate, release. Go's `RWMutex` lets an announced writer keep new
readers out, and so does the model. `Locking.Inv` is the invariant and
`StoreSteps.RunInv` shows it for every state of every run; the results in
`Reads`, `StableReads`, `Retention`, `Scenarios`, `Lineage`, `DeletionCounts`, `Paging`,
`SpecRuns`, `Overlaps`, `Deadlocks`, `Completion` and `RenameCycles` are about such runs. `CommitCalls` ties the two forms of a
commit together: the steps of a request that is not interrupted end in the state that the
registry's method leaves.

**The simple view** that the visibility windows encode is a list of commits for
each table (`History`): a commit turns the visible list L into L followed by the new
rows, without the rows whose key it deletes.

**The cache** is modelled twice: as the map into a linked list that the code keeps
(`Lru.LRU`), and as the recency-ordered list this represents (`Recency`). `Inclusion`
and `Eviction` are about whole traces of it.

`Transactions`, `PartitionSpecs`, `SpecWire`, `ColumnBounds`, `CacheKeys` and
`LockTable` model the transaction manager, the spec validator, the spec
converters, the bounds aggregation, the cache keys and the lock table.

## What does not hold, and what holds instead

- A rename or drop gives its lock back before it invalidates the cache, so a read
  in between can be served rows of a table that is gone. Some run serves stale rows
  exactly if there is a cache and drops or renames are among the requests
  (`Scenarios.StaleReadsIff`). In any case an entry differs from the query only
  while the invalidation of its name is pending (`Reads.StaleOnlyWhilePending`).
- Renames can deadlock, for they wait with a lock in hand. Some run of a set of
  renames reaches a circle of waiting requests exactly if the renames form a circle
  of names (`RenameCycles.DeadlockIff`), and such a deadlock lasts
  (`RenameCycles.DeadlocksLast`). So renames that all go upward in one order of names
  never deadlock (`Deadlocks.NoWaitCycle`) and all requests can come to their end
  (`Completion.EveryRequestEnds`), while a rename of a table to its own name always waits
  for itself (`Deadlocks.RenameToItselfStops`).
- Not every read at a fixed snapshot id repeats. One that the table has reached does
  (`Reads.RepeatableReads`), and so does any id that has been given away, unless to a
  commit of this table that is still under way (`StableReads.SettledReadsRepeat`). In a
  server at rest some continuation changes what a read answers exactly if the read
  reaches the next snapshot id, and there is a partition id left for a new row or a
  listed row that can be deleted (`StableReads.ReadsMoveIff`). A requested 0 follows the
  current snapshot, so it reaches every id still to come; an id from 2^63 on is negative
  in the database and reaches none.
- Spec changes that overlap can break the chain of versions, because the validation runs
  under the shared lock and the update later under the exclusive one: two requests that
  give one new id different meanings are both recorded (`Overlaps.OverlapBreaksHistory`).
  Some run records a broken history exactly if changes may overlap
  (`Overlaps.BrokenHistoriesIff`).
- The comment in the validator asks for unchanged fields, but the code does not compare
  transform parameters, so a bucket count can change
  under an unchanged id. No accepted change alters a parameter exactly when the
  current spec has no bucket or truncate field (`SpecWire.ParamsKeptIff`).
- A table can be purged only as long as no transaction row ever named it
  (`Lineage.PurgeIsAllOrNothing`): creating a table and beginning one transaction on it
  is enough for a purge to fail (`Retention.ReaderBlocksPurge`), and it fails for ever, for
  transaction rows are never deleted (`Retention.NamedForEver`).
- Registering an active transaction id a second time leaves a pin behind for ever: after
  any run the pins of a snapshot are its readers and one more for every time a reader of
  it was overwritten (`Transactions.LeakedPinsStay`). The counts are right exactly if no
  call registered an active id (`Transactions.PinsAgreeIff`).
- A spec survives the way through its wire form exactly when its ids and
  parameters fit 32 bits, no parameter is zero and its transforms are known
  (`SpecWire.RoundTripIff`).
- A creation request with an empty partition spec always fails: the empty text is
  handed to a JSON column. The names of soft-deleted tables stay taken.
- The deletion count of a snapshot is the number of requested keys, in 32 bits. It is the
  number of rows that the commit deleted exactly if as many listed rows and added files
  have their key among the requested ones (`DeletionCounts.DeletionCountIff`); a commit
  that asks for a key of no row counts one deletion too many
  (`DeletionCounts.AbsentKeyIsCounted`).

## Model

| member | source | states |
|---|---|---|
| Reads.ReachableQueriesReplay | internal/db/pg_client.go:396-447 | in every state of every run, for every live table and every snapshot id, the partition query equals, as an ordered list, the replay of the table's commits up to that id |
| History.TimeTravel | internal/db/pg_client.go:414-419 | visibility windows over stored rows and replay of the list of commits agree at every snapshot id |
| History.AddedAndDeletedIsInvisible | internal/catalog/partition_registry.go:208-224 | a key that one commit both adds and deletes is invisible right after it |
| History.ReplayBetween | internal/db/pg_client.go:414-416 | an id between two snapshots of the history reads as the earlier one |
| Reads.CommitEffect | internal/catalog/partition_registry.go:188-290 | a commit of snapshot n leaves every query of other tables and every query below n as it was; at and above n its own table lists the old rows and the new ones less the deleted keys |
| Reads.UnreachedSnapshotsMove | internal/db/pg_client.go:414-416 | an append that is given snapshot id n changes the query at s exactly if s, as the database reads it, is not below n |
| StableReads.ReadsMoveIff | internal/catalog/partition_registry.go:323-339 | in every reachable state of a server with request slots, all at rest, some continuation that keeps the table changes what a server read at s answers exactly if s, or 2^63 - 1 for a requested 0, is not below the next snapshot id, and a partition id is left or a row is listed |
| StableReads.SettledReadsRepeat | internal/db/pg_client.go:414-416 | in any reachable state, a read below the next snapshot id is the same in all later states if no commit of the table under way has drawn an id up to it, whether the table has reached it or not |
| StableReads.CommitFromRest | internal/catalog/partition_registry.go:144-298 | in a server at rest a commit on the current snapshot has a run in which it succeeds, whenever the sequences suffice |
| Reads.RepeatableReads | internal/server/metadata_server.go:667-693 | a snapshot the table has reached reads the same in all later states of a run, under any requests and even a new name, until the table is gone |
| Reads.TransactionReadsRepeat | internal/server/metadata_server.go:648-693 | a transaction is given the snapshot that was current when it began, and if that is nonzero a server read at it lists the same in all later states until the table is gone |
| Reads.MetadataIsConsistent | internal/server/metadata_server.go:186-209 | the nonzero snapshot resolved under the first lock of a metadata request lists under the second lock what it listed when it was resolved |
| Reads.NoStaleReads | internal/catalog/partition_registry.go:52-82 | without renames and drops, whatever a reader is served is the query's answer while it holds its lock, and a cached entry differs from the query only while the committer of its table holds the exclusive lock and owes the invalidation |
| Reads.CachedRowsAreCurrent | internal/catalog/partition_registry.go:70-80 | when a reader puts its rows into the cache they still equal the query's answer |
| Reads.StaleOnlyWhilePending | internal/server/metadata_server.go:301-304 | with all requests allowed, an entry that differs from the query belongs to a name whose invalidation is pending |
| Reads.HitServesCurrent | internal/catalog/partition_registry.go:64-69 | a cache hit equals the query's answer unless a rename or drop of the name has yet to invalidate |
| Reads.InvalidationEmpties | internal/catalog/partition_registry.go:300-305 | once the invalidation of a name has run no entry of it is left, for any snapshot |
| Scenarios.StaleReadsIff | internal/server/metadata_server.go:289-356 | some run serves a reader rows that the query does not answer exactly if the cache is on and drops or renames are among the requests |
| Scenarios.DropLetsAStaleReadThrough | internal/server/metadata_server.go:346-356 | for any table name, a run of one create, one drop and two reads in which the second read is served from the cache although the query answers that there is no table |
| Scenarios.RenameLetsAStaleReadThrough | internal/server/metadata_server.go:299-304 | the same for readers of the old name of a renamed table |
| StoreSteps.RunInv | internal/lock/lock_manager.go:29-39 | every state of every interleaving satisfies the invariant: good relations, exclusive locks, distinct drawn ids, a coherent cache |
| StoreSteps.StepKeepsGood | internal/catalog/catalog_manager.go:40-198 | every step of every request keeps ids, references and per-table histories in order |
| Runs.StepFrame | internal/lock/lock_manager.go:35-39 | a step changes what is stored only for names its request has locked exclusively |
| Paging.PagingIsComplete | internal/server/metadata_server.go:413-470 | a client following page tokens through a reached nonzero snapshot collects exactly the query's list, each row once and in order, whatever commits land in between, and is done after one request more than there are pages |
| Paging.FollowFrom | internal/db/pg_client.go:464-480 | as long as each request meets the same list, following the tokens cuts it into consecutive pages with an empty one at the end |
| Paging.PageIsBehind | internal/db/pg_client.go:464-480 | for every last id, of a listed row or not, a page holds exactly the listed rows with a greater id, in the order of their ids, cut at the page size |
| Paging.QueryPageMeans | internal/db/pg_client.go:449-480 | the paged query answers a live table alone, with such a page; a page size that is not positive stands for 1000 |
| Paging.ListingMeans | internal/server/metadata_server.go:413-470 | a listing request in full, by row ids: the page behind the token with the token of its last row, or the whole listing without one, or not found |
| Paging.PagingNeverRepeats | internal/server/metadata_server.go:413-470 | a client that pages at any snapshot id, 0 included, while the table changes, collects strictly growing ids, so no row twice, and if it reaches the empty page it has every row that was listed at each of its requests |
| Lineage.LinearHistory | internal/catalog/partition_registry.go:152-206 | in every reachable state a table's snapshots form one chain with growing ids, each parent being the immediate predecessor, 0 for the first, and the head being the current snapshot |
| Lineage.OneWinnerPerParent | internal/transaction/mvcc_manager.go:75-78 | of two commits of one table that become visible in a run, the later one names a later parent, so at most one succeeds for each parent |
| Lineage.PublishedOnParent | internal/catalog/partition_registry.go:161-181 | a commit becomes visible only while its parent is the current snapshot, and then replaces it as the current one |
| Lineage.FailedCommitOnlyDraws | internal/catalog/partition_registry.go:144-206 | a commit that fails, in any run, leaves relations, histories and cache alone at each of its own steps, and its table ends as it was when the commit got the lock, whatever other requests do meanwhile |
| CommitCalls.CommitAlone | internal/catalog/partition_registry.go:144-298 | the steps of a commit that is not interrupted end exactly as its call does: in the state and with the invalidation of a successful call, or with nothing but sequences moved |
| DeletionCounts.DeletionCountIff | internal/catalog/partition_registry.go:188-196 | for every commit of every run, the rows stamped with its snapshot are as many as the listed rows and added files whose key it names, and the snapshot's deletion count is that number exactly if as many keys were requested |
| DeletionCounts.AbsentKeyIsCounted | internal/catalog/partition_registry.go:188-224 | a run, for any table name and key, that ends with a snapshot which counts one deletion and deleted no row |
| DeletionCounts.SnapshotStaysOnRecord | internal/catalog/partition_registry.go:188-196 | in every later state the snapshot row of a commit has the parent, the operation and the counts of its request |
| Lineage.ManifestConservation | internal/catalog/partition_registry.go:226-276 | for every committed snapshot the manifest list counts its manifest files, at most two; their sums are the snapshot row's counts and those of the rows born in it; the visible count changes from parent to child by rows born less rows deleted |
| History.VisibleCountChange | internal/db/pg_client.go:1090-1119 | the visible count of a snapshot is its parent's, plus the rows it added, less the rows it stamped deleted |
| Lineage.VersionHistories | internal/catalog/catalog_manager.go:77-155 | in every reachable state the spec history holds exactly versions 1 to the current one and the schema history versions 2 to the current one, each ending in the table's own |
| Lineage.PurgeIsAllOrNothing | internal/db/pg_client.go:185-226 | in every reachable state a purge succeeds exactly for a live table that no transaction names; all deletes but the last are safe; on success no row of the table id is left and every other name answers every query as before |
| Purging.DeletesAreSafe | internal/db/pg_client.go:201-221 | after each delete of a purge the foreign keys hold, for the last one exactly if no transaction names the table |
| Retention.NamedForEver | internal/db/pg_client.go:325-350 | once a transaction row names a table id, in all later states some row has that id and no purge of it succeeds |
| Retention.NamedRowsStay | internal/db/pg_client.go:396-447 | the rows stored for a settled snapshot of such a table are the same in all later states, through renames and drops of any kind |
| Retention.ReachedIsSettled | internal/catalog/partition_registry.go:183-206 | every snapshot id up to a table's current one is settled, in every reachable state |
| Retention.ReaderBlocksPurge | internal/db/pg_client.go:185-226 | a run, for any table name, of a creation, a transaction that begins and a purge that runs and changes nothing |
| SpecRuns.HistoriesAreEvolutions | internal/server/metadata_server.go:312-334 | in any run whose spec changes do not overlap, every recorded version was accepted against the one before it, for every table |
| SpecRuns.IdsMeanTheSameForEver | internal/catalog/partition_spec_store.go:159-203 | in such runs a field of any version is in every later version with the same id, column and transform, ids within a version are distinct, and an id that a version introduces exceeds all ids of all earlier versions |
| PartitionSpecs.NewIdsExceedAllEarlier | internal/catalog/partition_spec_store.go:195-203 | an id that a version introduces is greater than every id of every earlier version |
| PartitionSpecs.FieldsSurvive | internal/catalog/partition_spec_store.go:169-193 | along a history of accepted changes every field survives in every later version |
| PartitionSpecs.ValidateSpecChange | internal/catalog/partition_spec_store.go:118-206 | accepts exactly the changes the declarative rule allows, none that gives a current id another source column or transform, and a rejection names something that is wrong |
| PartitionSpecs.AllowedMeans | internal/catalog/partition_spec_store.go:118-206 | the declarative rule spelled out: which fields are well-formed, which current fields must be found again, and that new ids exceed 0 and all current ones |
| PartitionSpecs.ChangedMeaningIsRejected | internal/catalog/partition_spec_store.go:174-186 | every proposal that changes the source column or the transform under a current id is rejected |
| PartitionSpecs.IdsKeepTheirMeaning | internal/catalog/partition_spec_store.go:174-186 | along a history of accepted changes an id keeps its source column and its transform |
| PartitionSpecs.CheckFields | internal/catalog/partition_spec_store.go:123-146 | the first loop accepts exactly nonempty specs of well-formed fields with distinct ids |
| PartitionSpecs.CheckPreserved | internal/catalog/partition_spec_store.go:169-193 | the second loop accepts exactly proposals in which every current field is found with its id, its source column and its transform |
| PartitionSpecs.CheckNewIds | internal/catalog/partition_spec_store.go:195-203 | the third loop accepts exactly proposals whose new ids exceed 0 and all current ids |
| PartitionSpecs.OverlappingChangesBreakTheChain | internal/catalog/partition_spec_store.go:169-203 | to any well-formed spec two fields that give one new id different meanings can each be added, but not one after the other |
| Overlaps.OverlapBreaksHistory | internal/server/metadata_server.go:311-335 | for any table name and any such two fields, a run of one creation and two spec changes that records a version the version before it does not allow |
| Overlaps.BrokenHistoriesIff | internal/server/metadata_server.go:311-335 | some run records a broken history of some table exactly if spec changes may overlap |
| SpecWire.RoundTripIff | internal/server/metadata_server.go:97-169 | a spec survives the way to the wire and back exactly when each field fits the wire |
| SpecWire.ParamsKeptIff | internal/catalog/partition_spec_store.go:174-186 | no accepted request changes a parameter of a received spec exactly when the spec has no field with a parameter |
| SpecWire.ReceivedSpecsSurvive | internal/server/metadata_server.go:97-150 | every spec built from a message survives the way to the wire and back unchanged |
| SpecWire.MessageRoundTripIff | internal/server/metadata_server.go:97-169 | a message comes back unchanged exactly when its transform numbers are known |
| SpecWire.ProtoToPartitionSpec | internal/server/metadata_server.go:97-115 | the converter from the wire, field by field, a parameter of 0 standing for none, and including the missing message |
| SpecWire.PartitionSpecToProto | internal/server/metadata_server.go:136-150 | the converter to the wire, field by field, with ids and parameters reduced to 32 bits |
| SpecWire.TransformTable | proto/metadata_service.proto:213-221 | the numbers of the seven transforms, with the identity for unknown numbers and 0 for unknown names |
| RenameCycles.DeadlockIff | internal/catalog/catalog_manager.go:157-173 | for any set of renames, some run in which only these renames wait for locks reaches a cycle of waiting requests exactly if the renames form a circle of names |
| RenameCycles.DeadlocksLast | internal/lock/lock_manager.go:35-39 | no step of any request breaks a cycle of waiting requests, and none of them takes a step |
| Deadlocks.NoWaitCycle | internal/catalog/catalog_manager.go:157-173 | if all renames in flight go upward in one order of names, no reachable state has a cycle of waiting requests |
| Deadlocks.NeverAllStuck | internal/lock/lock_manager.go:16-39 | under the same condition, whenever any request is in flight some request can take a step that leads it on; giving up a commit for no reason does not count |
| Deadlocks.NoOvertaking | internal/lock/lock_manager.go:29-39 | from its announcement on a writer is not overtaken: whoever reads its table later has been reading it then, and no one else writes it |
| Completion.EveryRequestEnds | internal/lock/lock_manager.go:16-39 | with upward renames every reachable state has a continuation, without new requests and without such failures, in which all requests have ended |
| Completion.WorkIsBounded | internal/catalog/partition_registry.go:144-298 | from any reachable state on, as long as no new request arrives, a run has no more steps than the work that was left, so nothing goes on for ever |
| Deadlocks.RenameToItselfStops | internal/catalog/catalog_manager.go:157-162 | a rename of a table to its own name waits for itself and has no step left |
| Inclusion.LargerCacheIncludesSmaller | internal/cache/lru.go:37-99 | on every trace of look-ups, puts and invalidations the smaller cache's key order is a subsequence of the larger's, their sizes differ by no more than the capacities, and the larger never has fewer hits |
| Eviction.EvictedIsLeastRecentlyUsed | internal/cache/lru.go:52-74 | on every trace, a put or fetch takes another key out only of a full cache that lacks its own key, and then the one key whose last put or hit lies before those of all others |
| Eviction.RunByLastUse | internal/cache/lru.go:37-74 | on every trace the entries stand in the order of their last puts or hits |
| Lru.LRU.Get | internal/cache/lru.go:37-50 | a key that is held is answered with its value and its entry moves to the front past the others; otherwise nothing moves |
| Lru.LRU.Put | internal/cache/lru.go:52-74 | a known key moves to the front with the new value, a new key goes in front of the old entries, and in a full cache of all but the last of them |
| Lru.LRU.InvalidateIf | internal/cache/lru.go:86-99 | removes exactly the matching keys and keeps the order of the rest, whatever the order of the walk |
| Lru.LRU.Invalidate | internal/cache/lru.go:76-84 | removes exactly the entry of the key, if there is one |
| Lru.LRU.EvictBack | internal/cache/lru.go:62-70 | drops the last entry of the recency order and counts it |
| Lru.Position | internal/cache/lru.go:14-24 | every key of the map has its cell in the list |
| CacheKeys.KeyInjective | internal/catalog/partition_registry.go:341-343 | different names or snapshots never share a cache key, even with colons in names |
| CacheKeys.InvalidatedKeys | internal/catalog/partition_registry.go:300-305 | an invalidation of t removes exactly the keys of t and of names that start with t and a colon |
| Decimal.FormatInjective | internal/catalog/partition_registry.go:342-342 | different numbers have different decimal texts |
| Decimal.ParseUndoesFormat | internal/server/metadata_server.go:419-424 | a formatted partition id is read back unchanged from a page token |
| Decimal.FormatMeans | internal/catalog/partition_registry.go:342-342 | the text of a number is its decimal digits, without leading zeros |
| Decimal.ParseSigned | internal/server/metadata_server.go:419-424 | a signed text is read as the number or its negative, if that is in the range of 64 bits |
| Decimal.ParseRefuses | internal/server/metadata_server.go:419-424 | a text with anything but digits behind its sign is refused |
| Transactions.PinsAgree | internal/transaction/mvcc_manager.go:30-117 | after any run of register, commit, abort and cleanup with fresh ids each pin count is the number of active readers and no zero entry remains |
| Transactions.PinsAgreeIff | internal/transaction/mvcc_manager.go:30-117 | after any run the counts are right exactly if no call of it registered an id that was active |
| Transactions.LeakedPinsStay | internal/transaction/mvcc_manager.go:30-117 | after any run the count of a snapshot is the number of its active readers plus the number of registrations that overwrote one of them |
| Transactions.RegisterAgreesIff | internal/transaction/mvcc_manager.go:30-40 | registering keeps the counts right exactly when the id was not active |
| Transactions.CommitSucceedsOnce | internal/transaction/mvcc_manager.go:42-60 | a commit reports success at most once for an id |
| Transactions.CommitsInTimeIff | internal/transaction/mvcc_manager.go:42-60 | in any run with fresh ids, the commit of a registered id that nothing has ended before succeeds exactly if no more than the timeout has passed since its registration |
| Transactions.CleanupEndsIff | internal/transaction/mvcc_manager.go:80-96 | after any run a cleanup ends an active transaction exactly if more than the timeout has passed since it started |
| Transactions.RemovedNeverCommits | internal/transaction/mvcc_manager.go:42-73 | an id that was removed in any way is never committed with success again |
| Transactions.MVCCManager.CommitTransaction | internal/transaction/mvcc_manager.go:42-60 | true exactly for an active id of which no more than the timeout has passed since its start; the id and its pin are gone either way |
| Transactions.MVCCManager.CleanupExpiredTransactions | internal/transaction/mvcc_manager.go:80-96 | keeps exactly the entries of which no more than the timeout has passed since their start, gives up the pins of the others, leaked pins apart, and returns their number |
| Transactions.MVCCManager.IsSnapshotPinned | internal/transaction/mvcc_manager.go:104-108 | true exactly if some active transaction reads the snapshot |
| ColumnBounds.Aggregate | internal/db/pg_client.go:750-804 | one result row for each column id that occurs, with the wrapped sums of its counts and the least and greatest of its bounds |
| ColumnBounds.FoldMeans | internal/db/pg_client.go:773-791 | the fold has wrapped sums of the counts and the least and greatest nonempty bounds, empty if there are none, in the order of texts by their first difference |
| ColumnBounds.LessIffPrecedes | internal/db/pg_client.go:781-786 | a text is less than another exactly if it is a proper beginning of it or less at the first place where they differ |
| ColumnBounds.OneEntry | internal/db/pg_client.go:773-791 | one entry alone comes back with its own counts, reduced to a word, and its own bounds |
| ColumnBounds.BoundsIgnoreFileOrder | internal/db/pg_client.go:773-791 | reordering the files changes nothing |
| ColumnBounds.BoundsOfConcatenation | internal/db/pg_client.go:773-791 | the bounds of two lists of files together are the merge of their bounds |
| Registry.PartitionRegistry.CommitSnapshot | internal/catalog/partition_registry.go:144-298 | succeeds exactly if the table is live, the parent is current and the sequences suffice; then the state is that of the commit function and the table's entries are gone from the cache; otherwise only sequences may have moved |
| Registry.PartitionRegistry.InsertPartitions | internal/catalog/partition_registry.go:208-215 | the insert loop adds the files in order under consecutive ids |
| Registry.PartitionRegistry.MarkDeleted | internal/catalog/partition_registry.go:217-224 | the delete loop stamps exactly the undeleted rows of the table whose key is listed |
| Registry.PartitionRegistry.InsertManifests | internal/catalog/partition_registry.go:226-276 | writes the manifests of the commit and one manifest list that counts them |
| Registry.PartitionRegistry.AddedManifest | internal/catalog/partition_registry.go:228-246 | the loop over the files yields their keys and the wrapped sum of their rows |
| Registry.CommitCallKeepsGood | internal/catalog/partition_registry.go:144-298 | a commit call keeps the invariant of the catalog, and after its invalidation a cache that was current is current again |
| Registry.PartitionRegistry.GetPartitions | internal/catalog/partition_registry.go:52-82 | answers from the cache on a hit and from the query on a miss, which it then caches; a current cache makes the two the same and stays current |
| Registry.PartitionRegistry.GetStats | internal/catalog/partition_registry.go:110-142 | totals are the wrapped sums over the present listing, and the average times the number of rows falls short of the total by less than that number, zero for nothing |
| Registry.TotalsMean | internal/catalog/partition_registry.go:126-134 | the totals of a list are the sum of those of its parts, down to the figures of each row |
| Registry.PartitionRegistry.InvalidateTableCache | internal/catalog/partition_registry.go:300-305 | removes the keys with the table's prefix and counts them |
| Commits.CommittedRows | internal/db/pg_client.go:708-748 | after the inserts and the stamping the table's ordered rows are the old ones followed by the new ones, stamped |
| Commits.OtherRows | internal/db/pg_client.go:828-858 | the rows of every other table are untouched |
| Commits.StampOneMore | internal/db/pg_client.go:828-858 | deleting key by key is deleting by the whole list |
| Commits.ManifestsMean | internal/catalog/partition_registry.go:226-276 | a commit has a manifest for its files and one for its deletions, as far as there are any, with their keys, counts and rows and numbered paths |
| Commits.PathsDiffer | internal/catalog/partition_registry.go:239-260 | no two manifests of a table share a path, in one commit or in two |
| Preservation.CommitKeepsGood | internal/catalog/partition_registry.go:188-290 | a commit keeps ids, references, chain, manifests and visible lists of all tables in order |
| PreservationDdl.CreateKeepsGood | internal/catalog/catalog_manager.go:40-75 | creating a table keeps the invariant and starts an empty history |
| PreservationDdl.AlterSpecKeepsGood | internal/catalog/catalog_manager.go:77-113 | altering the spec of a live table always finds the next version free and keeps the invariant |
| PreservationDdl.AlterSchemaKeepsGood | internal/catalog/catalog_manager.go:122-155 | altering the schema keeps the invariant, so its history stays without gaps |
| PreservationDdl.RenameKeepsGood | internal/db/pg_client.go:170-183 | a rename keeps the invariant: ids and histories follow the table |
| Database.PGClient.DropTable | internal/db/pg_client.go:185-240 | the seven deletes in order, or the mark, have exactly the effect of the drop function, and fail exactly when it does |
| Database.PGClient.InsertSnapshotTx | internal/db/pg_client.go:510-552 | an unknown table gives id 0 without error; otherwise the next id with its row, or an error when the sequence is used up |
| Catalog.CreateMeans | internal/catalog/catalog_manager.go:40-75 | a creation needs a spec and a new name, stores both texts of the request as first versions and touches no other row |
| Catalog.AlterSpecMeans | internal/catalog/catalog_manager.go:77-113 | a spec change stores the proposed spec as next version in the table and in the history and touches no other row |
| Catalog.AlterSchemaMeans | internal/catalog/catalog_manager.go:122-155 | a schema change needs a live table; the table and the last row of the history carry the text of the request |
| Catalog.RenameMeans | internal/db/pg_client.go:170-183 | a rename needs a live table and a new name and moves the row as it is |
| Catalog.SoftDropMeans | internal/db/pg_client.go:227-240 | a drop without purge needs a live table and only marks its row |
| Catalog.BeginMeans | internal/db/pg_client.go:325-350 | a transaction row records table and snapshot behind the rows before it |
| CatalogManager.Manager.CreateTable | internal/catalog/catalog_manager.go:40-75 | succeeds exactly for a new name with a spec, and then the table has the schema and the spec of the request; a failure leaves the relations as they were |
| CatalogManager.Manager.AlterTablePartitionSpec | internal/catalog/catalog_manager.go:77-113 | one transaction over the table row and the spec history, all or nothing; on success the table has the given spec |
| CatalogManager.Manager.AlterTableSchema | internal/catalog/catalog_manager.go:122-155 | one transaction over the table row and the schema history, all or nothing; on success both carry the given text |
| CatalogManager.Manager.RenameTable | internal/catalog/catalog_manager.go:157-173 | for two different names, succeeds exactly for a live table and a new name that no row has, and then does what the rename function does |
| CatalogManager.Manager.DropTable | internal/catalog/catalog_manager.go:175-198 | succeeds exactly when the drop function does; a failed purge rolls everything back |
| LockTable.Manager.GetOrCreate | internal/lock/lock_manager.go:16-27 | a name keeps its lock for ever and no two names share one |
| Server.MetadataServer.GetPartitions | internal/server/metadata_server.go:413-470 | a paged reply holds exactly the listed rows behind the token, cut at the page size, with the token of the last; an unpaged one is the listing while the cache is current; a sound server stays sound, a current cache current, and the cells it adds to the cache are new |
| Server.MetadataServer.CommitSnapshot | internal/server/metadata_server.go:529-562 | a file without rows is refused before anything happens; otherwise success as in the registry, and then the snapshot row has the parent and operation of the request and the files are stored as sent, with an empty operation or format filled in; a refusal leaves relations and cache alone; the server stays sound and a current cache current |
| Server.MetadataServer.CreateTable | internal/server/metadata_server.go:171-184 | succeeds exactly with a spec text, a new name and an id left; then the table has the schema of the request and one identity field on the column that the text names; the server stays sound and a current cache current |
| Server.MetadataServer.AlterPartitionSpec | internal/server/metadata_server.go:311-335 | for a request alone on the server: applied exactly if the rule allows the change, and then the table has the proposed spec, else nothing stored changes; the server stays sound and a current cache current |
| Server.MetadataServer.RenameTable | internal/server/metadata_server.go:289-310 | both names are required; for different ones it succeeds exactly for a live table and a new name that no row has; the server stays sound and a current cache current |
| Server.MetadataServer.DropTable | internal/server/metadata_server.go:346-361 | the name is required; succeeds exactly when the drop function does, and a failure leaves everything as it was; the server stays sound and a current cache current |

## Left out

- Everything beyond one server process: several servers on one database, restarts, the migration script.
- The Postgres driver, SQL text, connections, network errors and commits of unknown outcome: a transaction is atomic and its outcome known.
- JSON texts: specs, stats, schemas and partition summaries are their parsed values, so the checks for well-formed JSON (also `ValidateSchemaChange`) are not there.
- Wall-clock times: `now` is a parameter of the transaction manager; `committed_at`, and the order of `ListSnapshots` by it, are not modelled.
- Status values of transaction rows: abort overwrites them unconditionally and expiry does not record them.
- The 32-bit wrap-around of the spec and schema version counters, and of the LRU's 64-bit hit, miss and eviction counters; versions and counters are unbounded here.
- Byte strings: names, keys and bounds are sequences of characters compared one by one.
- Registry.PartitionRegistry.CommitSnapshot: runs without its lock calls, because a blocking call has no meaning in a sequential method; `Interleaving` has the lock steps, with the same commit function.
- CatalogManager.Manager.RenameTable: requires two different names, because with equal ones the second lock call never returns (`Deadlocks.RenameToItselfStops`), so there is no outcome to state.
- Server.MetadataServer.RenameTable: requires two different names, for the same reason; with both empty it is refused before any lock.
- StableReads.ReadsMoveIff: is about states in which all requests are at rest; with requests in flight `StableReads.SettledReadsRepeat` names ids that stay, and `Reads.CommitEffect` gives what a commit under way will change.
- Server.MetadataServer.AlterPartitionSpec: is stated for a request that runs alone; what interleaved requests do is in `SpecRuns` and `Overlaps`.
- Database.PGClient.DropTable: the deletes replace whole relations at a time, as SQL statements do; row order within a statement is not modelled.
- LockTable.Manager.GetOrCreate: the mutex around the map is not modelled, so calls are one at a time.
- Lru.LRU.Get: the cells of the linked list are a sequence of shared objects without their own next and previous pointers, which belong to the standard library's `container/list`.
- Read-only listings that would add easy members: `ListTables`, `ListSnapshots`, `GetSnapshot`, `GetManifestList`, `GetManifestFile`, the spec and schema history readers, the totals of `GetTableMetadata`, `HitRate`, `BeginTransaction` as a handler (its steps are in `Interleaving` and `Transactions`).
- Table properties, client ids and isolation levels, which nothing here depends on.
- Generated gRPC code, configuration, start-up, signal handling and benchmarks.
