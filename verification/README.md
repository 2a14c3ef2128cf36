# Holon: verified models of its data and control planes

Holon ingests tenant data into Iceberg tables, compacts streams, runs transform pipelines,
applies reversible actions to an ontology, answers authorization questions, and drives agent
sessions. This project models the parts whose correctness depends on the order of steps across
crashes and concurrent calls, and the codecs those parts rely on, and proves what each promises
over every run or every input. `dafny verify dfyconfig.toml` checks the project.

Code that changes state is a class or a method with loops here too, proved against functions on
values; the properties are lemmas about those functions and about runs of state machines whose
steps are the code's own awaits, commits and failure points.

## What is modelled

- **Incremental ingest** (`CursorWindow`, `CursorCommit`, `RowBatches`, `IngestProtocol`,
  `IngestSync`, `SnapshotCommit`). The cursor tracker with its capped boundary, the commit of a
  resume position as a join, adoption of the cursor stamped on the last snapshot, the commit
  retry loop against a compare-and-swap catalog, and the whole sync as a protocol in which a
  crash may fall between any two steps and a commit may land unreported. Over every run no row
  lands twice while at most 4096 rows share a key, and none is lost whatever the number. The
  sync method joins these parts: its table is the rows of the catalog's history, and whatever
  the network does to its commit attempts, each call extends one run of that protocol.
- **File ingest** (`FileCursor`, `FileSync`). Selection by `(mtime, key)`, the JSON envelope of
  the cursor, and the sync protocol on file versions, over the same catalog.
- **Structural actions** (`StructuralAction`). Apply and revert over edits, overlays, instances
  and tombstones with their two undo logs.
- **Stream compaction** (`StreamCompaction`). Last write wins with replay from the committed
  offset.
- **Concurrent machinery** (`Scheduler`, `Outbox`, `DenialCache`, `Revocation`). The two-level
  semaphore runner, the transactional outbox relay, the denial cache around an await, and the
  revocation snapshot with a stack of captures and replay.
- **Agent turns and pipelines** (`AgentTurn`, `AgentRows`, `AgentOverlap`, `PipelineRun`). The tool
  loop with budgets, its durable transcript, what each of its rows answers, and every write that
  may fail; several turns of one session at the same time; the step list check and the step loop.
- **Codecs and scanners** (`SoqlCursor`, `SoqlClauses`, `AuditPaging`, `PageToken`, `Identifiers`, `Decimal`,
  `Text`). The SOQL quote scanner and filter insertion, read against the clauses of
  the outer query; keyset paging with its tokens, and the
  two identifier encodings.

## Hypotheses

- One sync of a dataset at a time. Source rows have distinct identities, never change, carry a
  non-null cursor of one key kind, and are delivered at most once per fetch. A row that arrives
  late has a key at or above the cursor stored or being stored. It may arrive during a fetch, and
  the fetch may deliver it or not, but not if it passes by another late row with a lower key. The
  sync method as a whole takes rows that arrive between two calls.
- A commit request that is not answered either landed before the failure was seen or never
  lands. The table's current snapshot is written by syncs only.
- One outbox relay, rows visible in id order. A relay without a producer for dead letters counts
  as losing each of them. Audit ids are visible in order too.
- Identity writes a revocation row and its event in one transaction. The runs of the revocation
  protocol take one refresh of a process at a time; overlapping ones have their own lemmas.
- `str.lower` keeps the place of each character where a lemma speaks of positions in the tail of
  a query, and of the characters of the trailing keywords where it speaks of clauses, as it does
  on every text without U+0130; everywhere else it is any function on text.
- Engines, transform functions and cast checks are deterministic.

## Findings

Where a promise does not hold on all inputs, the code is kept as it is and a lemma gives the
exact condition, beside a run or an input that fails.

- The boundary keeps 4096 identities. A second sync of an unchanged source appends a row again
  exactly when more rows than that share the top key (`IngestProtocol.SecondSyncDuplicatesIff`);
  from any state without a repeated row a sync repeats one exactly when a row of the table passes
  the filter of the position in force (`IngestProtocol.QuietSyncRepeatsIff`).
- The stored boundary can exceed 4096, since the commit unites it with the stored list after the
  cap (`CursorCommit.StoredListWithinCapIff`), and it has no bound at all: for every number there
  is a run that stores more identities (`IngestProtocol.StoredListUnbounded`).
- Adoption leaves a differently spelled cursor at the stored key alone, so it is the join except
  in that case (`CursorCommit.AdoptIsJoin`).
- A file version not read yet is read by the sync that lists it if it is above the cursor, and
  otherwise by no later sync (`FileSync.UnreadVersionIsReadIff`): an upload whose modification
  time is not above the cursor is lost.
- Reverting an action restores the tables exactly when created objects had no row, edit or
  tombstone and deleted ones no tombstone before. Recreating a deleted object and reverting
  loses its tombstone (`StructuralAction.RevertUndoesApplyIff`).
- A restarted stream consumer can hold values older than Postgres
  (`StreamCompaction.ReplayBelowHighestIsStale`). Below the highest position ever persisted each
  value is the last write up to some position between its own and that one
  (`StreamCompaction.ValuesAreLastWrites`), so the map is the fold of what was consumed in every
  such state if and only if no write in between changes the fold
  (`StreamCompaction.AlwaysFoldIff`).
- When `cancel_all` ends, the next submission can give a key two live tasks exactly when a
  registered task is still live, one submitted while it gathered
  (`Scheduler.KeyCanRunTwiceIff`, `Scheduler.SubmitDuringCancelAllRunsTwice`). Runs in which that
  never happens keep one live task per key (`Scheduler.OneTaskPerKey`), and runs without such a
  submission are among them (`Scheduler.SequentialForgetsNothing`).
- An outbox row whose envelope cannot be read, or that passes validation and is refused by the
  producer each time, as one too large is, is never marked, so no later row is relayed
  (`Outbox.StuckRowBlocks`); the comment in the code promises to skip poison rows only for
  registry failures. From every reachable state an undisturbed relay delivers everything if and
  only if no unmarked row is of those kinds (`Outbox.DeliversIff`).
- A denial evaluated across an invalidation is stored after it. Some later run answers a denial
  begun before the invalidation exactly when the cache may hold an entry and a call about the
  principal, still within its time-to-live, is waiting (`DenialCache.InvalidationLeaksIff`).
- Under delegation policy is asked with the actor's country only, so the decision is the
  intersection of what actor and mandant get on their own unless policy alone denies the mandant
  (`DenialCache.DelegationIntersectsGrants`).
- A refresh nested in another drops what was delivered during the inner one unless the outer
  snapshot knows it; of two crossed refreshes the one that ends last drops what was delivered
  before it began and after the first ended unless its own snapshot knows it
  (`Revocation.NestedRefreshes`, `Revocation.CrossedRefreshes`).
- Consumption is stored when a tool round or a turn ends. The session row accounts for every
  tool tried if and only if no turn ended between trying a tool and the next write of the row: in
  a tool call, at a tool row that could not be recorded, at the write after a round, or at the
  write of a round over budget that had tried a tool (`AgentTurn.TurnAccountedIff`,
  `AgentTurn.SeriesAccountedIff`). Then the budget bounds the whole session
  (`AgentTurn.SessionKeepsBudget`), and otherwise nothing does
  (`AgentTurn.DyingTurnsEscapeBudget`).
- All that is for turns one after another; the code takes no lock. Of turns that overlap the last
  writer wins: the row accounts for every tool tried if and only if the turn that wrote it last
  had loaded a row that did and counted every use since (`AgentOverlap.RowAccountsIff`). So `n`
  turns at once try `n` times the budget and none of them raises
  (`AgentOverlap.OverlapEscapesBudget`).
- The step check accepts a cyclic dataset graph (`PipelineRun.RepeatedOutputAllowsCycle`). There
  is none when no step writes a dataset that an earlier step reads, as with distinct outputs
  (`PipelineRun.NoCycle`, `PipelineRun.KeepsInputsIffTopological`).
- An empty output of a table that does not exist is not created, so the step reading it raises
  (`PipelineRun.MissingOutputFailsRun`). A pipeline that succeeds on one store succeeds on
  another with the same inputs exactly when each step's input is there or an earlier step wrote
  rows to it (`PipelineRun.RunSucceedsIff`).
- The cursor envelope of a key with a high surrogate directly followed by a low one decodes to
  another key (`FileCursor.DecodeUndoesEncodeIff`).
- The filter scanner looks for keywords between single spaces and not at parentheses. With the
  outer query read as its words, whatever white space is between them, the filter restricts its
  condition and changes nothing else if and only if the query up to the insertion point ends
  outside literals and parentheses, has no clause in the outer query but a WHERE, has that
  exactly if the scanner found one, and has no OR in it, and the cursor property is no clause
  word (`SoqlClauses.FiltersOuterQueryIff`). Queries that registration accepts and that fail it,
  with the output: a WHERE or a LIMIT behind a line break, a GROUP BY, an OR, a trailing clause
  in a subquery, and a WHERE only in a subquery (`SoqlClauses.NewlineWhereIsRepeated`,
  `SoqlClauses.NewlineLimitIsPassed`, `SoqlClauses.GroupByIsPassed`,
  `SoqlClauses.OrEscapesFilter`, `SoqlClauses.SubqueryClauseTakesFilter`,
  `SoqlClauses.SubqueryWhereMisleads`).
- The unprefixed read alias of a dataset is some tenant's prefixed table name exactly when the
  dataset name itself reads as a tenant, `__` and a table (`Identifiers.LegacyAliasIsPrefixedIff`).

## Model

| member | source | states |
|---|---|---|
| CursorWindow.CapBoundary | services/connectivity/app/cursor_window.py:77-80 | The cap keeps a subset: every identity while there are at most 4096, else exactly the 4096 lowest. |
| CursorWindow.FilterConcat | services/connectivity/app/cursor_window.py:171-195 | What `keep` passes does not depend on where the fetch is cut into batches. |
| CursorWindow.PassesIff | services/connectivity/app/cursor_window.py:171-195 | Without a stored position every row passes; with one exactly the rows whose cursor is above it, or at it under an identity it does not name, and none without a cursor. |
| CursorWindow.TopIsHighest | services/connectivity/app/cursor_window.py:182-195 | The tracked cursor is the first row cursor of the highest key, and is missing only when no row has one. |
| CursorWindow.NothingKeptNothingMoves | services/connectivity/app/cursor_window.py:197-205 | A sync that keeps no row with a cursor returns the cursor it began with, its boundary under the cap, and nothing to store. |
| CursorWindow.CursorTracker.Keep | services/connectivity/app/cursor_window.py:171-195 | Returns exactly the rows at or above the cursor that the boundary does not name, in order, and keeps the running maximum and boundary describing all rows kept so far. |
| CursorWindow.CursorTracker.Note | services/connectivity/app/cursor_window.py:182-194 | One more kept row: a higher key restarts the boundary, an equal key extends it, a lower one leaves it, so the state still describes every kept row. |
| CursorWindow.CursorTracker.Result | services/connectivity/app/cursor_window.py:197-215 | The cursor, capped boundary and changed flag are those of all rows kept over the life of the tracker. |
| CursorWindow.AdvanceCursor | services/connectivity/app/cursor_window.py:218-228 | The one-shot form keeps and advances like the tracker on a single batch. |
| CursorWindow.StreamBatches | services/connectivity/app/cursor_window.py:159-215 | The streaming form hands on exactly the kept rows of all batches and agrees with the one-shot form on the concatenated rows, for every split into batches. |
| CursorCommit.SourceRow.CommitPropertyCursor | services/connectivity/app/source_registry_base.py:198-229 | The stored row becomes the commit of the incoming position over it; a missing row is left alone. |
| CursorCommit.SourceRow.AdoptCommittedResume | services/connectivity/app/ingest_sync.py:37-68 | The stored row becomes the adoption of the stamped cursor; without a stamp or row nothing changes. |
| CursorCommit.JoinLaws | services/connectivity/app/source_registry_base.py:198-229 | The lexicographic join of positions (newer key wins, equal keys unite boundaries) is commutative, associative and idempotent. |
| CursorCommit.CommitIsJoin | services/connectivity/app/source_registry_base.py:205-223 | A commit computes the join of stored and incoming position, up to cursor text. |
| CursorCommit.CommitAllIsLub | services/connectivity/app/source_registry_base.py:198-229 | Any sequence of commits ends at the least upper bound of the positions committed. |
| CursorCommit.CommitOrderIrrelevant | services/connectivity/app/source_registry_base.py:198-229 | Two histories of the same positions, in any order and with any repetition, end at the same position. |
| CursorCommit.CommitNeverMovesBack | services/connectivity/app/source_registry_base.py:205-223 | Under any commits the stored key never decreases, and at one key no identity is forgotten. |
| CursorCommit.AdoptIsJoin | services/connectivity/app/ingest_sync.py:49-68 | Adoption is the join if and only if it is not a differently spelled cursor at the stored key with identities the row lacks. |
| CursorCommit.StoredListWithinCapIff | services/connectivity/app/source_registry_base.py:205-223 | After a sync at the stored key the stored boundary is within 4096 if and only if the cap dropped nothing already stored. |
| CursorCommit.StoredListCanExceedCap | services/connectivity/app/source_registry_base.py:205-223 | A full boundary and one row with a lower identity make the commit store 4097 identities. |
| RowBatches.Regroup | services/connectivity/app/ingest_sync.py:183-196 | Loses, repeats and reorders no row: the output concatenates to the source, in full batches except a last non-empty one. |
| RowBatches.SliceList | services/connectivity/app/ingest_sync.py:185-188 | The same for a source that is a list. |
| RowBatches.RegroupStream | services/connectivity/app/ingest_sync.py:189-196 | The same for a source that is a stream of batches of any sizes. |
| RowBatches.RegroupUnique | services/connectivity/app/ingest_sync.py:183-196 | There is only one such regrouping of the same rows, so how the source was cut cannot be seen. |
| IngestProtocol.NextAtLeastOnce | services/connectivity/app/ingest_sync.py:286-327 | Every step and crash keeps: what the effective position lets a sync drop is in the table, and a running sync has every row in table, staged or pending. |
| IngestProtocol.NextAtMostOnce | services/connectivity/app/ingest_sync.py:286-327 | Every step and crash keeps, within the cap: the effective position describes exactly the table rows at the top key, and no row is twice in the table. |
| IngestProtocol.AdoptSettles | services/connectivity/app/ingest_sync.py:49-68 | Once a position is committed, adopting the stamp it came from changes nothing. |
| IngestProtocol.LandEffective | services/connectivity/app/iceberg_writer.py:194-211 | A landed snapshot moves the effective position to the highest kept key, with all identities there when the cap is not reached, also when it goes unstamped. |
| IngestProtocol.NoRowTwice | services/connectivity/app/cursor_window.py:1-8 | Over every run of syncs, arrivals between and during fetches, crashes and unreported commits, while at most 4096 rows share a key, the table holds no row twice and only source rows. |
| IngestProtocol.NoRowLost | services/connectivity/app/ingest_sync.py:286-327 | Over every run, after a reported commit every row the source held when the fetch began, and every later one the fetch delivered, is in the table, with no bound on rows per key. |
| IngestProtocol.ArrivalInFetchLands | services/connectivity/app/ingest_sync.py:286-327 | In every run, a row that joins a running fetch is in the table once that sync's commit has been reported. |
| IngestProtocol.SuccessfulSyncIsExact | services/connectivity/app/ingest_sync.py:286-327 | If nothing arrived during the sync, the table equals the source as a multiset. |
| IngestProtocol.QuietSyncRecovers | services/connectivity/app/iceberg_writer.py:194-211 | From every reachable state, wherever the last sync died, one undisturbed sync leaves the table equal to the source. |
| IngestProtocol.RefetchKeepsNothingIff | services/connectivity/app/cursor_window.py:197-215 | Reading the same rows again keeps nothing if and only if at most 4096 of them share the top key. |
| IngestProtocol.SecondSyncDuplicatesIff | services/connectivity/app/cursor_window.py:77-80 | The bound is exact: two syncs of an unchanged source leave no row twice if and only if at most 4096 rows share the top key. |
| IngestProtocol.QuietSyncRepeatsIff | services/connectivity/app/cursor_window.py:171-195 | From every state whose table repeats no row, one more sync of an unchanged source repeats one if and only if some row of the table passes the filter of the position in force. |
| IngestProtocol.StoredListUnbounded | services/connectivity/app/source_registry_base.py:205-223 | For every number there is a run of undisturbed syncs at one key after which the stored boundary names more identities than that. |
| IngestSync.Dataset.RunSync | services/connectivity/app/ingest_sync.py:286-327 | For every split of the fetch, every point where the call may die and everything the catalog and the network do to its commit attempts: all calls together are one run of the protocol, the table grows by exactly the kept rows if the commit landed and by nothing otherwise, and the call succeeds exactly if nothing died and the commit returned. While at most 4096 rows share a key no row is in the table twice; after success every source row is in it, the stored row is what adoption would make of it, and within the cap table and source are equal as multisets. |
| IngestSync.Dataset.TableIsDistinct | services/connectivity/app/cursor_window.py:1-8 | In every state reached by calls, within the cap, no row is in the table twice. |
| IngestSync.Dataset.FetchAndStage | services/connectivity/app/ingest_sync.py:287-300 | Adopts the stamp, streams the batches through the tracker, regroups and stages them: the writer holds exactly what the protocol has kept at that point, and nothing is visible yet. |
| IngestSync.Dataset.StopInFetch | services/connectivity/app/ingest_sync.py:287-300 | A sync that dies while fetching, whatever it has staged, leaves the table and ends in a crash of the protocol. |
| IngestSync.Dataset.FinishSync | services/connectivity/app/ingest_sync.py:286-327 | A sync that reaches its commit: the table grows exactly by what landed, and a reported commit leaves the source in the table. |
| IngestSync.Dataset.CommitAndStore | services/connectivity/app/ingest_sync.py:317-327 | Stamps and commits the staged rows through the retry loop, then stores the cursor. The commit landing unreported, not landing, and dying between commit and store are the three ways the protocol leaves a sync. |
| IngestSync.FetchRuns | services/connectivity/app/ingest_sync.py:287-300 | Adopting, reading and staging any number of batches is a run of the protocol with exactly the undelivered rows pending. |
| IngestSync.EndRuns | services/connectivity/app/ingest_sync.py:317-327 | However the commit ends, the sync ends in the state the protocol reaches by a reported landing, an unreported one or a crash. |
| IngestSync.ReportedIsExact | services/connectivity/app/ingest_sync.py:317-327 | A reported commit of a complete fetch leaves exactly the source rows in the table, each once within the cap. |
| IngestSync.StoredIsEffective | services/connectivity/app/ingest_sync.py:37-68 | After a reported sync, with rows staged or none, the stored row is already what adoption of the current stamp would make of it. |
| SnapshotCommit.SnapshotWriter.Add | services/connectivity/app/iceberg_writer.py:213-227 | Staged rows grow by the batch; the transaction opens at the first batch with rows, at the head of that moment. |
| SnapshotCommit.SnapshotWriter.NoteResume | services/connectivity/app/iceberg_writer.py:194-211 | The cursor is stamped on the last staged snapshot only, and on nothing when nothing is staged. |
| SnapshotCommit.SnapshotWriter.Landed | services/connectivity/app/iceberg_writer.py:275-283 | True exactly when the table loads and a snapshot carries this sync's id. |
| SnapshotCommit.SnapshotWriter.TryOnce | services/connectivity/app/iceberg_writer.py:234-243 | One attempt, whatever other writers publish and whichever reply is lost, leaves the transaction wholly there or not at all. |
| SnapshotCommit.SnapshotWriter.Commit | services/connectivity/app/iceberg_writer.py:229-252 | For every pattern of lost requests, lost replies, refusals and failed loads: returning means this sync's snapshots are in the history exactly once, raising means at most once, and with loads that succeed raising means not at all. Without another writer the outcome and the history are exactly those the pattern decides. With nothing staged it returns exactly when the table exists. |
| SnapshotCommit.AttemptTracked | services/connectivity/app/iceberg_writer.py:229-252 | One attempt without another writer: it either settles the outcome as the remaining pattern says or leaves it to the remaining attempts. |
| SnapshotCommit.StageBatches | services/connectivity/app/ingest_sync.py:299-300 | Staging any batches puts exactly their rows in the writer, opens a transaction exactly if there are rows, and stamps nothing. |
| SnapshotCommit.CommitStaged | services/connectivity/app/ingest_sync.py:317-325 | Stamp and commit in one: the table grows by the staged rows and the stamp becomes the table's exactly if the transaction landed, and a call that returns with rows staged has landed. |
| SnapshotCommit.CommitOutcomeIff | services/connectivity/app/iceberg_writer.py:229-283 | Without another writer the rows land if and only if one of the four requests gets through, and the call returns if and only if the table loads at the end and the first such request is answered, or its snapshot is found after some attempt with none refused in between. |
| SnapshotCommit.SwapLandsOnce | services/connectivity/app/iceberg_writer.py:229-245 | A compare-and-swap that succeeds cannot be a second landing. |
| SnapshotCommit.LandedTable | services/connectivity/app/iceberg_writer.py:286-307 | A landed transaction appends its rows to the table, and the cursor the next sync reads is the one on its last snapshot. |
| FileCursor.SelectFiles | services/connectivity/app/file_cursor.py:63-99 | Returns the keys of the chosen versions and the last of them as cursor, or the old cursor when none is chosen; a plain-key cursor admits later keys and versions newer than the file it names. |
| FileCursor.SortKeeps | services/connectivity/app/file_cursor.py:95-99 | Sorting distinct pairs gives a strictly increasing sequence of the same versions. |
| FileCursor.LessIff | services/connectivity/app/file_cursor.py:88-95 | The older version is below, and of two as old the one whose key ends or holds the smaller code point where the keys first differ. |
| FileCursor.ChosenIsEverythingAbove | services/connectivity/app/file_cursor.py:84-99 | After a versioned cursor exactly the listed versions above it are chosen, in pair order, and the new cursor is above the old one. |
| FileCursor.ChosenAfterPlainKey | services/connectivity/app/file_cursor.py:77-95 | After a plain key exactly the listed versions of later keys are chosen, and those newer than the first listed version of that key, in pair order. |
| FileCursor.ReadTextGivesMerged | services/connectivity/app/file_cursor.py:14-33 | A JSON string body decodes to its key with neighbouring surrogates of a pair joined, whatever follows it. |
| FileCursor.DecodeUndoesEncodeIff | services/connectivity/app/file_cursor.py:14-33 | The envelope decodes to the version it was made from if and only if its key has no high surrogate directly followed by a low one. |
| FileSync.ContentsIs | services/connectivity/app/object_source_fetch.py:192-203 | What a sync reads is the rows of each selected version as its file holds them, in selection order. |
| FileSync.FileSourceRow.CommitColumnCursor | services/connectivity/app/source_registry_base.py:249-264 | The column becomes the greater of stored and incoming position. |
| FileSync.FileSourceRow.AdoptColumnResume | services/connectivity/app/ingest_sync.py:70-84 | The column becomes the greater of stored and stamped position. |
| FileSync.MaxIsJoin | services/connectivity/app/source_registry_base.py:249-264 | That choice is commutative, associative, idempotent and never below what was stored, so order and repetition of commits do not matter. |
| FileSync.NextInv | services/connectivity/app/ingest_sync.py:286-327 | Every step and crash keeps: the table is the rows of the versions read so far, in strict pair order, and the effective cursor is the last of them. |
| FileSync.EachVersionReadOnce | services/connectivity/app/file_cursor.py:1-6 | Over every run the table is the rows of distinct versions in pair order, and a sync that stores its cursor has read every version it listed above the old one. |
| FileSync.CursorGrows | services/connectivity/app/file_cursor.py:95-99 | Every step only appends to what has been read, only versions above the effective cursor, and never moves that cursor back; reading any moves it. |
| FileSync.UnreadVersionIsReadIff | services/connectivity/app/file_cursor.py:84-99 | A listed version that is not read yet is in the table after that sync and any later run if and only if it is above the cursor; no later listing brings back one that is not. |
| FileSync.SkippedForever | services/connectivity/app/file_cursor.py:84-99 | What is unread at or below the effective cursor is unread after every run. |
| FileSync.FileDataset.RunSync | services/connectivity/app/ingest_sync.py:286-327 | For every listing, death and behaviour of the catalog: all calls are one run of the protocol, the table is the rows of distinct versions in pair order, the call succeeds exactly if nothing died and the commit returned (with no rows, if the table exists), and then everything listed above the old cursor is read and the stored cursor is the effective one. |
| FileSync.FileDataset.HistoryIsExact | services/connectivity/app/file_cursor.py:1-6 | In every state reached by calls the table is the rows of distinct versions in pair order. |
| StructuralAction.Ontology.ApplyStructuralEdits | services/knowledge/app/action_structural.py:153-352 | Succeeds if and only if every edit can be carried out. Every key of the four tables then holds the effect of the last edit that names it, else what it held before: the overlay from the source end to the target end added or removed with its mid id, the foreign key of the source object set to the target or null, a created row with its id and last mappings, a tombstone with the data found. The object log names each created and deleted object with its data. After a failure the same holds of the edits before it. |
| StructuralAction.ResolvedIs | services/knowledge/app/action_structural.py:173-352 | An edit resolves to a write if and only if it can be carried out, and to the one its ends, relation, key and mappings stand for; a property edit to none. |
| StructuralAction.PlanLeaves | services/knowledge/app/action_structural.py:153-170 | For every list of edits, the writes up to the first edit that cannot be carried out leave on every key the effect of the last of those edits that names it. |
| StructuralAction.Ontology.RevertStructural | services/knowledge/app/action_structural.py:355-431 | Undoes the link log backwards, then the object log backwards. |
| StructuralAction.FailureStands | services/knowledge/app/action_structural.py:153-170 | An edit that fails decides the outcome: later edits change nothing. |
| StructuralAction.LinksUndone | services/knowledge/app/action_structural.py:367-415 | The reversed link log restores edits and overlays for every list, several links on one key included, whatever object rules ran between. |
| StructuralAction.ObjectsUndone | services/knowledge/app/action_structural.py:416-431 | The reversed object log removes exactly the created objects with their edits and exactly the tombstones of deleted ones. |
| StructuralAction.RevertAfterApply | services/knowledge/app/action_structural.py:355-431 | What revert leaves after apply, for all tables and edits: the tables as they were, less rows, edits and tombstones of created objects and tombstones of deleted ones. |
| StructuralAction.RevertUndoesApplyIff | services/knowledge/app/action_structural.py:355-431 | Revert after apply restores the tables if and only if created objects had no row, edit or tombstone and deleted ones no tombstone before. |
| StructuralAction.RecreateThenRevertLosesTombstone | services/knowledge/app/action_structural.py:416-431 | Recreating a deleted object and reverting leaves it without its tombstone. |
| StreamCompaction.StreamConnector.LoadState | services/connectivity/app/kafka_stream_registry.py:126-135 | A restart continues from the durable rows and the committed offset. |
| StreamCompaction.StreamConnector.DrainMessages | services/connectivity/app/stream_connector.py:82-94 | Draining overlays the messages in log order, collects their keys and skips messages without the key field. |
| StreamCompaction.StreamConnector.CommitCycle | services/connectivity/app/stream_connector.py:96-120 | A cycle persists, writes the snapshot and commits the offset in that order, and a failure between any two leaves the batch to be retried. |
| StreamCompaction.OverlayGet | services/connectivity/app/stream_connector.py:82-93 | After any messages a key holds its last message, or what it held before if none names it. |
| StreamCompaction.NextInv | services/connectivity/app/stream_connector.py:69-121 | Every step keeps: keys outside the batch agree between memory and Postgres, each value in memory is the last write up to some position from its own to the furthest persisted, and each in Postgres up to some position from the committed offset on. |
| StreamCompaction.ValuesAreLastWrites | services/connectivity/app/stream_connector.py:69-121 | Over every run, with failed cycles and restarts anywhere: each value in memory is the last write of its key up to some position between the consumer and the furthest ever persisted, and each in Postgres between the committed offset and there. |
| StreamCompaction.ReplayConverges | services/connectivity/app/stream_connector.py:69-121 | Over every run, once the consumer is past everything ever persisted, its map is the last-write-wins fold of all it consumed. |
| StreamCompaction.CompleteCycleAgrees | services/connectivity/app/stream_connector.py:96-120 | Over every run memory and Postgres differ on batch keys only, and a complete cycle leaves memory, Postgres and snapshot equal with the offset committed. |
| StreamCompaction.CycleLeaves | services/connectivity/app/stream_connector.py:96-120 | From every reachable state, of a cycle that fails just the finished steps stay: Postgres becomes memory unless persisting was lost, the snapshot becomes it only after that, and offset and batch move only at the end. |
| StreamCompaction.ReplayBelowHighestIsStale | services/connectivity/app/stream_connector.py:69-121 | A run, for any key and two payloads, in which a restarted consumer holds an older value than Postgres. |
| StreamCompaction.AlwaysFoldIff | services/connectivity/app/stream_connector.py:69-121 | For every log, position and higher position persisted: all reachable consumers there hold the fold of what they consumed if and only if no write in between changes the fold. |
| Scheduler.ScheduledJobRunner.SubmitJob | services/connectivity/app/scheduler_jobs.py:31-35 | Starts a task and registers it exactly when the key has no live one. |
| Scheduler.ScheduledJobRunner.IsRunningKey | services/connectivity/app/scheduler_jobs.py:27-29 | True exactly when the registered task of the key is live. |
| Scheduler.ScheduledJobRunner.EnterTenant | services/connectivity/app/scheduler_jobs.py:37-39 | A queued task takes a slot of its tenant, whose semaphore is made on first use. |
| Scheduler.ScheduledJobRunner.EnterGlobal | services/connectivity/app/scheduler_jobs.py:39-41 | A task holding its tenant slot takes a global one and runs. |
| Scheduler.ScheduledJobRunner.Leave | services/connectivity/app/scheduler_jobs.py:39-43 | Finishing, failing or being cancelled gives back exactly the slots held. |
| Scheduler.ScheduledJobRunner.ReapJobs | services/connectivity/app/scheduler_jobs.py:45-47 | Drops exactly the finished tasks from the registry. |
| Scheduler.NextConserves | services/connectivity/app/scheduler_jobs.py:37-43 | Every step conserves the global slots and each tenant's slots. |
| Scheduler.CapsHold | services/connectivity/app/scheduler_jobs.py:11-17 | In every reachable state, whatever is submitted or cancelled when, at most the cap of jobs run, at most its cap per tenant hold or wait for a global slot, and no slot leaks. |
| Scheduler.NoDeadlock | services/connectivity/app/scheduler_jobs.py:11-17 | In every reachable state where no slot can be taken, all global slots are used by running jobs or each waiting task's tenant runs exactly its cap. |
| Scheduler.EveryTaskCanRun | services/connectivity/app/scheduler_jobs.py:11-43 | From every reachable state the live tasks can take their slots in some order, without a cancellation, so that every one of them runs to its end and all slots are free again. |
| Scheduler.CancelAllStartsAfresh | services/connectivity/app/scheduler_jobs.py:49-54 | After any run that forgets no live task, `cancel_all` can end by cancelling registered tasks only, and leaves no live task, no registered key and every slot free. |
| Scheduler.ReapForgetsFinished | services/connectivity/app/scheduler_jobs.py:45-47 | Reaping leaves exactly the keys with a live task registered, each with its task, and touches nothing else. |
| Scheduler.OneTaskPerKey | services/connectivity/app/scheduler_jobs.py:31-54 | In every run whose `cancel_all` calls end with no registered task live, no key has two live tasks. |
| Scheduler.SequentialForgetsNothing | services/connectivity/app/scheduler_jobs.py:49-54 | Runs in which nothing is submitted while `cancel_all` gathers are such runs. |
| Scheduler.KeyCanRunTwiceIff | services/connectivity/app/scheduler_jobs.py:49-54 | When `cancel_all` ends, the next submission can give some key two live tasks if and only if a registered task is live. |
| Scheduler.SubmitDuringCancelAllRunsTwice | services/connectivity/app/scheduler_jobs.py:49-54 | A submission during `cancel_all` lets the same key have two live tasks. |
| Outbox.Relay.FetchBatch | libs/holon_common/outbox.py:79-82 | The batch is the first fifty unpublished rows in id order. |
| Outbox.Relay.RelayOne | libs/holon_common/outbox.py:83-110 | One turn of the row loop as a step of the machine: a sendable row is published before it is marked, a poison row is marked without, with its dead letter unless that is lost, and an unreadable or refused row or a failure ends the batch. |
| Outbox.NextInv | libs/holon_common/outbox.py:77-113 | Every step, failure and crash keeps: marked rows are a prefix and the bus stutters over its valid rows. |
| Outbox.BusStuttersOutbox | libs/holon_common/outbox.py:77-113 | Over every run published rows are a prefix of id order, every valid one is on the bus, and the bus without immediate repetitions is the valid rows of that prefix, at most followed by the next row. |
| Outbox.CollapseMember | libs/holon_common/outbox.py:107-110 | Removing immediate repetitions neither hides nor invents a message. |
| Outbox.StuckRowBlocks | libs/holon_common/outbox.py:83-107 | Once the next row cannot be read, or is valid and refused by the producer each time, no run marks any further row. |
| Outbox.DeadLettersKept | libs/holon_common/outbox.py:85-106 | Over every run only poison rows have dead letters, and every poison row that is marked has one unless a publish of it was lost. |
| Outbox.RowsAreCounted | libs/holon_common/outbox.py:54-110 | Over every run the outbox holds what was enqueued, in order, and exactly as many of its rows are marked as turns of the row loop marked: a sendable row once its publish is known to have worked, a poison one whatever became of its dead letter. |
| Outbox.BatchLeft | libs/holon_common/outbox.py:77-113 | From every reachable state: a poll takes the first fifty unmarked rows or all there are, the batch goes on after a mark that was reported, and any failure or crash ends it. |
| Outbox.DeliversIff | libs/holon_common/outbox.py:77-113 | From every reachable state, undisturbed polling and relaying ends with every row marked, every sendable one on the bus and every poison one not marked before among the dead letters, if and only if no unmarked row is unreadable or refused each time. |
| Outbox.MarksNext | libs/holon_common/outbox.py:83-110 | At most two undisturbed steps mark the next row unless it is unreadable or refused. |
| DenialCache.PermissionClient.LookupDecision | libs/holon_common/authz.py:369-386 | One step of the state machine, whatever else waits: answers the cached decision exactly while it has not expired, moving it to the end, drops an expired one, and otherwise leaves a waiting call. |
| DenialCache.PermissionClient.StoreDecision | libs/holon_common/authz.py:396-400 | One step of the state machine, whatever happened during the await: stores a denial at the end, expiring a time-to-live after the call began, evicts from the front down to the bound, and lets an allow go. |
| DenialCache.PermissionClient.InvalidatePrincipal | libs/holon_common/authz.py:105-114 | One step of the state machine: removes exactly the entries that name the principal as actor or mandant, leaves waiting calls waiting, and returns how many it removed. |
| DenialCache.KeyDeterminesDecision | libs/holon_common/authz.py:92-103 | Requests with equal cache keys have equal decisions. |
| DenialCache.AllowedIff | libs/holon_common/authz.py:428-515 | A request is allowed if and only if the actor has the grant, its mandant has it when there is one, and policy allows the actor's country; a denial blames policy exactly where the grants are there. |
| DenialCache.DelegationIntersectsGrants | libs/holon_common/authz.py:428-515 | A delegated request is allowed if and only if the actor alone would be and the mandant has the grant; of those, the mandant alone would be allowed if and only if policy allows the mandant, and the decision is the intersection of both unless that policy alone denies. |
| DenialCache.CachedAnswerIsRecentDenial | libs/holon_common/authz.py:359-401 | Over every interleaving of calls around the await: the cache is within its bound, never answers an allow, and answers a denial only from an evaluation of the same key begun less than the time-to-live ago. |
| DenialCache.CachedAnswerIsEvaluation | libs/holon_common/authz.py:359-401 | With unchanging engines, over every interleaving, what the cache answers for a key is what an evaluation of any request with that key decides. |
| DenialCache.CallsDecideRightly | libs/holon_common/authz.py:359-401 | In every run with unchanging engines, what a call returns, from the cache or from its own evaluation, is an allow exactly when its request has the grants and policy allows it. |
| DenialCache.EventLeaves | libs/holon_common/authz.py:359-401 | From every reachable state, key by key: no entry answers once the time-to-live has passed, a lookup leaves its key answered at the end of the cache or gone and waiting, an invalidation removes exactly the entries naming the principal as actor or mandant. |
| DenialCache.EvictsLeastRecentlyUsed | libs/holon_common/authz.py:396-400 | What a store evicts was used less recently than everything kept. |
| DenialCache.InvalidationLeaksIff | libs/holon_common/authz.py:387-400 | After an invalidation in any state that keeps the invariant, some run answers a denial about the principal begun before it if and only if the bound is positive and a call about the principal within its time-to-live is waiting. |
| DenialCache.StaysFreshOrFlying | libs/holon_common/authz.py:359-401 | Over every run what the cache holds about the principal was begun after the invalidation or was waiting at it. |
| DenialCache.InFlightDenialOutlivesInvalidation | libs/holon_common/authz.py:387-400 | An evaluation in flight within its time-to-live stores its denial after the invalidation, expiring when it would have, and the cache answers it. |
| Revocation.AuthState.MarkPrincipalDisabled | libs/holon_common/auth.py:82-85 | Adds the principal and notes the event in the innermost open capture; an empty urn does neither. |
| Revocation.AuthState.MarkPrincipalEnabled | libs/holon_common/auth.py:88-90 | Removes the principal and notes the event in the innermost open capture. |
| Revocation.AuthState.MarkJtiRevoked | libs/holon_common/auth.py:97-100 | Adds the token id and notes the event; an empty id does neither. |
| Revocation.AuthState.ReplayRevocationEvents | libs/holon_common/auth.py:66-79 | Applies the captured events in order to the denylists without noting them again. |
| Revocation.AuthState.EnterCapture | libs/holon_common/auth.py:54-60 | Opens a capture with a list of its own inside those already open. |
| Revocation.AuthState.FinishRefresh | libs/holon_common/principal_status.py:123-133 | Replaces both denylists by the snapshot, closes the innermost open capture, whichever refresh opened it, and replays the list of its own refresh. |
| Revocation.ReplayedStatus | libs/holon_common/auth.py:66-79 | Replaying a stretch of events over a snapshot gives each principal its last status in the stretch, or the snapshot's when the stretch does not name it. |
| Revocation.ReplayedJtis | libs/holon_common/auth.py:66-79 | After a replay a token is revoked exactly if the snapshot or a captured event says so. |
| Revocation.NextInv | libs/holon_common/principal_status.py:103-138 | Every publication, delivery and refresh step keeps: delivered unexpired revocations are in force and each principal's local status is its status at or after everything delivered. |
| Revocation.DeliveredRevocationStays | libs/holon_common/principal_status.py:123-133 | Over every run a delivered revocation of an unexpired token is in force in all later states. |
| Revocation.DisabledSetConverges | libs/holon_common/principal_status.py:123-133 | A process that has had every event agrees with Identity on who is disabled, also after replaying events older than its snapshot. |
| Revocation.QuietRefresh | libs/holon_common/principal_status.py:103-138 | From every reachable state and after any time, a refresh that nothing disturbs leaves exactly Identity's disabled principals and exactly the tokens revoked so far that have not expired, events not delivered yet included. |
| Revocation.NestedRefreshes | libs/holon_common/auth.py:54-63 | For any events before, during and after a refresh inside a refresh, once both end a token is revoked if and only if the outer snapshot says so or it was revoked while the outer capture was innermost. |
| Revocation.CrossedRefreshes | libs/holon_common/auth.py:54-63 | When the refresh that began first ends first, once both end a token is revoked if and only if the later one's snapshot says so or it was revoked while both captures were open. |
| AgentTurn.MessagesFromTranscript | services/intelligence/app/agent_runtime.py:102-135 | Rebuilds the messages of the recorded rows: tool rows gather into one results message in front of the next other row. |
| AgentTurn.ToolResultsConserved | services/intelligence/app/agent_runtime.py:102-135 | The rebuild loses, repeats and moves no tool result. |
| AgentTurn.AgentSession.RunTurn | services/intelligence/app/agent_runtime.py:264-351 | The turn ends as the specification of a turn does, whichever model call, tool call, listing, recording or row update raises, with the same live messages, transcript, stored consumption and status. |
| AgentTurn.AgentSession.TakeAnswer | services/intelligence/app/agent_runtime.py:304-338 | One answer: counting, token check, recording, tool round and store, each with its failure, in the code's order. |
| AgentTurn.AgentSession.TakeToolRound | services/intelligence/app/agent_runtime.py:314-331 | The tool uses of one answer in order: budget check, call, count and record, up to the first that ends the turn. |
| AgentTurn.AgentSession.FinishSession | services/intelligence/app/agent_runtime.py:253-262 | Stores consumption and closes the session, or raises and leaves both. |
| AgentTurn.TranscriptIsConversation | services/intelligence/app/agent_runtime.py:102-135 | However a turn ends and whatever came before, the recorded rows rebuild to the live messages and the results of the round it stopped in. |
| AgentTurn.BudgetsHold | services/intelligence/app/agent_runtime.py:286-338 | A turn never makes more model calls or tool calls than the budget, an accepted answer is within the token budget, and the session row stays within the budgets. |
| AgentTurn.TurnAccountedIff | services/intelligence/app/agent_runtime.py:314-338 | After any turn from any session, the row accounts for every tool tried if and only if the turn did not end between trying a tool and the next write of the row, and for all consumption if and only if it did not end between using something up and that write; it never counts more. |
| AgentTurn.SeriesAccountedIff | services/intelligence/app/agent_runtime.py:314-338 | The same for every series of turns, one after another: the row accounts for every tool tried in the session if and only if no turn died in a tool round. |
| AgentTurn.SeriesRowWithinBudget | services/intelligence/app/agent_runtime.py:286-338 | The session row never exceeds the tool budget, over any series of turns. |
| AgentTurn.SessionKeepsBudget | services/intelligence/app/agent_runtime.py:286-338 | The tool budget bounds the tools tried in a whole session whose turns follow one another and of which none dies in a tool round. |
| AgentTurn.DyingTurnsEscapeBudget | services/intelligence/app/agent_runtime.py:314-338 | Every series of turns that die in their first tool round, by a tool, a row or a store that fails, tries one tool a turn and leaves the session row empty, whatever the tool budget and the length of the series. |
| AgentRows.TurnExplained | services/intelligence/app/agent_runtime.py:264-351 | Every tool row a turn adds answers the tool use at its place in the assistant row before it, with its id, and holds the unknown-tool error if and only if the name is not listed, and otherwise what the tool answered for that use; with the model calls, tokens and uses the rows account for, and the reason the turn ends. |
| AgentRows.UnlistedToolsDoNotMatter | services/intelligence/app/agent_runtime.py:323-328 | Two worlds that differ only in what tools outside the list would answer give equal turns for every session and text. |
| AgentOverlap.TurnIsRun | services/intelligence/app/agent_runtime.py:264-351 | A whole turn, on any row and whatever it dies of, is a run of the machine of overlapping turns in which only it steps: same stored count, same number of uses tried. |
| AgentOverlap.RowAccountsIff | services/intelligence/app/agent_runtime.py:287-338 | However turns of a session interleave, the stored count stays within the budget and what was tried, and accounts for everything if and only if its last writer had loaded a row that did and counted every use since. |
| AgentOverlap.OrderlyTurnsKeepBudget | services/intelligence/app/agent_runtime.py:287-338 | When turns follow one another and each leaves after storing what it counted, a session tries no more tools than the budget. |
| AgentOverlap.OverlapEscapesBudget | services/intelligence/app/agent_runtime.py:82-93 | For every number of turns, that many at once try that many times the budget, none raises, and the row shows one budget. |
| PipelineRun.ValidateSteps | services/connectivity/app/pipeline.py:17-58 | Accepts if and only if the list is non-empty and every step is complete, uniquely named, does not read its own output, reads only earlier outputs and has well-formed casts; a rejection names the first bad step and its first fault. |
| PipelineRun.AcceptedIff | services/connectivity/app/pipeline.py:17-58 | Accepted means at least one step, no empty field, no two steps of one name, no step reading what it or only later steps write, and casts absent or a non-empty map of names to names. |
| PipelineRun.FirstFaultIsUnique | services/connectivity/app/pipeline.py:28-57 | A rejected list has just one first fault, so step, reason and named producer are determined. |
| PipelineRun.CheckCasts | services/connectivity/app/pipeline.py:44-57 | Accepts if and only if casts are absent or a non-empty map of non-empty column and type names. |
| PipelineRun.FirstWriter | services/connectivity/app/pipeline.py:39-39 | Finds the first step that writes the dataset. |
| PipelineRun.AcceptedIffTopological | services/connectivity/app/pipeline.py:34-43 | With distinct outputs the dataset rules hold if and only if every reader of a dataset comes after its writer. |
| PipelineRun.KeepsInputsIffTopological | services/connectivity/app/pipeline.py:34-43 | An accepted list is in topological order if and only if no step writes a dataset that an earlier step reads, as is the case with distinct outputs. |
| PipelineRun.NoCycle | services/connectivity/app/pipeline.py:17-58 | An accepted list in which no step writes a dataset that an earlier step reads has no cyclic chain of datasets. |
| PipelineRun.RepeatedOutputAllowsCycle | services/connectivity/app/pipeline.py:34-43 | An accepted list of three steps whose dataset graph has a cycle. |
| PipelineRun.PipelineRunner.RunPipeline | services/connectivity/app/ingest_pipeline.py:58-113 | Runs the steps in order over the tables, each writing what its function makes of its input once that passes its casts, and ends at the first whose input is missing, whose function raises or whose rows fail their casts, with its output table as it was and exactly the finished steps recorded. |
| PipelineRun.PipelineRunner.RunSteps | services/connectivity/app/ingest_pipeline.py:66-106 | The step loop of such a run. |
| PipelineRun.RunIsRun | services/connectivity/app/ingest_pipeline.py:66-106 | Every run is such a sequence of steps that went through, ended by success or by a step that fails. |
| PipelineRun.OneRun | services/connectivity/app/ingest_pipeline.py:66-106 | There is just one such outcome for a store. |
| PipelineRun.FailedRunIsPrefixRun | services/connectivity/app/ingest_pipeline.py:58-113 | A failed run leaves exactly what a run of its finished steps alone would have left. |
| PipelineRun.LockstepRuns | services/connectivity/app/ingest_pipeline.py:58-113 | From stores that agree off the outputs, a run that succeeds on one succeeds on a larger one step by step, writing the same rows and creating no other table. |
| PipelineRun.RunsAreDeterministic | services/connectivity/app/pipeline.py:34-43 | Successful runs of an accepted list from stores that agree on datasets no step writes end in the same outputs, and a run that succeeds also succeeds from such a store with more tables. |
| PipelineRun.RunSucceedsIff | services/connectivity/app/ingest_pipeline.py:58-113 | If an accepted list succeeds on one store, it succeeds on another that agrees on datasets no step writes if and only if each step's input is in that store or an earlier step wrote rows to it. |
| PipelineRun.SuccessIffAvailable | services/connectivity/app/ingest_pipeline.py:58-113 | The same from any step on, for stores in agreement there. |
| PipelineRun.RunTwiceIsOnce | services/connectivity/app/pipeline.py:34-43 | Running an accepted list again after it succeeded succeeds and changes nothing. |
| PipelineRun.MissingOutputFailsRun | services/connectivity/app/iceberg_writer.py:106-116 | An accepted list that fails because an empty output was not created, and succeeds when an old table is there. |
| SoqlCursor.OutsideQuotes | services/connectivity/app/salesforce_source_fetch.py:82-99 | Returns the least position where the keyword stands outside quotes in the lower-cased text, whatever the folding does to other letters, and -1 if and only if there is none. |
| SoqlCursor.FindSplit | services/connectivity/app/salesforce_source_fetch.py:112-118 | The insertion point is the first trailing clause outside quotes, or the end of the query. |
| SoqlCursor.CutsAtFirstTrailingClause | services/connectivity/app/salesforce_source_fetch.py:112-118 | No ORDER BY, LIMIT or OFFSET outside quotes stands in front of the insertion point, and unless it is the end one of them stands at it. |
| SoqlCursor.ApplyCursor | services/connectivity/app/salesforce_source_fetch.py:102-120 | The query is its head, AND or WHERE as the head has a WHERE outside quotes or not, the filter with the escaped cursor in quotes or the date without, and its tail. |
| SoqlCursor.ChainedReplaceIsEscape | services/connectivity/app/salesforce_source_fetch.py:110-111 | The two chained replaces escape each backslash and quote exactly once. |
| SoqlCursor.EscapedStaysInside | services/connectivity/app/salesforce_source_fetch.py:82-99 | A scanner inside a literal leaves it at no character of an escaped cursor. |
| SoqlCursor.InsertionIsQuoteExactIff | services/connectivity/app/salesforce_source_fetch.py:102-120 | The cursor goes in as one literal that opens and closes exactly at its own quotes and unescapes to the cursor, if and only if a trailing clause stands outside quotes or the query's quotes close. |
| SoqlCursor.TailReadsAsBefore | services/connectivity/app/salesforce_source_fetch.py:112-120 | With a text or a date, the tail keeps its text, and the scanner is in the same mode at each of its positions as before. |
| SoqlCursor.TailKeywordsKept | services/connectivity/app/salesforce_source_fetch.py:112-120 | With a folding that keeps the place of each character, every keyword is found at the same places of the tail as before. |
| SoqlClauses.JoinedIff | services/connectivity/app/salesforce_source_fetch.py:102-120 | On the words of the outer query: inserting the joiner and the filter in front of the trailing clauses adds the filter as the whole condition or its last conjunct, and changes nothing else, if and only if the head takes it. |
| SoqlClauses.FiltersOuterQueryIff | services/connectivity/app/salesforce_source_fetch.py:102-120 | For every query, field, text or date cursor, and joiner: the value stands outside literals and the outer query's condition, and nothing else of it, is restricted by the filter, if and only if the head ends outside literals and parentheses, has no outer clause but a WHERE, has that exactly if the joiner is AND, has no OR in it, and the field is no clause word. |
| SoqlClauses.NewlineWhereIsRepeated | services/connectivity/app/salesforce_source_fetch.py:119-120 | The output for an accepted query whose WHERE follows a line break, with two WHERE clauses. |
| SoqlClauses.NewlineLimitIsPassed | services/connectivity/app/salesforce_source_fetch.py:112-118 | The output for an accepted query whose LIMIT follows a line break, with the filter behind it. |
| SoqlClauses.GroupByIsPassed | services/connectivity/app/salesforce_source_fetch.py:112-118 | The output for an accepted query with a GROUP BY, with the filter behind it. |
| SoqlClauses.OrEscapesFilter | services/connectivity/app/salesforce_source_fetch.py:119-120 | The output for an accepted query with an OR in its condition, where the filter is joined to the last alternative. |
| SoqlClauses.SubqueryClauseTakesFilter | services/connectivity/app/salesforce_source_fetch.py:112-118 | The output for an accepted query whose first trailing clause is in a subquery, with the filter in the subquery. |
| SoqlClauses.SubqueryWhereMisleads | services/connectivity/app/salesforce_source_fetch.py:119-120 | The output for an accepted query whose only WHERE is in a subquery, with an AND and no outer WHERE. |
| AuditPaging.BuildQuery | libs/holon_common/audit_store.py:108-147 | The clauses with their numbered arguments hold of an event if and only if it matches every filter given and is below the requested id. |
| AuditPaging.ListEvents | libs/holon_common/audit_store.py:108-158 | Returns the matching events below the id, newest first, up to the page size. |
| AuditPaging.ListEventsPage | libs/holon_common/audit_store.py:201-235 | Rejects an unknown category, then a page size outside 1 to 100, then a bad token; else returns the page and a token exactly when more events match. |
| AuditPaging.ListingMembers | libs/holon_common/audit_store.py:148-158 | The listing holds exactly the matching events below the id, in strictly descending id order. |
| AuditPaging.ListedIff | libs/holon_common/audit_store.py:108-147 | An event is listed if and only if it is the tenant's, below the id asked for, equal to each filter text given, and within the times given. |
| AuditPaging.PagingIsComplete | libs/holon_common/audit_store.py:201-235 | Following tokens to the end shows exactly the matching events present at the first page, newest first, each once, for every page size and any larger-id inserts between pages. |
| AuditPaging.PagingTerminates | libs/holon_common/audit_store.py:201-235 | Every walk uses up the first listing page by page and asks for another page exactly while some of it is left. |
| AuditPaging.TokenIsAccepted | libs/holon_common/audit_store.py:184-198 | The token of a page always decodes, to the id of its last event. |
| AuditPaging.RefusedIff | libs/holon_common/audit_store.py:184-193 | A token is refused if and only if it is not empty and does not decode; without one the first page is read. |
| PageToken.DecodeEncoded64 | libs/holon_common/audit_store.py:184-198 | Base64 with the URL-safe alphabet decodes to the bytes it encodes, for every length. |
| PageToken.PadUndoesStrip | libs/holon_common/audit_store.py:184-198 | Padding a stripped encoding to whole quanta gives the encoding back. |
| PageToken.TokenRoundTrip | libs/holon_common/audit_store.py:184-198 | Every id survives the token, and no token is empty. |
| PageToken.TokenIsUrlSafe | libs/holon_common/audit_store.py:196-198 | No token holds a character other than letters, digits, hyphen and underscore. |
| Decimal.ReadRendered | libs/holon_common/audit_store.py:184-198 | Reading a rendered number gives it back and leaves the rest of the text. |
| Identifiers.SpicedbIsCode | libs/holon_common/spicedb_id.py:11-12 | The three chained replaces equal a code of each character on its own. |
| Identifiers.DecodeUndoesEncode | libs/holon_common/spicedb_id.py:11-12 | Such a code can be read back, so it is injective. |
| Identifiers.SpicedbInjective | libs/holon_common/spicedb_id.py:1-6 | Two URNs share an object id if and only if they are equal. |
| Identifiers.SpicedbIdIsAllowed | libs/holon_common/spicedb_id.py:1-6 | No object id holds a dot or a colon. |
| Identifiers.IndexHolds | libs/holon_common/spicedb_id.py:15-17 | The index holds, under its id, a row of every URN and of no other. |
| Identifiers.IndexDropsNothingIff | libs/holon_common/spicedb_id.py:15-17 | The index has as many entries as rows if and only if their URNs are distinct. |
| Identifiers.IndexFindsEveryRow | libs/holon_common/spicedb_id.py:15-17 | With distinct URNs every row is found under the id of its URN. |
| Identifiers.PrefixAcceptedIff | libs/holon_common/iceberg_ident.py:20-35 | A tenant is accepted if and only if it is well-formed once stripped; the check after encoding never fails, and the prefix holds no double underscore. |
| Identifiers.StripIs | libs/holon_common/iceberg_ident.py:25-27 | Stripping takes the white space at both ends and nothing else. |
| Identifiers.FirstDoubleIsDelimiter | libs/holon_common/iceberg_ident.py:38-46 | The first double underscore of a table name is the tenant delimiter, whatever the table part holds. |
| Identifiers.RecoverUndoesIdentifier | libs/holon_common/iceberg_ident.py:38-46 | Tenant and table can be read back from every identifier. |
| Identifiers.IdentifierUndoesRecover | libs/holon_common/iceberg_ident.py:38-46 | A name that reads as tenant and table is the identifier of that pair. |
| Identifiers.IdentifierInjective | libs/holon_common/iceberg_ident.py:38-46 | Two identifiers are equal if and only if tenants and tables are, up to spaces around. |
| Identifiers.ReadTries | libs/holon_common/iceberg_ident.py:38-70 | A table is refused before its tenant is looked at, each for being empty or else for its characters; otherwise reads try exactly the prefixed name and the bare one, which always differ. |
| Identifiers.LegacyAliasIsPrefixedIff | libs/holon_common/iceberg_ident.py:49-70 | The unprefixed read alias is some tenant's prefixed name if and only if the dataset name reads as tenant and table. |

## Left out

- FileCursor.DecodeCursor: reads only the layout the encoder writes; `json.loads` also accepts other spacing, field order and number forms, which no part of the program produces.
- PageToken.DecodeToken: reads only the layout the encoder writes; the base64 library also drops characters outside its alphabet, and the id may also be a JSON string there.
- SoqlCursor.ApplyCursor: whether a cursor is a date, and its rendering as one, is a parameter; parsing ISO times and time zones is not part of this model.
- PipelineRun.ValidateSteps: an absent field and an empty one are the same here; in the code a later step without the output key turns a forward reference into another exception.
- Cursor text: parsing of ISO times and digits into keys, mixed key kinds, floats and null cursors; the code gives no guarantee across kinds.
- Row identities as SHA-256 of canonical JSON: abstract and injective numbers here, ordered as the hex text is.
- JSON in jsonb columns is taken as lossless up to key order; messages carry its canonical text.
- Look-back filters of single connectors: the protocol allows rows below the cursor in a fetch, which covers them.
- A commit request that lands after the commit call raised, table maintenance that replaces the current snapshot, and catalog races of several syncs.
- Schema evolution of Iceberg tables, null columns, and the rename of legacy unprefixed tables.
- The set-by metadata and materialization markers of actions, and the transaction that the caller of a failed apply rolls back.
- Link overlays, relation links and declarative edits are map updates; those modules are not part of this model.
- The order in which asyncio wakes waiters of a semaphore: every order is allowed.
- Kafka, Postgres, Iceberg, SpiceDB and OPA internals: logs, maps, a compare-and-swap history and answer functions.
- Session expiry, the closing store of chain-trigger sessions and the events they emit, prompts, and what listing the tools returns.
- The SOQL grammar below the clauses of the outer query: select lists, conditions other than AND and OR between words, date functions.
- HTTP routes, configuration, logging, metrics, secrets and connector guards: plumbing without an invariant across steps.
- Migrations, circuit breaker, rate limiter, application drafts, workspace roles: sound but easier.
