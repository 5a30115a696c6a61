# pg-monitor: verified model of the storage, analytics and collector core

pg-monitor collects snapshots of a PostgreSQL server on two schedules. A runtime snapshot (activity, locks,
per-database statistics) is appended to two history tables and kept up to date in two "current" tables that
the metrics exporter reads. A query snapshot (`pg_stat_statements`) is appended to one table, from which the
analytics service computes what each statement did between two points in time.

This project models that core in Dafny and proves what it is for:

- **The current tables are a materialised view of the history.** Whatever order snapshots arrive in, wherever
  a write fails, and however the statements of any number of concurrent writers interleave, `runtime_current`
  and `runtime_database_current` are exactly the last-committed snapshot among those with the greatest capture
  time, per identifier, and the history reads back as the committed snapshots.
- **A run commits one whole snapshot or nothing**, and its log line says which, with the exact exceptions. Over
  any sequence of runs every session is opened once, gets one commit or rollback attempt, then one close.
- **The bulk point lookup is the simple lookup**, timestamp by timestamp, through its binary searches, its one
  select and its regrouping pass.
- **Deltas are honest.** Against any history of executions, evictions and resets, a delta never exceeds the
  activity between its two snapshots, and when it is exact is stated as an if-and-only-if. So is when adjacent
  windows, and the two weeks of a comparison, add up. The bound carries through to what the service returns.
- **A period result is what the committed snapshots themselves answer**, ranked, cut to the limit, and
  independent of insertion order.
- **Start-up retries** are bounded in number and in time, and every container built is accounted for: containers
  enter themselves into the ledger of the start-up that builds them.
- **Label escaping** is the exact inverse of reading a label value.

## Layout

| file | contents |
|---|---|
| `Models.dfy`, `Text.dfy`, `Sorting.dfy`, `Instants.dfy`, `Wrappers.dfy` | entities; text order; stable sort and filter; `max`, sorted sets, `bisect_right` |
| `RuntimeTables.dfy` | the four runtime tables, the statements of one write, the view they should be |
| `RuntimeView.dfy`, `RuntimeHistory.dfy` | every committed write keeps the view; arrival order; history read back |
| `InterleavedWriters.dfy` | any number of concurrent runtime writers, one statement per step |
| `InterleavedQueryWriters.dfy` | any number of concurrent query writers, one row per step, under the unique constraint |
| `Storage.dfy`, `UnitOfWork.dfy` | database, session with pending objects and flush, commit, rollback, close |
| `RuntimeRepository.dfy`, `RuntimeStates.dfy` | the runtime write, statement by statement; the readers |
| `QueryTable.dfy`, `QueryLookup.dfy`, `QueryRepository.dfy` | the query table, what a lookup means, simple and bulk lookup |
| `Scheduler.dfy` | the two collector jobs and every sequence of them |
| `Delta.dfy`, `CounterHistory.dfy`, `Ranking.dfy` | deltas, the counter histories behind them, top-k |
| `Analytics.dfy`, `AnalyticsLog.dfy`, `AnalyticsHistory.dfy` | the analytics service, its answers read off the log, and against what the statements really did |
| `Worker.dfy`, `Labels.dfy` | start-up retry and clean-up; label escaping |

## Assumptions

- PostgreSQL runs the transactions at READ COMMITTED: a statement sees what is committed plus its own
  transaction's changes. The upsert into `runtime_current` locks the identifier's row and the lock is held
  until commit or rollback, also when the `WHERE` of `ON CONFLICT` turns the update down. A first insert of an
  identifier makes a concurrent upsert of it wait in the same way.
- Every awaited call may raise (a database error or anything else); which ones do is a parameter
  (`Environment`). A commit that raises may have taken effect all the same (`ackLost`).
- An insert of a key that another open transaction has inserted waits for that transaction to end, and fails if
  the key is then committed.
- A query snapshot holds the statistics as they were at one moment, and snapshots of one server are taken in the
  order of their capture times. (`Observes`; needed only to compare reports with activity.)
- Capture times are integer instants (microseconds). `total_exec_time_ms` is a real number.
- Text columns order by code point, as under the C collation.
- An `INSERT ... ON CONFLICT DO UPDATE` that meets the same row twice fails, as PostgreSQL documents. A
  snapshot that repeats a database name therefore fails to write; it is not excluded by a precondition.

## Where the code does not do what one might expect

- `__aexit__` clears `_session` after `close()` in the same `finally`; when `close()` raises, the session is
  kept and that exception replaces the one in flight (`src/pg_monitor/storage/uow.py:79-81`). The contract of
  `StorageUnitOfWork.Exit` says so exactly, `ReportIsHonest` gives the one way a raw database error can leave a
  job once collection has succeeded, and `CloseErrorEscapes` is such a run.
- Two latest snapshots of one identifier with equal capture times and different contents: the last committed
  wins, so arrival order matters. `EqualTimesDependOnOrder` is the smallest case and `OrderIrrelevantExactly`
  states the exact condition.
- Without a start point the whole cumulative count is reported, so a delta can exceed the window's activity
  (`MissingStartExample`). `MissingStartOverReports` states exactly when it does not.
- A counter can fall and catch up inside a window. Such a reset is invisible (`CaughtUpResetExample`);
  `ReportedDeltasBalance` shows the report is then short by exactly the counts thrown away.
- A start-up that fails with anything but a connection error leaves the container it had built unclosed
  (`UnexpectedErrorLeaksContainer`), and so does a shutdown that raises
  (`src/pg_monitor/collector/worker.py:73-77,113-115`).

## Model

| member | source | states |
|---|---|---|
| RuntimeTables.UpsertReplaces | src/pg_monitor/storage/repositories.py:388-421 | When no stored row of the identifier is newer, the guarded multi-row upsert rejects no row: it writes the snapshot's rows, all and only those, and fails if and only if a database name is repeated |
| RuntimeTables.RowsOfExact | src/pg_monitor/storage/repositories.py:388-402 | With distinct names each database of the snapshot appears with its own numbers |
| RuntimeView.FreshWriteReplaces | src/pg_monitor/storage/repositories.py:324-421 | A write that is not stale replaces the identifier's header (time, activity, locks as taken) and database rows outright (no survivors, none missing), leaves other identifiers alone, and fails exactly on a repeated name |
| RuntimeView.StaleWriteKeepsCurrent | src/pg_monitor/storage/repositories.py:324-368 | A late snapshot is always stored: its header and database rows join the history, and neither current table changes |
| RuntimeView.NewestMeansNotStale | src/pg_monitor/storage/repositories.py:359-368 | The stale check looks at one stored row, yet fires exactly when some committed snapshot of the identifier is later |
| RuntimeView.ViewStamps | src/pg_monitor/storage/repositories.py:388-421 | All database rows of an identifier carry the capture time of its header |
| RuntimeView.WriteFailsExactly | src/pg_monitor/storage/repositories.py:355-421 | In every store that is a view of its log, a write fails of itself exactly when it is not stale and repeats a database name |
| RuntimeView.WriteKeepsView | src/pg_monitor/storage/repositories.py:234-236 | Any committed write, in or out of order, takes a view of the log to the view of the longer log |
| RuntimeView.WriteNeverGoesBack | src/pg_monitor/storage/repositories.py:349-351 | The current capture time of an identifier never decreases and the identifier never disappears |
| RuntimeView.ViewsAgree | src/pg_monitor/storage/repositories.py:324-421 | The two current tables depend on the log only through each identifier's newest snapshot |
| RuntimeHistory.ReplayIsView | src/pg_monitor/storage/repositories.py:200-242 | After any run of writes the current tables are the newest snapshot of every identifier written |
| RuntimeHistory.ArrivalsShowSound | src/pg_monitor/storage/repositories.py:200-242 | For every list of arrivals, failing writes rolled back, the current tables are the view of the arrivals without a repeated database name: the others fail, or come too late to show |
| RuntimeHistory.OrderIsIrrelevant | src/pg_monitor/storage/repositories.py:349-368 | Every permutation of the same arrivals, whichever of them fail, leaves the same two current tables when the latest snapshots without a repeated name agree |
| RuntimeHistory.OrderIrrelevantExactly | src/pg_monitor/storage/repositories.py:349-368 | For every list of arrivals, order is irrelevant if and only if no identifier has two latest snapshots without a repeated name that would leave different rows |
| RuntimeHistory.DistinctTimesSuffice | src/pg_monitor/storage/repositories.py:349-368 | Pairwise distinct capture times per identifier make arrival order irrelevant, with no condition on database names |
| RuntimeHistory.EqualTimesDependOnOrder | src/pg_monitor/storage/repositories.py:349-351 | Two snapshots of one identifier at the same time with different activity: order matters |
| RuntimeHistory.AllOrdersStoredExactly | src/pg_monitor/storage/repositories.py:388-421 | Every order of arrival is stored whole if and only if no snapshot repeats a database name |
| RuntimeHistory.ReapplyChangesNothing | src/pg_monitor/storage/repositories.py:349-421 | Writing the snapshot in force once more succeeds and changes neither current table |
| RuntimeHistory.ReplayRecords | src/pg_monitor/storage/repositories.py:204-232 | The history tables read back as exactly the committed snapshots, databases in order, each child row under an existing parent |
| RuntimeHistory.CurrentIsNewestInHistory | src/pg_monitor/storage/orm.py:126-154 | The derived tables agree with the stored history column by column: an identifier is current iff it has history; its header holds the time, activity and locks of a stored snapshot and its database rows exactly that snapshot's; none stored is later |
| InterleavedWriters.WriterIsLocal | src/pg_monitor/storage/repositories.py:324-421 | Nothing a writer of another identifier commits can invalidate what a writer has done so far |
| InterleavedWriters.CommitIsApply | src/pg_monitor/storage/uow.py:64-70 | Merging a writer's uncommitted changes into whatever is committed by then is one serial application of its snapshot |
| InterleavedWriters.StatementKeepsWriter | src/pg_monitor/storage/repositories.py:213-236 | Every statement of a write, run against what the writer sees, does what it would do run serially now, and a failed writer stays one the tables refuse |
| InterleavedWriters.StepKeepsLocking | src/pg_monitor/storage/repositories.py:337-353 | Each identifier's header row is locked by at most one writer, which holds it until it ends |
| InterleavedWriters.StepKeepsInv | src/pg_monitor/storage/uow.py:53-81 | Begin, statement, commit and rollback all keep: committed tables are the replay of the commit log, locks and ids are consistent, every writer's overlay is up to date |
| InterleavedWriters.InterleavingsSerialise | src/pg_monitor/storage/repositories.py:200-242 | Under every interleaving of any number of writers the committed tables are the serial application of the committed snapshots in commit order, hence their view and their history |
| InterleavedWriters.OnlyCommitsShow | src/pg_monitor/storage/uow.py:64-78 | Only a commit changes committed tables, and it adds exactly its own snapshot |
| InterleavedWriters.OutcomesAreSerial | src/pg_monitor/storage/repositories.py:364-421 | In every run a writer that failed would be refused serially now, and one that is done would be applied serially now |
| InterleavedWriters.StatementAdvances | src/pg_monitor/storage/repositories.py:213-236 | Every statement of an unfinished write brings it nearer its end |
| InterleavedWriters.WritersFinish | src/pg_monitor/storage/repositories.py:200-242 | After any run, a new writer of an unlocked identifier left undisturbed commits exactly its own snapshot if the committed tables accept it, and otherwise nothing |
| InterleavedWriters.SoundWritesAreStored | src/pg_monitor/storage/repositories.py:355-421 | Such a writer is stored if and only if it is late or repeats no database name |
| InterleavedWriters.RowGuardNeverRejects | src/pg_monitor/storage/repositories.py:416-419 | In every reachable state the row-level capture-time guard of the per-database upsert is redundant |
| InterleavedWriters.SomeWriterCanMove | src/pg_monitor/storage/repositories.py:324-353 | Row locks never deadlock snapshot writers: a writer that waits, waits for one that can move |
| InterleavedWriters.CurrentNeverGoesBack | src/pg_monitor/storage/repositories.py:349-351 | Along every interleaving the current capture time of an identifier never goes back |
| InterleavedQueryWriters.StepKeepsInv | src/pg_monitor/storage/repositories.py:67-73 | Inserting a row, committing and rolling back keep the constraint, keep open writers' rows apart, and keep every refused writer refused |
| InterleavedQueryWriters.InterleavingsSerialise | src/pg_monitor/storage/orm.py:23-30 | Under every interleaving of any number of query writers the table is the serial insertion of whole committed batches in commit order |
| InterleavedQueryWriters.OutcomesAreSerial | src/pg_monitor/storage/repositories.py:67-75 | A batch that went in row by row would go in serially now, and one refused would be refused serially now |
| InterleavedQueryWriters.WritersFinish | src/pg_monitor/storage/repositories.py:67-75 | After any run, a new batch none of whose keys an open writer has inserted is committed if and only if it does not clash with what is committed or within itself |
| RuntimeRepository.WriteFaultUnfolds | src/pg_monitor/storage/repositories.py:213-240 | The exception of a write, as "first failing call of the calls made", equals the branch-by-branch account, stale and empty cases included |
| RuntimeRepository.WriteSucceedsExactly | src/pg_monitor/storage/repositories.py:213-240 | A write succeeds exactly when the tables accept the snapshot and none of the calls it comes to raises: no delete when it is late, no upsert when it has no databases |
| RuntimeRepository.WriteErrorsAreWrapped | src/pg_monitor/storage/repositories.py:237-240 | If only database errors happen, a failing write raises the storage write error |
| RuntimeRepository.LoadFaultIsSelect | src/pg_monitor/storage/repositories.py:269-291 | The readers raise only when a select they make raises, the second being made exactly when a wanted identifier is current |
| RuntimeRepository.RuntimeSnapshotRepository.WriteRuntimeSnapshot | src/pg_monitor/storage/repositories.py:200-242 | The statements together apply the whole snapshot under a new id and return 1 plus the database count, or raise exactly `WriteFault`; nothing stays pending |
| RuntimeRepository.GroupDatabases | src/pg_monitor/storage/repositories.py:293-308 | The grouping loop finds a group for every row and ends with each identifier's databases, each once, by name |
| RuntimeRepository.StatesAreListed | src/pg_monitor/storage/repositories.py:310-322 | The states built from the selected header rows and their groups are the complete ordered listing |
| RuntimeRepository.RuntimeSnapshotRepository.LoadRuntimeStates | src/pg_monitor/storage/repositories.py:255-322 | Lists the wanted identifiers' states completely and in order, or raises exactly when a select that is made raises |
| RuntimeRepository.RuntimeSnapshotRepository.GetRuntimeCurrent | src/pg_monitor/storage/repositories.py:244-250 | The state of the identifier, or none exactly when it is not current |
| RuntimeRepository.RuntimeSnapshotRepository.ListRuntimeCurrent | src/pg_monitor/storage/repositories.py:252-253 | Every current identifier's state |
| RuntimeStates.StatesAreUnique | src/pg_monitor/storage/repositories.py:255-322 | The listing is determined by the tables: the reader is deterministic |
| RuntimeStates.SingleReadAgrees | src/pg_monitor/storage/repositories.py:244-253 | The single read is the listed state of the identifier, or nothing when none is listed |
| RuntimeStates.ReadsShowNewest | src/pg_monitor/storage/repositories.py:255-322 | In a view of a log the listing has one state per identifier written, with the newest snapshot's time, activity and locks, field by field, and exactly its databases |
| Storage.Session.Flush | src/pg_monitor/storage/repositories.py:213-215 | All pending rows are inserted, the header under the next id, or none are |
| UnitOfWork.StorageUnitOfWork.Enter | src/pg_monitor/storage/uow.py:49-51 | A fresh session on the committed tables |
| UnitOfWork.StorageUnitOfWork.Exit | src/pg_monitor/storage/uow.py:53-81 | Exactly one commit or rollback attempt, then one close, on every path; nothing commits after an exception; which exception leaves; the session is let go iff close does not raise |
| UnitOfWork.WhatLeaves | src/pg_monitor/storage/uow.py:63-81 | Which exception leaves: close's over everything, a rollback's own over the body's; database errors wrapped, others as they are |
| Scheduler.CollectorScheduler.RunRuntimeJob | src/pg_monitor/collector/scheduler.py:90-137 | The new committed tables, the report and the session's events of a runtime run, for every outcome of collection and every failing call; no session when collection fails; the unit of work ends without a session iff close did not raise |
| Scheduler.CollectorScheduler.RunQueriesJob | src/pg_monitor/collector/scheduler.py:139-186 | The same for a queries run |
| Scheduler.RunIsAtomic | src/pg_monitor/collector/scheduler.py:90-176 | A run commits exactly one whole snapshot or leaves every committed table as it was |
| Scheduler.ReportIsHonest | src/pg_monitor/collector/scheduler.py:100-137 | A run is reported complete iff it committed and neither commit nor close raised; a raw database error escapes only from collection or close |
| Scheduler.ReportNamesCause | src/pg_monitor/collector/scheduler.py:100-137 | A collector error, a time-out and any other error of collection are reported as such; a completed run reports its identifier and its number of rows |
| Scheduler.StorageReports | src/pg_monitor/collector/scheduler.py:109-127 | After collection, the report is the storage failure, the time-out or the exception itself, by the exception that leaves the unit of work |
| Scheduler.LostAcknowledgement | src/pg_monitor/storage/uow.py:64-70 | A commit that takes effect but raises: everything is stored, and a storage failure is reported |
| Scheduler.SqlErrorsStayInside | src/pg_monitor/collector/scheduler.py:109-117 | If only database errors happen and close works, the job ends complete or with the storage warning |
| Scheduler.SessionsAreDisciplined | src/pg_monitor/storage/uow.py:49-81 | Over any sequence of runs: one session per run that collected, each with exactly one commit or rollback attempt and then one close; commits tried exactly after writes that raised nothing; never more committed snapshots than commit attempts |
| Scheduler.CloseErrorEscapes | src/pg_monitor/storage/uow.py:79-81 | A run whose close raises a database error has committed, and that error leaves the job |
| Scheduler.QuietRunsArrive | src/pg_monitor/collector/scheduler.py:90-117 | When only writes fail of themselves, runtime runs are the arrivals of what they collected |
| Scheduler.QuietQueriesArrive | src/pg_monitor/collector/scheduler.py:139-166 | When nothing else fails, queries runs store exactly the batches, in order, that do not clash with those already in |
| Scheduler.RunsReplay | src/pg_monitor/collector/scheduler.py:90-186 | After any sequence of runs the tables are the serial application of the committed snapshots, ids are never reused |
| Scheduler.RunsKeepView | src/pg_monitor/collector/scheduler.py:90-186 | After any sequence of runs failing anywhere: view, history and query table all agree with the committed snapshots |
| QueryLookup.LatestMeaning | src/pg_monitor/storage/repositories.py:83-106 | The lookup finds the latest stored point not after the timestamp with exactly its rows in key order, never an empty point, and nothing exactly when everything is later |
| Text.TextLeMeaning | src/pg_monitor/storage/repositories.py:99-103 | Text order: prefixes first, then the first character that differs |
| QueryLookup.LatestIsMonotone | src/pg_monitor/storage/repositories.py:83-106 | A later timestamp never finds an earlier point |
| QueryLookup.LatestIgnoresInsertionOrder | src/pg_monitor/storage/orm.py:23-30 | Under the unique constraint the answer does not depend on the order rows were inserted in |
| QueryLookup.RegroupedRows | src/pg_monitor/storage/repositories.py:155-181 | Selecting many points at once and regrouping gives each point's own rows in the single-point order |
| QueryLookup.BoundaryIsLatest | src/pg_monitor/storage/repositories.py:138-145 | The element before the insertion point is the greatest capture time not after the timestamp, or there is none |
| Instants.BisectRight | src/pg_monitor/storage/repositories.py:140 | Binary search: everything before the result is at most the key, everything from it on is greater |
| QueryRepository.QuerySnapshotRepository.WriteQuerySnapshot | src/pg_monitor/storage/repositories.py:40-75 | All rows or none: an empty snapshot touches nothing, a unique-key clash refuses the batch, and after any error the session's rows are as before |
| QueryRepository.QueryWriteFailsExactly | src/pg_monitor/storage/repositories.py:44-75 | The write succeeds exactly if the batch is empty, or the flush does not raise and no two rows clash; which exception it raises otherwise |
| QueryTable.UniqueMeansNoClash | src/pg_monitor/storage/orm.py:23-30 | The constraint refuses exactly two rows that agree in time, identifier, queryid, dbid and userid |
| QueryRepository.QuerySnapshotRepository.GetLatestSnapshotAtOrBefore | src/pg_monitor/storage/repositories.py:77-110 | The latest point, or the read error of the select that raised |
| QueryRepository.ResolveBoundaries | src/pg_monitor/storage/repositories.py:138-145 | Every timestamp resolves to the simple lookup's capture time |
| QueryRepository.NeededExactly | src/pg_monitor/storage/repositories.py:147-153 | The second select is skipped exactly when no timestamp finds a point |
| QueryRepository.GroupRows | src/pg_monitor/storage/repositories.py:177-181 | The regrouping loop meets no row without a group and fills each group with its point's ordered rows |
| QueryRepository.AssemblePoints | src/pg_monitor/storage/repositories.py:183-193 | The assembled map is the simple lookup at every timestamp |
| QueryRepository.QuerySnapshotRepository.GetLatestSnapshotsAtOrBefore | src/pg_monitor/storage/repositories.py:112-193 | For every table and timestamp list (empty, unsorted, repeated, all too early) the bulk map is the simple lookup pointwise, with exactly the input's domain, or the exact read error |
| QueryRepository.BulkFaultIsSelect | src/pg_monitor/storage/repositories.py:118-175 | The bulk lookup raises only when a select it makes raises, the second being made exactly when a stored row of the identifier is not after some timestamp |
| Delta.BuildQueryDeltas | src/pg_monitor/query_analytics/delta.py:11-87 | The deltas are, in order, one per end row whose counters did not fall and did not all stay; start plus delta is end; mean times calls is total, absent iff calls is zero |
| Delta.ReportedInColumns | src/pg_monitor/query_analytics/delta.py:43-65 | A row is reported exactly when none of the seven differences is negative and not all are zero |
| Delta.DeltaInColumns | src/pg_monitor/query_analytics/delta.py:25-41 | A delta holds, column by column, end minus start |
| Delta.IndexExact | src/pg_monitor/query_analytics/delta.py:90-97 | With unique keys the index finds each key's one row |
| Delta.DeltasAreUnique | src/pg_monitor/query_analytics/delta.py:21-87 | The two points determine the list |
| Delta.DeltasKeepOrder | src/pg_monitor/query_analytics/delta.py:21-87 | Output keys are unique and keep the rows' order |
| Delta.ChangesAreDeltas | src/pg_monitor/query_analytics/delta.py:21-87 | Key by key: reported iff in the list, with the stated change |
| Delta.SameRowsNoDeltas | src/pg_monitor/query_analytics/delta.py:55-65 | Points with the same rows give an empty list |
| Delta.WindowsCompose | src/pg_monitor/query_analytics/delta.py:43-65 | If no counter falls in either half, the halves add up and a key is reported for the whole iff for a half |
| Delta.WindowsComposeExactly | src/pg_monitor/query_analytics/delta.py:43-65 | The halves add up if and only if a test on the three counter values holds |
| Delta.ComposingWindowsReport | src/pg_monitor/query_analytics/delta.py:43-65 | Whenever that test holds, a key is reported for the whole iff for a half |
| CounterHistory.CountsAreConserved | src/pg_monitor/query_analytics/delta.py:43-43 | Over every history, value at the end plus counts thrown away is value at the start plus activity |
| CounterHistory.DeltasNeverOverReport | src/pg_monitor/query_analytics/delta.py:21-65 | With a start point no component of a delta exceeds the activity between the two snapshots |
| CounterHistory.ReportedDeltasBalance | src/pg_monitor/query_analytics/delta.py:25-41 | A reported delta plus the counts thrown away is the activity |
| CounterHistory.ReportIsExactWhen | src/pg_monitor/query_analytics/delta.py:25-65 | The report is exact iff nothing was thrown away or nothing was done |
| CounterHistory.FallMeansDropped | src/pg_monitor/query_analytics/delta.py:43-53 | A key left out for a fallen counter was evicted or reset in between, as the comment there says |
| CounterHistory.UndroppedIsExact | src/pg_monitor/query_analytics/delta.py:21-65 | A key never dropped is reported with exactly its activity, and left out iff it had none |
| CounterHistory.MissingStartOverReports | src/pg_monitor/query_analytics/delta.py:18-41 | Without a start point the whole count is reported, which stays within the activity iff all earlier counts were dropped in the window |
| CounterHistory.MissingStartExample | src/pg_monitor/query_analytics/delta.py:18-41 | Five earlier calls are reported for a window in which nothing happened |
| CounterHistory.CaughtUpResetExample | src/pg_monitor/query_analytics/delta.py:43-53 | A reset followed by seven calls after five is reported as two |
| Ranking.SortAndCutIsTop | src/pg_monitor/query_analytics/service.py:189-210 | Reverse stable sort and slice give the top of the ranking, ties ascending by (queryid, dbid, userid) |
| Ranking.TopMeaning | src/pg_monitor/query_analytics/service.py:248-250 | Size min(limit, n), a sub-multiset, in order, and nothing left out ranks above anything kept |
| Ranking.RankMeaning | src/pg_monitor/query_analytics/service.py:189-210 | The ranking, both directions and for both sort keys: greater (calls, total time) or (total time, calls) first, equal pairs by ascending queryid, dbid, userid |
| Ranking.TopIsOrdered | src/pg_monitor/query_analytics/service.py:189-210 | The top is in that order, and nothing left out has a pair above anything kept |
| Ranking.ChoiceIsTop | src/pg_monitor/query_analytics/service.py:248-250 | Conversely an ordered choice that is full or complete, with nothing left out ranking before it, is the top |
| Ranking.TopIsUnique | src/pg_monitor/query_analytics/service.py:189-210 | The ranking has no ties, so there is one answer |
| Ranking.SmallerLimitIsPrefix | src/pg_monitor/query_analytics/service.py:248-250 | The answer for a smaller limit is a prefix of the answer for a larger one |
| Analytics.MakeWindow | src/pg_monitor/query_analytics/models.py:18-35 | A window is accepted iff both bounds are aware and in order, and each refusal has its own cause |
| Analytics.ResolveCurrentWindow | src/pg_monitor/query_analytics/service.py:213-229 | One bound without the other is refused; two bounds become the window, refused iff they are not a valid one; with none, the window is the seven days up to the given time or the clock |
| Analytics.PreviousWindowIsValid | src/pg_monitor/query_analytics/service.py:92-97 | The previous window is never rejected, is adjacent and equally long |
| Analytics.RequestIsAcceptedExactly | src/pg_monitor/query_analytics/service.py:232-236 | A request is accepted iff its limit is positive and its identifier is not empty; which error it gets otherwise |
| Analytics.ProperRequestsAreAnswered | src/pg_monitor/query_analytics/service.py:143-155 | A proper request is answered whenever no storage call it can make raises, through either loading path |
| Analytics.ProperComparisonsAreAnswered | src/pg_monitor/query_analytics/service.py:84-106 | The same for a comparison, which only its bounds can then refuse |
| Analytics.LoadErrorsAreWrapped | src/pg_monitor/query_analytics/service.py:164-186 | If only database errors happen and closing works, a failing load raises a storage error |
| Analytics.BuildPeriodResult | src/pg_monitor/query_analytics/service.py:239-262 | The result carries the points' times and the top of the deltas between them |
| Analytics.LoadOneByOne | src/pg_monitor/query_analytics/service.py:178-186 | The fallback loop gives the simple lookup at every timestamp, or the first read error |
| Analytics.QueryAnalyticsService.LoadSnapshotPoints | src/pg_monitor/query_analytics/service.py:157-186 | Both loading paths return the same map, defined on every requested timestamp |
| Analytics.QueryAnalyticsService.GetPeriodTopQueries | src/pg_monitor/query_analytics/service.py:135-155 | The period result over the stored table, or exactly the request or storage error |
| Analytics.QueryAnalyticsService.GetWeeklyTopQueries | src/pg_monitor/query_analytics/service.py:52-72 | The same over the resolved window, whose error comes first |
| Analytics.QueryAnalyticsService.GetWeekOverWeekQueries | src/pg_monitor/query_analytics/service.py:74-133 | Two adjacent weeks, each the period result of its own window, or exactly the error of the first check that fails |
| Analytics.FoundPointsAreProper | src/pg_monitor/storage/orm.py:23-30 | The unique constraint gives every point unique, ordered keys |
| Analytics.PeriodResultIsDetermined | src/pg_monitor/query_analytics/service.py:239-262 | Equal requests over the same rows, inserted in any order, get equal results |
| Analytics.BoundariesAreOrdered | src/pg_monitor/query_analytics/service.py:151-152 | A start point needs an end point; start point, end point and window end are in order; both found points have rows |
| Analytics.ItemsAreChanges | src/pg_monitor/query_analytics/service.py:248-250 | Every item is its key's change; a key missing from an uncut list did not change |
| Analytics.ItemsAreOrdered | src/pg_monitor/query_analytics/service.py:248-250 | The items of a period result descend by the chosen pair of counters, ties by ascending key, and no reported key left out changed by a pair above an item's |
| Analytics.WeeksAddUp | src/pg_monitor/query_analytics/service.py:107-126 | For a comparison and the one window spanning it, and a key that each of the three results lists or was not cut before: the weeks' counts sum to the whole's if and only if the key's values at the three boundaries compose (as they do when they never fall) |
| Analytics.WeeksListTogether | src/pg_monitor/query_analytics/service.py:107-126 | Then the whole lists the key exactly when one of the weeks does |
| AnalyticsLog.LookupIsLatestLogged | src/pg_monitor/storage/repositories.py:77-106 | The point found is the latest non-empty committed snapshot not after the timestamp, statement for statement |
| AnalyticsLog.ResultAnswersFromLog | src/pg_monitor/query_analytics/service.py:239-262 | A period result over the stored rows is what the log of committed snapshots itself answers: latest logged boundaries, one item per statement that grew, and if there are too many, those that rank first |
| AnalyticsLog.AnswerIsResult | src/pg_monitor/query_analytics/service.py:239-262 | Conversely every such answer of the log is a period result over the stored rows |
| AnalyticsLog.AnswerIsUnique | src/pg_monitor/query_analytics/service.py:143-155 | The log gives exactly one answer to a request |
| AnalyticsLog.ResultsAfterRuns | src/pg_monitor/query_analytics/service.py:143-155 | After every sequence of job runs, failing anywhere, period results and direct answers from the committed snapshots are the same thing, both directions |
| AnalyticsHistory.PointIsSnapshot | src/pg_monitor/query_analytics/service.py:157-186 | A point found in the stored rows holds exactly the statistics there were at its capture time |
| AnalyticsHistory.ItemsAreHonest | src/pg_monitor/query_analytics/service.py:239-262 | For a period result with a start point and a key it lists or was not cut before: the amount never exceeds what the statement did between the two boundary snapshots, and equals it if the statement was not dropped in between |
| AnalyticsHistory.ReportsAreHonest | src/pg_monitor/query_analytics/service.py:135-155 | The same after every sequence of job runs, failing anywhere |
| Worker.BackOffIsClosedForm | src/pg_monitor/collector/worker.py:137-138 | Doubling and capping step by step is base times a power of two, capped from the second sleep on |
| Worker.TotalSleepDoubles | src/pg_monitor/collector/worker.py:137-138 | Total sleep is at most base times (2^n - 1) |
| Worker.TotalSleepIsCapped | src/pg_monitor/collector/worker.py:137-138 | Total sleep is at most base plus the cap for every further sleep; the cap does not apply to the first |
| Worker.Startup.BuildAndStartSchedulerWithRetry | src/pg_monitor/collector/worker.py:98-141 | Number of attempts; the first sleep is the base delay and each further one twice the one before, or the maximum if that is less; every container built is in the ledger, all different: each failed connection's closed exactly once, the returned one open, one left by another error open; the error after the loop is never reached |
| Worker.BuiltIsCount | src/pg_monitor/collector/worker.py:105-112 | The ledger has one container for every attempt made that got as far as having one |
| Worker.Startup.RunWorker | src/pg_monitor/collector/worker.py:44-77 | Nothing happens when disabled; otherwise the same account of attempts, sleeps and containers, and after a start one shutdown and one close unless shutdown raises |
| Worker.UnexpectedErrorLeaksContainer | src/pg_monitor/collector/worker.py:108-115 | An attempt that builds its container and fails with another error leaves it open |
| Labels.PassesEscapeEach | src/pg_monitor/metrics/prometheus_exporter.py:257-260 | The three replacements, in this order, are one per-character map |
| Labels.EscapesExactlyThree | src/pg_monitor/metrics/prometheus_exporter.py:257-260 | Exactly backslash, line feed and double quote are escaped, each by its own two characters |
| Labels.UnescapeUndoes | src/pg_monitor/metrics/prometheus_exporter.py:257-260 | Reading an escaped value left to right returns the original |
| Labels.EscapeUndoes | src/pg_monitor/metrics/prometheus_exporter.py:257-260 | Whatever can be read is the escape of what was read |
| Labels.EscapeIsInjective | src/pg_monitor/metrics/prometheus_exporter.py:257-260 | Different labels stay different |
| Labels.EscapedStaysInside | src/pg_monitor/metrics/prometheus_exporter.py:257-260 | No line feed and no quote after an even run of backslashes: the value never ends early |

## Left out

- HTTP routes, middleware, response schemas, dependency wiring, migrations, containers and dashboards: plumbing.
- The SQL text against `pg_stat_*`, row conversion in the collector, the SQLAlchemy engine, the connection pool
  and the job scheduler's own machinery, start, shutdown and preflight: only a statement's effect on tables and
  whether it raises is modelled.
- A call of one kind raises every time it is made in one unit of work, or never; a read that fails only on its
  second repetition is not distinguished.
- Torn reads between the two selects of `_load_runtime_states` while another transaction commits: readers are
  modelled on one committed state.
- Sequential jobs work on a copy of the whole tables; uncommitted changes beside what others commit meanwhile are
  in `InterleavedWriters` and `InterleavedQueryWriters`.
- Query writers that wait for each other in a circle: the database rolls one of them back, which the model allows
  at any time but does not force.
- Floating-point rounding and NaN, datetime overflow, wall-clock arithmetic inside one time zone across a
  clock change: times are instants, amounts are exact.
- Surrogate ids other than those of `runtime_snapshots`, column widths and integer range checks of the database.
- Settings loading, secret masking, logging and context variables.
- The gauge and text rendering of metrics other than label escaping, and the merging of payloads.
- A container whose `close()` raises, and a process killed between two statements (the database then rolls back).
