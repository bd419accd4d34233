# A verified model of orm-glib

orm-glib is a GObject library that talks to SQLite, PostgreSQL and MySQL. This project models the
parts of it in which a mistake would lose or corrupt data without an error: the migration runner, the
worker thread of a connection and its cancellation protocol, the JSON and CSV exporters, the query
compiler, the session with its identity map, the connection URLs and the row cursors. It proves what
each of them keeps, over every input, every failing statement and every interleaving.

`dafny verify dfyconfig.toml` checks everything.

## The modules

**Migrations.** `MigrationHistory` holds what a database contains: the bookkeeping table, and a log of
the schema operations whose effects are committed. `Ordered` is `ORDER BY version`, `IsPrefix` is what
`read_history` accepts, `Decide` is the choice the loop makes, `Advance` is the result of whole,
consecutive steps. A store is `Consistent` when the table is what replaying the log records, so each
recorded migration's up operation is in the schema exactly once. `MigrationServer` has the session: a server
that may fail any statement. A failed step may leave any partial work in its transaction; a failed
COMMIT may keep the transaction open, drop it, or take effect unseen. `MigrationRunner` has the migrator
as a class, `run()` statement by statement. `MigrationProcesses` lets any number of migrators interleave
their statements on one database, under SQLite's write reservation or PostgreSQL's advisory lock.
`MigrationSteps` ties the two: each statement of the class, succeeding or failing, is one step of one
such process, so a call is a run of the concurrent system (`Follows` in the contracts of the class).

**Connections.** `OperationRace` is one asynchronous operation with its job, its cancel handler and the
`answered` flag they race for. `ConnectionThreads` is the whole connection: an owner thread that
submits, calls, closes and drops; the worker; and cancelling threads. One step is one atomic statement
of one thread. GLib's primitives are small rules: an atomic compare-and-exchange, a FIFO queue, a
cancelled flag that never falls, and a disconnect that waits for a running handler.

**Exporters.** `JsonText` is a reader for RFC 8259 (sections 2 to 7) beside a printer with the
exporter's layout switches; `JsonExporter` has the exporter's hooks as methods. `CsvText` is a reader
for section 2 of RFC 4180, strict about stray quotes and lone carriage returns; `CsvExporter` has its
hooks, with general strings for delimiter, quote, null string and line ending. `Values` are the cells:
a float, a blob and a date carry the text that the library formats them to. `Cursors` has the result
and the row stream, `ExportLoop` the loops that drive the hooks.

**Queries.** `SqlText` scans and parses SQL text: quoted identifiers with doubled quotes, placeholders,
a WHERE conjunction, ORDER BY, LIMIT and OFFSET. `QueryCompiler` has the builder and the text that it
emits. `QueryMeaning` gives statements and queries their meanings on a table, with SQL's three-valued
comparison and placeholders bound by position, and relates the two.

**Sessions.** `IdentityMap` has the two hash tables with their shared, separately allocated keys: an
insertion under an equal key frees the key it was passed, which the reverse table then still holds.
`Session` has the pending, dirty, deleted and attached sets; a flush may fail at any statement.

**URLs.** `EngineUrl` has the parser and the percent-decoding with its literal fallback.

`Common`, `Characters`, `Quoting` and `Substrings` are shared: joining, hexadecimal digits, quoting by
doubling, `strstr` and `strchr`.

## Findings

Where the code does not do what its documentation or a reader would expect, the model follows the
code, a lemma shows the failure, and unless it always fails the condition under which it works is proved
to be exact.

- A query says what it was asked for if and only if no table or column name contains a quote, no filter
  uses `IN`, `NOT IN`, `ILIKE` or `BETWEEN` (`IN` is compiled without its parentheses and the others to
  `=`), and the database has what the text needs: OFFSET without LIMIT, `?` for the value of a filter,
  empty names (`QueryCompiler.SaysWhatIsMeant`). PostgreSQL numbers its placeholders and gets the `?`
  unchanged, so it refuses every query that compares a column with a value
  (`QueryCompiler.PostgresRefusesQuestionMarks`). A filter means what it is compiled to, however a database
  compares values, if and only if its operator is not one of the last three, or it has no value
  (`QueryMeaning.OperatorKeepsMeaning`).
- A CSV export can be read back if and only if every row has columns, and the null string is quoted or has
  nothing special in it unless there is no NULL (`CsvExporter.TableReadsBack`). A row without columns
  becomes a line with one empty field (`CsvExporter.RowWithoutColumns`).
- A connection URL comes apart as meant if and only if it has credentials or no at-sign in its database
  name, and its port fits 31 bits (`EngineUrl.UrlRoundTrip`); any other port wraps around
  (`EngineUrl.PortWraps`).
- `orm_identity_map_add` keeps the tables inverse if and only if neither the key nor the object is there
  (`IdentityMap.AddIsExact`). Removing the object afterwards looks at a freed key if and only if the key
  was taken (`IdentityMap.TakenKeyDangles`). What was added is found if and only if its key is an integer,
  a string or NULL (`IdentityMap.FoundIfComparable`, `IdentityMap.IncomparableIsLost`).
- `orm_session_rollback` never undoes a statement, because no transaction is ever begun
  (`Session.NothingIsRetracted`), and it leaves an object that was only pending attached, so that it counts
  as persistent (`Session.RollbackLeavesAttached`).
- Closed is not the last state of a connection. Whatever the state was, an operation leaves it closed if
  and only if it closed the connection, or its statement found it gone, and it was not cancelled up front;
  otherwise it leaves it idle (`ConnectionThreads.ClosedIsNotAbsorbing`). Both ways into the closed state are
  seen to be left again, with the backend handle and without (`ConnectionThreads.ClosedThenIdle`).
- Fetches deliver what the cursor has passed without a gap if and only if each one that runs and finds
  rows left may answer, and does not ask for more of them than there are before an error
  (`Cursors.DeliveredIsGapless`). When the rows end in an error, a fetch answers with a short batch, as at a
  clean end, if and only if it is not cancelled and those before it had together asked for more rows than
  there were (`Cursors.ShortBatchAfterError`, `Cursors.FailureIsForgotten`).
- An export of the rows of an empty table has no columns to name. Against the export of the result that
  shows in CSV if and only if there is a header line with something in it, and in JSON if and only if the
  columns are listed and there are any (`ExportLoop.EmptyCsvHasHeader`, `ExportLoop.EmptyJsonListsColumns`).

## Model

| member | source | states |
|---|---|---|
| MigrationHistory.OrderedIsTable | src/migration/orm-migrator.c:290-292 | ORDER BY version lists every row of the table once, in ascending order of versions |
| MigrationHistory.OrderedInsert | src/migration/orm-migrator.c:323-354 | a row above every stored version is read last |
| MigrationHistory.OrderedDelete | src/migration/orm-migrator.c:323-354 | deleting the row with the last version takes the last row away and leaves the others in place |
| MigrationHistory.PrefixIsUnique | src/migration/orm-migrator.c:296-312 | a history is a prefix of the list in at most one length |
| MigrationHistory.EditsAreNoticed | src/migration/orm-migrator.c:282-320 | a history that describes one list describes another if and only if the applied entries are the same: versions, names and checksums |
| MigrationHistory.BlobsReadAlike | src/migration/orm-migrator.c:255-275 | it makes no difference whether the stored texts come back as texts or as blobs |
| MigrationHistory.UpAppends | src/migration/orm-migrator.c:535-549 | recording the next migration of a strictly increasing list appends its row |
| MigrationHistory.DownDrops | src/migration/orm-migrator.c:535-549 | recording the down of the last one removes the last row |
| MigrationHistory.StepKeeps | src/migration/orm-migrator.c:527-551 | a chosen step moves the history by exactly one entry of the list, never meets a stored version, and keeps the table truthful about the schema |
| MigrationHistory.AdvanceKeeps | src/migration/orm-migrator.c:517-555 | any number of steps commits whole consecutive operations, in order, and ends on a prefix of the list |
| MigrationHistory.AdvanceResumes | src/migration/orm-migrator.c:517-555 | a call that continues where another stopped completes the same move |
| MigrationHistory.DownUndoesUp | src/migration/orm-migrator.c:535-551 | going up and back down restores the table that was there |
| MigrationHistory.SchemaIsUpsOfHistory | src/migration/orm-migrator.c:546-549 | if each down undoes its up, the schema is what the up operations of the recorded history build, whatever was run |
| MigrationRunner.CheckMigrations | src/migration/orm-migrator.c:235-244 | a list is accepted if and only if it has no hole and its versions strictly increase |
| MigrationServer.Connection.Execute | src/migration/orm-migrator.c:508-549 | a statement that reports success did exactly its effect; one that fails did one of the allowed partial effects; a closed connection refuses |
| MigrationRunner.Migrator.ReadHistory | src/migration/orm-migrator.c:282-320 | succeeds with the number of applied migrations; reports a mismatch if and only if some row that was delivered is not the list's at its place, and then the history is a prefix of the list in no length |
| MigrationRunner.Migrator.BeginMigration | src/migration/orm-migrator.c:361-372 | opens a transaction on the committed store, except on MySQL |
| MigrationRunner.Migrator.EndMigration | src/migration/orm-migrator.c:375-389 | ends it, and clears the connection's flag only when that succeeded |
| MigrationRunner.Migrator.ChooseStep | src/migration/orm-migrator.c:522-545 | the history is read inside the turn's own transaction and the turn follows from it; nothing is committed |
| MigrationRunner.Migrator.PerformStep | src/migration/orm-migrator.c:546-551 | success commits the step and its record together; failure commits neither, unless this very COMMIT took effect unseen |
| MigrationRunner.Migrator.RunSteps | src/migration/orm-migrator.c:517-555 | the loop ends; the committed store has moved by whole steps, each announced once and in order, and ends at the limit on success; and it is a run of one process of the concurrent system |
| MigrationRunner.Migrator.AcquireLock | src/migration/orm-migrator.c:445-503 | takes the dialect's lock, or reports failure with what was taken still on record for the cleanup |
| MigrationRunner.Migrator.CleanUp | src/migration/orm-migrator.c:558-589 | leaves no open transaction and no lock, and restores the busy timeout or reports failure |
| MigrationRunner.Migrator.ResolveTarget | src/migration/orm-migrator.c:422-436 | refuses a target exactly when it is neither zero nor a listed version; otherwise the limit is the place of the migration that has it, counted from one, or for zero the whole list going up and none of it going down |
| MigrationRunner.Migrator.Split | src/migration/orm-migrator.c:600-610 | status hands out the versions of the applied prefix and of the rest |
| MigrationRunner.Migrator.Conduct | src/migration/orm-migrator.c:438-612 | every exit after the running flag is taken clears it, drops every lock and transaction, and has announced exactly the committed steps and at most one failure, last |
| MigrationRunner.Migrator.Run | src/migration/orm-migrator.c:391-613 | a refused call touches nothing; any other ends clean, with the committed store moved by whole steps from where it was; success means that the history has gained the listed versions up to the target, or lost those above it, and nothing else; each step is announced in order, and then the migration at which it failed, which is the next one, with the reason; the bookkeeping stays truthful; and the call is a whole run of one process of the concurrent system |
| MigrationRunner.TurnIsChosen | src/migration/orm-migrator.c:522-545 | after the first half of a turn the loop has ended, with all that is promised of its end, or goes on to the next step |
| MigrationRunner.StepIsTaken | src/migration/orm-migrator.c:546-555 | after the second half it is at its head again, one whole step further, or has ended |
| MigrationSteps.CommitFollows | src/migration/orm-migrator.c:375-389 | each way a COMMIT can end is one step of the process |
| MigrationSteps.CallIsARun | src/migration/orm-migrator.c:392-613 | a call, with whatever failures, is a run of the concurrent system with this migrator in it, ending in the same committed store |
| MigrationSteps.CallGoesUp | src/migration/orm-migrator.c:392-613 | so what is proved of concurrent migrators holds of a call that goes up |
| MigrationProcesses.StepKeepsExclusive | src/migration/orm-migrator.c:445-551 | in every interleaving only one migrator is inside a transaction, and what it has read stays true until it commits |
| MigrationProcesses.CommitMoves | src/migration/orm-migrator.c:527-551 | whatever one statement of one migrator commits is the next step of that migrator's own list, short of its limit |
| MigrationProcesses.RunsAreSafe | src/migration/orm-migrator.c:392-613 | with any lists, targets, failures and interleavings the table describes the schema and the schema's log only grows |
| MigrationProcesses.UpRuns | src/migration/orm-migrator.c:517-560 | from any state of migrators going up one list, the committed store has moved up by whole steps, and the run's length is bounded |
| MigrationProcesses.ConcurrentUps | src/migration/orm-migrator.c:445-613 | any number of migrators going up one list, started together: the history stays a prefix, each up step is committed exactly once and in order, whoever succeeded finds its target applied for good, and every run ends |
| MigrationProcesses.FreshDatabase | src/migration/orm-migrator.c:505-555 | on an empty database the schema's log is the ups of the first migrations of the list, each once and in order |
| MigrationProcesses.NoDeadlock | src/migration/orm-migrator.c:445-589 | while a migrator has not returned, some migrator can send a statement that succeeds |
| OperationRace.JobStepKeeps | src/engine/orm-connection.c:1144-1257 | every statement of the job keeps the accounting of who owes the task its answer |
| OperationRace.HandlerStepKeeps | src/engine/orm-connection.c:1203-1226 | every statement of the cancel handler keeps it too |
| OperationRace.ReturnedExactlyOnce | src/engine/orm-connection.c:1144-1226 | in every interleaving the task is returned at most once, exactly once when the job is over, as cancelled only if it was, and a job that saw the cancellation up front never called the backend; uncancelled, the answer is how the backend work ended |
| OperationRace.CancelledBeforeStartNeverRuns | src/engine/orm-connection.c:1167-1178 | an operation that is cancelled before its check never enters the backend and is returned as cancelled |
| OperationRace.CancelInTimeFails | src/engine/orm-connection.c:1191-1197 | a cancelled operation is returned as cancelled if and only if the cancellation came before the result was settled |
| OperationRace.ResultIsCallOutcome | src/engine/orm-connection.c:1234-1257 | in every interleaving a result that a task is returned with is how its backend work ended |
| OperationRace.HandlerAnswers | src/engine/orm-connection.c:1203-1226 | wherever the job is, the handler of a cancelled task returns it when the backend cannot be interrupted, and leaves it alone when it can |
| OperationRace.CancelledInBackend | src/engine/orm-connection.c:1203-1226 | a task that is cancelled while its job is inside the backend is returned before the backend comes back |
| ConnectionThreads.StepKeeps | src/engine/orm-connection.c:1234-1309 | every statement of every thread keeps the invariant of threads, jobs and connection |
| ConnectionThreads.OneAtATime | src/engine/orm-worker.c:105-124 | at most one piece of work is inside the backend, and everything pushed before it has finished |
| ConnectionThreads.TasksAreAnswered | src/engine/orm-connection.c:1234-1257 | a task is never returned twice, and has been returned when its job has finished |
| ConnectionThreads.ConnectionIsSound | src/engine/orm-connection.c:197-229 | the handle is released at most once, the state is busy only while the worker is inside an operation, and the announced changes are a chain from idle to the present state, none of them from a state to itself |
| ConnectionThreads.WakeAfterEverythingBefore | src/engine/orm-worker.c:218-243 | a synchronous call returns only after its own function and everything pushed before it has run |
| ConnectionThreads.CloseDrains | src/engine/orm-connection.c:523-545 | a synchronous close reaches the handle only after every job has run and the worker is gone |
| ConnectionThreads.CloseReleases | src/engine/orm-connection.c:497-545 | when a synchronous close returns, the final one included, the handle is gone, released once, and the state closed |
| ConnectionThreads.CloseRuns | src/engine/orm-connection.c:523-545 | from every reachable state with a free owner a close can be run to that end, with a worker or without, whatever is queued |
| ConnectionThreads.FinalizeReleases | src/engine/orm-connection.c:311-323 | so is the handle of a connection that is finalized after it was dropped |
| ConnectionThreads.DropRuns | src/engine/orm-worker.c:105-124 | a connection dropped with operations in it runs them all and is then released |
| ConnectionThreads.CancelledInQueue | src/engine/orm-connection.c:1203-1226 | a submitted operation that is cancelled while it is queued is returned as cancelled before its turn |
| ConnectionThreads.StepDecides | src/engine/orm-connection.c:1234-1257 | every statement of every thread keeps the state in line with the operation in progress, whatever the state was before it |
| ConnectionThreads.ClosedIsNotAbsorbing | src/engine/orm-connection.c:1234-1257 | in every reachable state an operation ends closed if and only if it was a close, or a statement that found the connection gone, and was not cancelled up front; otherwise idle; without a handle every statement finds it gone |
| ConnectionThreads.OneOperation | src/engine/orm-connection.c:1380-1476 | an uncancelled operation on a connection at rest runs to its end, with what it reports and the state it leaves |
| ConnectionThreads.ClosedThenIdle | src/engine/orm-connection.c:1099-1109 | reachable runs in which a connection is closed, with its handle and without, and idle again after the next operation |
| ConnectionThreads.UnfinishedMeansProgress | src/engine/orm-worker.c:105-124 | while a job is unfinished, whatever the owner does, the worker or a handler can move |
| ConnectionThreads.BlockedMeansProgress | src/engine/orm-worker.c:150-164 | no deadlock: while the owner waits, the worker or a handler can move |
| ConnectionThreads.BackgroundTerminates | src/engine/orm-worker.c:105-124 | no livelock: every such move leaves less to do, and cancelling adds nothing |
| JsonText.ReadUndoesPrint | src/export/orm-json-exporter.c:76-238 | reading a printed document gives it back, in every layout and with every indent |
| JsonText.LayoutOf | src/export/orm-json-exporter.c:76-96 | pretty output starts a line for each element, indented by its depth; compact output has no white space of its own |
| JsonExporter.Exporter.WriteBegin | src/export/orm-json-exporter.c:241-292 | opens the document, and lists the columns when rows are arrays and columns are wanted |
| JsonExporter.Exporter.WriteRow | src/export/orm-json-exporter.c:295-360 | writes the printed row, after a comma unless it is the first |
| JsonExporter.Exporter.WriteEnd | src/export/orm-json-exporter.c:363-389 | closes what was opened |
| JsonExporter.AppendString | src/export/orm-json-exporter.c:110-162 | writes the quoted text, with a missing one as empty |
| JsonExporter.AppendValue | src/export/orm-json-exporter.c:181-238 | what is written for a cell reads, kind by kind: the boolean, a number that denotes the integer, the float's digits, the text; null for a NULL, a non-finite float and a date without a text |
| JsonExporter.StreamIsDocument | src/export/orm-json-exporter.c:241-389 | what the hooks append, end to end, is the printed document as a whole |
| JsonExporter.ExportReadsBack | src/export/orm-json-exporter.c:241-389 | a reader gets the column names and every cell back, in order and kind by kind as above, for every table and setting; pretty and compact output denote the same |
| JsonExporter.IntTextIsNumber | src/export/orm-json-exporter.c:201-203 | every integer is written as a number of the grammar |
| JsonExporter.ImagesAreFaithful | src/export/orm-json-exporter.c:181-238 | the image of a text, integer or boolean cell determines the cell |
| Substrings.FirstOccurrence | src/export/orm-csv-exporter.c:92-96 | finds the first place where a text occurs, if it occurs |
| CsvText.RecordReads | src/export/orm-csv-exporter.c:240-264 | fields written bare where they may be, or quoted, are read back as one record |
| CsvText.UnreadableRecord | src/export/orm-csv-exporter.c:149-160 | one field written as it stands although it has something special in it, a quote included, spoils its record |
| CsvExporter.Exporter.AppendField | src/export/orm-csv-exporter.c:102-134 | the search loop writes every occurrence of the quote string twice, between quote strings |
| CsvExporter.Exporter.AppendValue | src/export/orm-csv-exporter.c:137-205 | the text of the cell, quoted when it needs to be; a NULL only when everything is |
| CsvExporter.Exporter.WriteBegin | src/export/orm-csv-exporter.c:208-237 | the header line, if there is one |
| CsvExporter.Exporter.WriteRow | src/export/orm-csv-exporter.c:240-264 | the cells with the delimiter between them, and the line ending |
| CsvExporter.DoublingIsCharwise | src/export/orm-csv-exporter.c:120-133 | with a one-character quote the search doubles every quote of the field |
| CsvExporter.NeedsQuotesIsExact | src/export/orm-csv-exporter.c:86-99 | a field is quoted if and only if everything is or it has something special in it |
| CsvExporter.TableReadsBack | src/export/orm-csv-exporter.c:137-264 | with two distinct marks and either line break, a reader gets the column names, if they are wanted, and the text of every cell, kind by kind, if and only if every row has columns, and the null string is readable unless there is no NULL |
| CsvExporter.ExportReadsBack | src/export/orm-csv-exporter.c:208-264 | under a readable null string a table is read back if and only if every row has columns |
| CsvExporter.NullStringCondition | src/export/orm-csv-exporter.c:149-160 | all tables with columns come back if and only if the null string is quoted or has nothing special in it |
| CsvExporter.NullIsDistinct | src/export/orm-csv-exporter.c:149-160 | a NULL is written like a text if and only if the text is the null string |
| CsvExporter.RowWithoutColumns | src/export/orm-csv-exporter.c:250-261 | a row without columns is read as one empty field |
| Cursors.Result.Next | src/engine/orm-result.c:151-186 | delivers the rows in order; the end and an error are both for good, and the error is kept |
| Cursors.Result.GetAll | src/engine/orm-result.c:314-324 | delivers every row that is left |
| Cursors.Result.GetFirst | src/engine/orm-result.c:335-343 | delivers one row, if there is one |
| Cursors.Result.Close | src/engine/orm-result.c:392-409 | nothing is delivered afterwards, and the error stays |
| Cursors.RowStream.FetchJob | src/engine/orm-row-stream.c:271-318 | takes up to n rows off the cursor and answers with them; with the error that ended them exactly when it ran into that and may answer; or not at all |
| Cursors.ShortBatchIsEnd | src/engine/orm-row-stream.c:288-303 | a fetch takes the next rows in order, and its batch is short if and only if it reached the end |
| Cursors.RowsAreConserved | src/engine/orm-row-stream.c:271-318 | over any fetches, cancelled or failed, every row that the cursor has passed was delivered or lost |
| Cursors.AskedIsPassed | src/engine/orm-row-stream.c:288-303 | over any fetches the cursor has passed as many rows as those that ran asked for, or all; and it is at its end if and only if they asked for more than there were |
| Cursors.DeliveredIsGapless | src/engine/orm-row-stream.c:271-318 | over any fetches, what is delivered is what the cursor has passed, in order and without a gap, if and only if each fetch does not run, asks for nothing, comes when the rows asked for before it are all there were, or may answer and asks for no more than there are before an error |
| Cursors.DrainedIsAll | src/engine/orm-row-stream.c:271-318 | when the rows end well, fetching until a batch is short delivers every row, as GetAll does, under exactly that condition |
| Cursors.ShortBatchAfterError | src/engine/orm-row-stream.c:290-315 | when the rows end in an error, a fetch answers with a short batch all the same if and only if it may run and return, and those before it asked for more rows than there were |
| Cursors.FailureIsForgotten | src/engine/orm-row-stream.c:290-315 | after a failed fetch the next one answers with an empty batch |
| Cursors.CancelledBatchIsLost | src/engine/orm-row-stream.c:305-310 | a fetch that may not answer loses rows if and only if there were any to take |
| ExportLoop.Exporter.ExportResult | src/export/orm-exporter.c:192-268 | TRUE means begin, every row up to a clean end and end were written and counted; FALSE leaves a prefix of that; a cursor that ends in an error never gives TRUE |
| ExportLoop.Exporter.ExportRows | src/export/orm-exporter.c:288-350 | the same for the rows that are present in an array, under the names of the first row's cells, or none if that is missing |
| ExportLoop.PartOfWhole | src/export/orm-exporter.c:227-266 | whatever was written up to a row, or within it, begins the whole export |
| ExportLoop.PresentSplits | src/export/orm-exporter.c:315-335 | the rows that are present are exported in order, and a missing one is skipped, wherever it is |
| ExportLoop.JsonExportReadsBack | src/export/orm-exporter.c:192-268 | a JSON export that succeeded reads back as the document of its rows |
| ExportLoop.CsvExportReadsBack | src/export/orm-exporter.c:192-268 | a CSV export that succeeded reads back as the table of its rows if and only if all of them are readable |
| ExportLoop.MaterializedIsSame | src/export/orm-exporter.c:288-350 | exporting a non-empty result and exporting its materialized rows write the same |
| ExportLoop.EmptyCsvHasHeader | src/export/orm-exporter.c:115-132 | for an empty table they agree in CSV if and only if there is no header line with something in it |
| ExportLoop.EmptyJsonListsColumns | src/export/orm-exporter.c:115-132 | and in JSON if and only if columns are not listed or there are none |
| SqlText.ReadKeepsQuotes | src/orm/orm-query.c:386-428 | whatever text is read as a statement, its quotes are exactly those of the statement's names, escaped |
| QueryCompiler.Query.AddFilter | src/orm/orm-query.c:225-250 | appends the filter under the column that the property is mapped to, or else under its own name; drops it when there is no mapper |
| QueryCompiler.Query.OrderBy | src/orm/orm-query.c:283-308 | appends the order under the column that the property is mapped to, or else under its own name |
| QueryCompiler.Query.AppendWhere | src/orm/orm-query.c:390-419 | the loop writes the conjunction and collects one parameter for each placeholder, in order |
| QueryCompiler.Query.Build | src/orm/orm-query.c:372-454 | the three statements, with the parameters of their filters |
| QueryCompiler.Query.BuildFirst | src/orm/orm-query.c:576-600 | compiles with a limit of one and leaves the query as it was |
| QueryCompiler.ScansStatement | src/orm/orm-query.c:372-454 | with quote-free names the text is scanned into the intended tokens |
| QueryCompiler.ParsesStatement | src/orm/orm-query.c:350-454 | the tokens are refused, or parsed as the plan with unlisted operators made equality |
| QueryCompiler.QuotesOfStatement | src/orm/orm-query.c:384-441 | the text is one quote short for every quote inside a name |
| QueryCompiler.TakesStatement | src/orm/orm-query.c:402-418 | the database has every token of the text if and only if it has question marks or no filter has a value to bind, and takes empty names or there are none |
| QueryCompiler.ReadsAs | src/orm/orm-query.c:350-454 | with quote-free names: exactly when a database refuses the text, and what it is read as otherwise |
| QueryCompiler.SaysWhatIsMeant | src/orm/orm-query.c:350-454 | a database reads the text as the statement that was meant if and only if names and operators are as listed above and it has what OFFSET, placeholders and empty names need |
| QueryCompiler.PostgresRefusesQuestionMarks | src/driver/postgres/orm-postgres-driver.c:651-658 | one filter with a value: SQLite reads it as it was meant, PostgreSQL, which gets the text unchanged, refuses it |
| QueryCompiler.LastFilterIsRead | src/orm/orm-query.c:225-250 | in any statement that is read, the last condition is on the mapped column of the last filter, and its value is the last parameter |
| QueryCompiler.LastOrderIsRead | src/orm/orm-query.c:283-308 | and the last sort is on the mapped column of the last order, in its direction |
| QueryMeaning.WhereMeans | src/orm/orm-query.c:405-418 | with parameters bound by position, WHERE is true of a row if and only if every filter holds of it, each with the operator it is compiled to |
| QueryMeaning.OperatorKeepsMeaning | src/orm/orm-query.c:350-366 | a filter means what it is compiled to, however values are compared and for every row, if and only if its operator is listed or it has no value |
| QueryMeaning.CompiledMeaning | src/orm/orm-query.c:372-454 | any query with quote-free names is refused by exactly the databases that lack what it needs, and answered by the others as the query with its unlisted operators made equality |
| QueryMeaning.CompilingKeepsMeaning | src/orm/orm-query.c:372-454 | with listed operators it is refused by exactly those, and running it on any other has exactly the outcomes of filtering, sorting, dropping and taking on the table |
| QueryMeaning.RowsDelivered | src/orm/orm-query.c:443-450 | how many rows come, that each is a match taken once, and that they are sorted |
| QueryMeaning.RowsAreTheWindow | src/orm/orm-query.c:443-450 | they are the rows from the offset on, of all matches in the order asked for |
| QueryMeaning.SortedByOne | src/orm/orm-query.c:421-441 | ordered by one column, no later row has a smaller value in it, or none a greater one when descending |
| QueryMeaning.CountIsRows | src/orm/orm-query.c:697-781 | without limit and offset, running the text of count() gives the number of rows that running the text of all() delivers, whatever the operators |
| QueryMeaning.DeleteLeavesTheRest | src/orm/orm-query.c:814-879 | running the text of delete() removes exactly the rows that match what was compiled, and running the text of all() afterwards finds none |
| QueryMeaning.FirstIsAHead | src/orm/orm-query.c:576-600 | running the text of first() gives the head of what the text without a limit may deliver, whatever the query's own limit |
| IdentityMap.EqualityOfKeys | src/orm/orm-identity-map.c:91-122 | two keys are equal if and only if they are the same and hold an integer, a string or NULL |
| IdentityMap.IdentityMap.Add | src/orm/orm-identity-map.c:189-208 | keeps the key that is there, and points the object at the one that was passed |
| IdentityMap.IdentityMap.Get | src/orm/orm-identity-map.c:221-236 | finds the object under an equal key |
| IdentityMap.IdentityMap.Remove | src/orm/orm-identity-map.c:276-298 | removes the entry of an equal key and the object's way back |
| IdentityMap.IdentityMap.RemoveObject | src/orm/orm-identity-map.c:310-326 | removes the object's way back and the entry of an equal key |
| IdentityMap.LookupAgrees | src/orm/orm-identity-map.c:221-263 | lookup agrees with the plain map |
| IdentityMap.AddIsExact | src/orm/orm-identity-map.c:189-208 | adding keeps the tables inverse if and only if key and object are fresh, and then adds to the plain map |
| IdentityMap.StepRefines | src/orm/orm-identity-map.c:189-341 | every operation does to the tables what it does to the plain map |
| IdentityMap.RunRefines | src/orm/orm-identity-map.c:189-341 | over any sequence of careful operations the tables stay inverse, never look at a freed key and stand for the plain map |
| IdentityMap.TakenKeyDangles | src/orm/orm-identity-map.c:199-207 | adding and then removing the object looks at a freed key if and only if the key was taken |
| IdentityMap.FoundIfComparable | src/orm/orm-identity-map.c:107-121 | what was added under a fresh key is found under it if and only if the key is an integer, a string or NULL |
| IdentityMap.IncomparableIsLost | src/orm/orm-identity-map.c:107-121 | under a key of another type an object is never found, and removing it leaves its entry |
| Session.Session.Add | src/orm/orm-session.c:257-282 | registers a mapper if there is none, and makes the object pending and attached |
| Session.Session.Remove | src/orm/orm-session.c:313-331 | withdraws a pending object, and marks any other for deletion |
| Session.Session.Expunge | src/orm/orm-session.c:342-353 | forgets the object everywhere |
| Session.Session.Rollback | src/orm/orm-session.c:658-672 | clears what is pending, dirty and deleted, and nothing else |
| Session.Session.Close | src/orm/orm-session.c:928-951 | empties the session for good |
| Session.Session.FlushInserts | src/orm/orm-session.c:530-579 | inserts pending objects one by one; FALSE if and only if a mapped one is left |
| Session.Session.FlushDeletes | src/orm/orm-session.c:581-610 | deletes one by one; without a primary key the object is only forgotten |
| Session.Session.Flush | src/orm/orm-session.c:519-616 | inserts, then deletes; the first failing statement ends it and what was done stays done |
| Session.FlushSplitsPending | src/orm/orm-session.c:519-616 | what was pending is split into what was inserted, once each, and what is still pending; success if and only if nothing is left |
| Session.FlushSplitsDeleted | src/orm/orm-session.c:581-610 | what was marked for deletion is split into what is gone, with one DELETE each if it has a primary key and no longer attached, and what is still marked |
| Session.FlushForgets | src/orm/orm-session.c:581-610 | nothing that a flush deleted by its key is in the identity map afterwards |
| Session.FlushRemembers | src/orm/orm-session.c:566-579 | an inserted object with a primary key is found under the row id it got |
| Session.RunKeepsOk | src/orm/orm-session.c:257-353 | over every run pending objects are attached and have mappers, nothing is dirty, and a closed session is empty |
| Session.InsertsAreAdds | src/orm/orm-session.c:519-616 | over every run, with any failures: INSERTs of an object, plus withdrawals, plus one if it is pending, equal the calls that made it pending |
| Session.StatesAfterOperations | src/orm/orm-session.c:257-392 | what add, delete, expunge, rollback and close make of an object's state and of the mappers, and that they leave other objects' states alone |
| Session.StatesAfterFlush | src/orm/orm-session.c:365-392 | after a successful flush what was pending is persistent and what was deleted transient |
| Session.RollbackLeavesAttached | src/orm/orm-session.c:658-672 | rollback undoes no statement, and a pending object becomes persistent |
| Session.NothingIsRetracted | src/orm/orm-session.c:658-672 | over any run, rollbacks included, what was executed stays executed |
| Session.ExpungedIsForgotten | src/orm/orm-session.c:342-353 | over any run that ends with expunge(), the object is in no set and not in the identity map, a lookup of the key it had finds nothing, and no other object is touched |
| Session.ClosedHoldsNothing | src/orm/orm-session.c:928-951 | over any run with a close(), whatever follows, the session is closed and empty and the identity map holds nothing |
| Session.LoadedIsFound | src/orm/orm-session.c:779-877 | what get() has read is attached and found under its key, and what was held stays held |
| Session.StepKeepsSafe | src/orm/orm-session.c:779-877 | every operation, get() included, asks the identity map only for what keeps it sound, under prudent use |
| Session.IdentityMapStaysSound | src/orm/orm-session.c:566-601 | under prudent use the session's identity map is sound over every run |
| Session.SessionIsSound | src/orm/orm-session.c:257-951 | all of it over the whole life of a session, from its opening |
| EngineUrl.Engine.ParseNetwork | src/engine/orm-engine.c:173-240 | the fields become the parts of the address, or the database is missing |
| EngineUrl.Engine.ParseUrl | src/engine/orm-engine.c:118-333 | the fields become the parts of the URL, or the failure is reported and no URL is kept |
| EngineUrl.WhenParsingFails | src/engine/orm-engine.c:131-330 | a network URL is refused if and only if its scheme is unknown or not compiled in, or no slash follows the credentials; and which it was |
| EngineUrl.SqlitePaths | src/engine/orm-engine.c:144-165 | a SQLite path is kept as it stands, except for the in-memory database |
| EngineUrl.SpellingDecodes | src/engine/orm-engine.c:57-70 | every valid spelling of a text is decoded to the text |
| EngineUrl.UnescapeMeans | src/engine/orm-engine.c:42-70 | a component stands for the text it spells, and one that spells none, with a bare percent sign in it, for itself |
| EngineUrl.StrToLongReads | src/engine/orm-engine.c:226-231 | an integer is read after any blanks and with its sign, and saturates at 64 bits |
| EngineUrl.PortWraps | src/engine/orm-engine.c:226-231 | a port is its number modulo 2 to the 32, as a signed 32-bit integer |
| EngineUrl.SchemeIsNeeded | src/engine/orm-engine.c:130-137 | a URL is refused for want of a scheme if and only if it has no scheme separator |
| EngineUrl.DefaultPorts | src/engine/orm-engine.c:167-330 | the four network schemes, their dialects and default ports |
| EngineUrl.PortReads | src/engine/orm-engine.c:226-231 | a printed port is read back, although the path follows it, if and only if it fits 31 bits |
| EngineUrl.UrlRoundTrip | src/engine/orm-engine.c:118-333 | an address comes back from its URL if and only if it has credentials or no at-sign in its database name, and its port fits 31 bits |
| EngineUrl.EncodedUrlComesBack | src/engine/orm-engine.c:118-333 | with percent-encoded credentials every user, password, port and database name comes back |

## Left out

- Drivers, dialects, DDL compilers and inspectors: their statements succeed or fail as a nondeterministic database lets them.
- MigrationRunner.Migrator.Run: asks that a session whose in-transaction flag is clear has no open transaction; one opened by executing BEGIN as text passes the code's guard and is not covered. It says nothing about the schema after a failure on MySQL, whose DDL commits by itself; what it says there is about the history, the locks and the signals.
- MigrationRunner.Migrator.Conduct: asks for the same.
- MigrationSteps.CallIsARun: is about a call during which nobody else writes; what other migrators may do between its statements is in the concurrent system.
- MigrationServer.Connection.Execute: a statement that fails has no effect, apart from partial work of a migration step inside its transaction and a COMMIT that drops its transaction or takes effect unseen; a lost reply to any other statement is not modelled.
- MigrationProcesses.ConcurrentUps: covers SQLite and PostgreSQL; MySQL's locking session is in the single migrator only, as a lock that is held or not.
- MigrationProcesses.NoDeadlock: SQLite's busy timeout running out is a failing BEGIN; how long anyone waits is not modelled.
- A session's PostgreSQL advisory lock is one flag: taking it twice is not told from taking it once.
- Migration callbacks that open transactions of their own, and the checksum's computation: a checksum is a text.
- ConnectionThreads.StepKeeps: a cancel handler that runs at connect time, inside the submitting thread, is a thread of its own here, which allows more interleavings than there are.
- ConnectionThreads.CloseDrains: exchanging the handle for NULL and closing it are one step.
- Listeners of connection signals, main contexts, reference counts and finalizers, apart from the final close of a dropped connection; owner calls from several threads at once.
- Decimal text of floats, ISO dates and base64 are given texts; JsonExporter.ExportReadsBack asks that finite floats are spelled as numbers of the grammar.
- OperationRace.CancelInTimeFails: an answer is what the task was returned with. GTask's check of its cancellable makes the finish function report a cancellation that is set after the return, whatever was returned.
- Cursors.DeliveredIsGapless: likewise, a batch that the finish function drops because the cancellable was set after the return counts as delivered.
- Bytes and UTF-8: texts are sequences of characters, and characters above 127 pass through unchanged.
- JsonText: numbers stay texts, and a reader's choice among duplicate names does not arise because members are a sequence.
- CsvExporter.TableReadsBack: delimiters and quote strings of more than one character have no reader in RFC 4180; the methods are general.
- ExportLoop.Exporter.ExportResult: the stream is what was accepted, so a failing close says nothing about the file.
- QueryMeaning.CompilingKeepsMeaning: a filter has one value, so IN and NOT IN are tests against a list of that value and BETWEEN against the range from it to itself; columns that the table does not have read as NULL, and MySQL, where double quotes delimit strings, is not covered.
- QueryCompiler.SaysWhatIsMeant: a database's limits on the length of a name (PostgreSQL cuts it off after 63 bytes), on the number of parameters and on the size of a statement.
- SqlText.ReadKeepsQuotes: the grammar is that of the emitted statements and their corrected forms; keywords are upper case.
- Turning rows into objects, one() and one_or_none(), which only count what all() delivers.
- QueryCompiler.Query.Build: delete() answers 0 instead of the number of deleted objects its documentation promises; the model is about the statement.
- IdentityMap.EqualityOfKeys: the hash is left out; it is computed from the parts that equality compares, so equal keys hash alike.
- Cursors.RowStream.FetchJob: the test in fetch_async() that turns a closed stream away before any job is submitted.
- IdentityMap.IdentityMap.Get: contains(), size() and get_all() are the same lookup or a walk over the entries.
- Session.Session.Flush: the text of INSERT and DELETE and the writing back of the row id into the object are not modelled, and UPDATE does not exist in the code.
- Session.RunKeepsOk: commit() is a flush, since there is never a transaction; refresh() changes no set.
- EngineUrl.UrlRoundTrip: hosts in brackets, and relative SQLite paths, which the code prints and parses differently.
- Schema records, relationships, type tables and the expression builders, which would only add accessors.
