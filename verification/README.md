# seekbase: a verified model of its write path, read path and streams

seekbase keeps every business table twice: append-only partition files, one for each
day, are canonical, and a DuckDB table with deletion marks, vectors and tokens is
derived from them. This project models what its services do to those two tiers, how a
pipeline query is compiled and run, how a stream lands files, and the smaller machines
around them, and proves the properties that the design relies on.

| module | what it models |
|---|---|
| Prelude | options, results, bytes |
| PipelineText, PipelinePlan, PlanSemantics, BuiltinOperators | the quote-aware scanners, staging and fusion, the meaning of a fused plan against its stages one by one, and the statements of the built-in operators |
| Embedding, Store, Files | gather, embed and scatter; validation and row primitives; the partition files |
| Rebuild, Admin | the two-phase replay, as a function of the log and as the service that performs it |
| History | crash-free histories of one table: rebuild is the identity, the past is immutable |
| Recovery, CrashViews, Overlap | the write worker, a rebuild and crashes interleaved line by line; what a crash leaves for the next rebuild; what a rebuild that overlaps writes leaves |
| StreamReader, Stream, StreamMachine, StreamFollower | the checkpointed reader, the idempotent sink, delivery under crashes, and the loop of a stream |
| StreamProgress, StreamRebuild | how far a stream gets, and what it leaves for a rebuild |
| WorkerQueue, WorkerAnswers, WriteWorker, EndToEnd | what the worker takes off its queue; what it answers and records; batches, futures and the full-text refresh; the worker followed by a rebuild |
| TaskLog, TaskService, TaskRun, TaskClock | the task log and its wire form, status and listing, background tasks with their result files, and the clock behind ids and times |
| ReadPool, SearchFusion, Metric, SideIndex | cursors, hybrid search, why both metrics rank alike, and the side dataset |

Services whose methods update fields are classes (StoreService, FileService,
AdminService, WriteService, TaskService, StreamService, SideService, ReadCursor), and scanners and
loops are loops; each is proved against a specification function, and the main results
are lemmas about those functions. What several coroutines, threads or processes do at
once is a machine over its steps: Recovery, StreamMachine, TaskRun and ReadPool. Values
that come from outside (SQL results, commands, vectors, tokens, the clock, random ids,
which appends fail, which refreshes fail) are parameters or arbitrary choices.

## What the proofs found

- A carriage return without a line feed stalls a stream for ever: bytes are split at it,
  and the reader stops at a line that does not end in a line feed.
  `StreamReader.WholeIffNoLoneCr` says exactly when a text is read to its end,
  `StreamProgress.LoneCrStallsStream` that no run gets past the first one.
- A row with a null key passes validation and fails in the transaction after its line
  is written; every later rebuild then fails (`History.LandKeepsStepIffKeyed`).
- A crash between the lines and the transaction of an insert is healed by the next
  rebuild, but the row then appears on a day that had passed without it
  (`Recovery.CrashedInsertSurfacesInThePast`); `CrashViews.RebuildKeepsViewIff` says
  exactly when a rebuild keeps a day's view. Inserting the key again instead makes
  every later rebuild fail (`CrashViews.RepeatedInsertBreaksRebuild`), and a stream
  that crashes inside a landing does so by itself (`StreamRebuild.ReplayBreaksRebuild`).
  docs/works/store.md:103-106 promises a repair when the store is opened; the code has
  none, and the model follows the code.
- A write that settles while a rebuild is between reading the files and clearing the
  table disappears from the table until the next rebuild
  (`Overlap.OverlappedWriteDisappears`); `Overlap.OverlapIff` says exactly when a rebuild
  that overlaps writes leaves the table that the files describe.
- A rebuild that meets a log with a repeated or null key stops at its table, which then
  has the rows before the first such line, unmarked, and leaves the tables after it
  empty (`Admin.AdminService.Replay`).
- A segment that reads a relation called `_bridge`, or one named like a relation of its
  own statement before it (`_s0`, `_s1`, …), may change its meaning when it is fused
  (`PlanSemantics.HygieneIsNeeded`); fusion is proved for all others.
- One apostrophe in the path of the data directory breaks every search on the side
  dataset (`BuiltinOperators.LanceIsSoundIff`).
- Fusing shell commands ignores the exit code of all but the last one
  (`PlanSemantics.StrictUnlessSwallowed`, `PlanSemantics.SwallowedExitExample`).
- A task that was running when the process died stays `running`
  (`TaskRun.SettledIsForever`).
- A write that arrives during a batch stays queued and unsettled for ever exactly when
  `stop` is set before that batch ends (`WorkerQueue.ArrivedServedIff`,
  `WorkerQueue.CloseDuringBatch`); so does every write behind a sentinel
  (`WriteWorker.WriteService.WorkerLoop`).
- Over-fetching by four is exactly enough for `3k` hidden rows
  (`SideIndex.SideSearchFillsUp`, `SearchFusion.OneMoreIsTooMany`); a zero vector ranks as
  cosine distance one half in the side dataset (`Metric.ZeroRanksHalfWay`).

## Model

| member | source | states |
|---|---|---|
| PipelineText.CountPlaceholders | seekbase/service/pipeline_service.py:73-89 | the scanner counts exactly the question marks that plain quote toggling leaves outside quotes, so skipping a doubled mark is the same as closing and opening a literal |
| PipelineText.SplitPipeline | seekbase/service/pipeline_service.py:35-70 | the scanner returns the stripped pieces between the cuts of the text, or refuses the text exactly when a piece is blank |
| PipelineText.QuoteAfterConcat | seekbase/service/pipeline_service.py:45-55 | quoting is a left-to-right state: what a prefix leaves open is all that the rest depends on |
| PipelineText.PlaceholdersConcat | seekbase/service/pipeline_service.py:73-89 | placeholders of a text are the sum over any two parts of it |
| PipelineText.CutsAcrossSeam | seekbase/service/pipeline_service.py:43-65 | cuts are local: joining two texts at a seam outside quotes and between no pipes creates and destroys no cut |
| PipelineText.RawJoins | seekbase/service/pipeline_service.py:56-66 | the raw segments joined by a pipe give back the text |
| PipelineText.JointsAreCuts | seekbase/service/pipeline_service.py:56-62 | a pipe separates two segments exactly when it is unpaired and outside quotes |
| PipelineText.RawIsSplittable | seekbase/service/pipeline_service.py:35-66 | no raw segment hides a cut, and only the last one may leave a quote open |
| PipelineText.JoinThenRaw | seekbase/service/pipeline_service.py:35-66 | splitting inverts joining on every list of such segments; with RawJoins the two are inverse bijections |
| PipelineText.StripParts | seekbase/service/pipeline_service.py:67 | stripping removes whitespace, and nothing else, at the two ends |
| PipelineText.PaddingIsNeutral | seekbase/service/pipeline_service.py:67 | whitespace around a segment changes neither its cuts, nor its quoting, nor its placeholders |
| PipelineText.SegmentsKeepPlaceholders | seekbase/service/pipeline_service.py:73-89 | the placeholder count of a whole text is the sum of the counts of its segments |
| PipelineText.SegmentsAreWellFormed | seekbase/service/pipeline_service.py:67-70 | every segment is non-empty and trimmed, has no cut, and all but the last close their quotes |
| PipelineText.ResplitIsIdentity | seekbase/service/pipeline_service.py:35-70 | splitting the segments joined by a spaced pipe returns the same list, for every text that splits |
| PipelinePlan.ConsumeIsAcceptance | seekbase/service/pipeline_service.py:184-206 | running out of parameters, having some left, or a misplaced stage are the only refusals of the fusing half |
| PipelinePlan.AcceptedIffCompilable | seekbase/service/pipeline_service.py:184-206 | staged segments compile exactly when a duck stage starts them, sources only start, middles never start, and the parameters are exactly as many as the SQL segments take |
| PipelinePlan.UserParamsAreRouted | seekbase/service/pipeline_service.py:233-240 | the user parameters are the in-order concatenation of what the SQL segments consume, none skipped, repeated or left over |
| PipelinePlan.CteNamesDistinct | seekbase/service/pipeline_service.py:218-243 | no fused statement names two of its relations alike |
| PipelinePlan.PhasesAlternate | seekbase/service/pipeline_service.py:184-202 | phases alternate between the runtimes and begin with the runtime of the first stage |
| PipelinePlan.PlanPeelsRun | seekbase/service/pipeline_service.py:184-202 | one turn of the fusing loop takes exactly the first maximal run of one runtime |
| PipelinePlan.FuseDuckRun | seekbase/service/pipeline_service.py:208-246 | the loop over a duck run builds its chain of relations, interleaves operator and user parameters in order, and returns the parameters it leaves, or refuses exactly when a stage is misplaced or short of parameters |
| PipelinePlan.TakeBashRun | seekbase/service/pipeline_service.py:186-191 | the inner loop collects the commands of the maximal shell run |
| PipelinePlan.TakeDuckRun | seekbase/service/pipeline_service.py:195-199 | the inner loop collects the maximal duck run |
| PipelinePlan.Fuse | seekbase/service/pipeline_service.py:181-206 | the fusing loop refuses exactly the uncompilable queries and otherwise yields the plan of their bound stages |
| PipelinePlan.Compile | seekbase/service/pipeline_service.py:142-206 | a query is refused exactly when a segment does not stage or the stages are not compilable; otherwise the result is the plan of the stages in order |
| PlanSemantics.RunPlan | seekbase/service/store_service.py:466-501 | executing the phases on a cursor, whatever temporary relation it still carries, gives the plan's meaning, loads every shell phase's output before the duck phase that reads it, and leaves exactly the relations that `Leaves` names |
| PlanSemantics.FusedTextMatchesParams | seekbase/service/pipeline_service.py:245-246 | every fused statement has exactly as many placeholders outside quotes as parameters |
| PlanSemantics.CteIsStep | seekbase/service/pipeline_service.py:230-241 | one relation of a chain computes what its stage computes alone |
| PlanSemantics.ChainIsSteps | seekbase/service/pipeline_service.py:208-246 | a WITH chain computes what its stages compute one after the other |
| PlanSemantics.PipelineIsSteps | seekbase/service/store_service.py:118-174 | a process chain computes what its commands compute one after the other, failing just when the stream cannot leave the shell |
| PlanSemantics.DuckPhaseIsSteps | seekbase/service/store_service.py:481-491 | a fused duck phase computes what its stages compute |
| PlanSemantics.PlanFromDuck | seekbase/service/pipeline_service.py:181-206 | the plan from a duck run on, given the relation it starts from, means its remaining stages |
| PlanSemantics.PlanFromBash | seekbase/service/pipeline_service.py:181-206 | the plan from a shell run on, given the rows piped in, means its remaining stages |
| PlanSemantics.FusionPreservesMeaning | seekbase/service/pipeline_service.py:181-246 | for every segment list that compiles, the fused phases return the same rows, or the same error, as the stages one by one with the JSONL conversion at each runtime switch, on any cursor; a body must only ignore `_bridge` and the relations of its own statement before it |
| PlanSemantics.SplitTextIsWellQuoted | seekbase/service/pipeline_service.py:35-70 | a split text can leave a quote open only in its last stage |
| PlanSemantics.QueryMeansItsSegments | seekbase/service/pipeline_service.py:116-132 | from the text of a query to its rows: what splits and compiles returns what its segments mean one by one |
| PlanSemantics.BypassAgrees | seekbase/service/pipeline_service.py:124-128 | the shortcut for one SQL segment returns what the compiled plan would on the same cursor, for any segment, and leaves the same relations |
| PlanSemantics.LeavesSameWorld | seekbase/service/store_service.py:476-520 | whatever a plan does and wherever it fails, it changes no relation of its cursor but `_bridge` |
| PlanSemantics.EveryQueryMeansItsStages | seekbase/service/store_service.py:429-433 | queries run one after the other on one cursor each return what their stages mean one by one over their own views, whatever was run before |
| PlanSemantics.StrictUnlessSwallowed | seekbase/service/store_service.py:165-171 | a fused shell run agrees with checking every command's exit code exactly when no inner command fails without the run failing |
| PlanSemantics.SwallowedExitExample | seekbase/service/store_service.py:165-171 | a failing command inside a shell run goes unnoticed |
| PlanSemantics.HygieneIsNeeded | seekbase/service/pipeline_service.py:219-243 | a segment that reads a table named like a generated relation changes meaning when fused |
| BuiltinOperators.TextIsClean | seekbase/service/pipeline_service.py:73-89 | a statement of quote-free words, quoted names and quoted literals closes its quotes and has exactly its marks as placeholders |
| BuiltinOperators.VssSql | seekbase/service/store_service.py:363-392 | the in-table search statement has three placeholders outside quotes, for any schema and window |
| BuiltinOperators.LanceIsSound | seekbase/service/store_service.py:394-416 | the side-dataset search statement has two, for every data directory whose quoted path closes its quotes and hides no question mark outside them |
| BuiltinOperators.LanceIsSoundIff | seekbase/service/store_service.py:394-416 | a data directory without double quotes and question marks gives a sound search statement exactly when its apostrophes are even in number |
| BuiltinOperators.Visible | seekbase/service/store_service.py:424-427 | the visibility view has none |
| BuiltinOperators.GrepSql | seekbase/operator/builtins.py:105-112 | the row filter has one, and closes its quotes for any field without a double quote |
| BuiltinOperators.LoweringIsSound | seekbase/service/store_service.py:348-361 | search, scan and grep, on either backend and for any notion of letters and digits that excludes the double quote, bring exactly as many parameters as their text has placeholders, and close their quotes |
| BuiltinOperators.BuiltinsAreSound | seekbase/operator/builtins.py:62-112 | what the compiler asks of an operator's lowering holds of every built-in one |
| BuiltinOperators.BuiltinQueryMeansItsSegments | seekbase/service/pipeline_service.py:116-132 | queries of SQL, shell commands and built-in operators return what their segments mean one by one, with nothing assumed about lowering |
| Embedding.Embed | seekbase/service/embedding_service.py:41-49 | one vector for each text, in order, or an error exactly when some vector has the wrong dimension |
| Embedding.Gather | seekbase/service/embedding_service.py:61-63 | the positions, increasing, of all records with a non-empty text, and those texts |
| Embedding.Scatter | seekbase/service/embedding_service.py:64-68 | each value lands at its own position and every other position is null |
| Embedding.EmbedColumn | seekbase/service/embedding_service.py:60-69 | vector and tokens of each record are the embedder's for its text, and null for an empty one |
| Embedding.EmbedRecords | seekbase/service/embedding_service.py:54-70 | whatever batch a record is embedded in, it gets the same search columns; the batch fails exactly when a text does |
| Store.NewRecordsAreNew | seekbase/service/store_service.py:541-551 | the skip-existing mode keeps exactly the unknown keys, each once, and only given records |
| Store.CommitMeans | seekbase/service/store_service.py:570-604 | a transaction succeeds exactly for new, distinct, non-null keys, and then adds one live row for each record and touches no other row |
| Store.CheckColumns | seekbase/service/store_service.py:534-539 | rows are refused exactly when one has an unknown column, and otherwise normalised in order |
| Store.DropExisting | seekbase/service/store_service.py:541-551 | dropping repeated keys first and stored keys afterwards leaves the first record of each new key |
| Store.CheckNew | seekbase/service/store_service.py:552-558 | records are accepted exactly when no key repeats or exists |
| Store.StoreService.Validate | seekbase/service/store_service.py:524-559 | all outcomes of validation, in both modes |
| Store.StoreService.CommitRows | seekbase/service/store_service.py:596-604 | all rows or none: the new table on success, every table unchanged on failure |
| Store.StoreService.MatchLive | seekbase/service/store_service.py:610-626 | each live matching key once, in some order, or an error exactly for a rejected clause |
| Store.StoreService.SoftDelete | seekbase/service/store_service.py:628-636 | live rows of the keys get the mark, deleted rows keep theirs, other tables are untouched |
| Store.StoreService.Clear | seekbase/service/store_service.py:638-639 | only the named table is emptied |
| Store.StoreService.RebuildFts | seekbase/service/store_service.py:606-608 | only the named snapshot changes, to the tokens of its table |
| Store.NewRecordsTwice | seekbase/service/store_service.py:541-551 | deduplicating before filtering equals doing both at once |
| Files.AppendAllMeans | seekbase/service/file_service.py:43-52 | appending keeps every line where it is and adds the new ones at the end of their day |
| Files.EventsMean | seekbase/service/file_service.py:56-80 | what is read back is every line exactly once, ordered by day and by place within the day |
| Files.FileService.WritePuts | seekbase/service/file_service.py:43-47 | one put line for each record, in order, in the day's file of that table only |
| Files.FileService.WriteDeletes | seekbase/service/file_service.py:49-52 | one tombstone line for each key, in order, in the day's file of that table only |
| Files.FileService.IterEvents | seekbase/service/file_service.py:56-80 | the loop over partitions and lines yields the events of the log |
| Rebuild.MarkMeans | seekbase/service/admin_service.py:65-67 | after all tombstones each row carries the first one of its key |
| Rebuild.RebuildSucceedsIffLoadable | seekbase/service/admin_service.py:57-64 | a rebuild succeeds exactly when no two put lines share a key and none has a null key |
| Rebuild.RebuildIffAgree | seekbase/service/admin_service.py:33-71 | a rebuild yields a table exactly when the table is the one the log describes, line by line; so rebuilding is deterministic, and twice is once |
| Rebuild.FirstTombstoneWins | seekbase/service/store_service.py:628-636 | a rebuilt row is marked with the earliest partition that holds a tombstone of its key, and with nothing when none does |
| Rebuild.LaterTombstoneChangesNothing | seekbase/service/admin_service.py:65-67 | a tombstone behind another one of the same key does not change the rebuilt table |
| Admin.SplitEvents | seekbase/service/admin_service.py:36-41 | events are sorted into puts and tombstones, keeping their order |
| Admin.AdminService.ReadTable | seekbase/service/admin_service.py:35-50 | a table is read and embedded completely, or the replay fails exactly when some put cannot be embedded |
| Admin.AdminService.LoadAll | seekbase/service/admin_service.py:58-64 | one commit for each put loads exactly the table of the puts, or stops at the first primary-key violation with the table of the longest prefix that loads |
| Admin.AdminService.MarkAll | seekbase/service/admin_service.py:65-67 | one update for each tombstone marks exactly what all of them mark |
| Admin.AdminService.ReloadTable | seekbase/service/admin_service.py:55-70 | reloading succeeds exactly for a loadable log and leaves the rebuilt table with a fresh full-text snapshot; otherwise the table of the longest prefix of its puts that loads, unmarked, and every snapshot as it was |
| Admin.AdminService.ReloadAll | seekbase/service/admin_service.py:55-70 | tables are rebuilt in order until one fails; those after it stay empty |
| Admin.AdminService.Replay | seekbase/service/admin_service.py:30-71 | a failing embedder leaves the derived tier untouched; success means that every table is rebuilt from its log; a primary-key failure leaves the tables before it rebuilt, the longest loadable prefix in its own, and the later ones empty; tables that agree with their logs are left as they are, whatever is returned |
| Admin.AdminService.Reload | seekbase/service/admin_service.py:53-71 | clearing and reloading: every table rebuilt, or rebuilt up to the first whose log is not loadable and empty after it; tables that agree with their logs come back as they were |
| Admin.AdminService.CountAll | seekbase/service/admin_service.py:56-67 | the counters are the numbers of tables, put lines and tombstone lines |
| History.InStepAgrees | seekbase/service/admin_service.py:33-71 | two tiers in step are the log and the table that the log describes |
| History.InsertKeepsStep | seekbase/service/write_service.py:115-129 | landing records keeps the tiers in step |
| History.BuryKeepsStep | seekbase/service/write_service.py:130-136 | deleting live rows keeps the tiers in step |
| History.WriteKeepsStep | seekbase/service/write_service.py:113-137 | every insert, skip-existing insert and delete keeps the tiers in step, on whatever day the clock puts it |
| History.LandKeepsStepIffKeyed | seekbase/service/write_service.py:125-129 | landing validated records keeps the tiers in step exactly when every record has a key; otherwise the lines stay in the log and no later rebuild can succeed |
| History.NullLineIsForever | seekbase/service/admin_service.py:57-64 | a put line without a key makes every rebuild of every longer log fail |
| History.RebuildIsIdentity | seekbase/service/admin_service.py:33-71 | after any crash-free history of writes and rebuilds, with any clock, rebuilding returns exactly the current table, search columns and deletion marks included |
| History.StatsCountRowsAndMarks | seekbase/service/admin_service.py:31-67 | after such a history the counters are the number of rows and of deleted rows |
| History.EventKeepsPast | seekbase/service/store_service.py:62-75 | nothing that happens after a day changes the view as of that day |
| History.PresentIsLive | seekbase/service/store_service.py:62-75 | as of today, or later, the view is the live view |
| History.HistoryIsImmutable | seekbase/service/store_service.py:424-427 | once a day has passed, its view in every later state equals what was live at its end, through any writes and rebuilds, for any start day |
| Recovery.WriteLineKeeps | seekbase/service/file_service.py:32-39 | each flushed line keeps the files ahead of the table |
| Recovery.SettleKeeps | seekbase/service/write_service.py:125-135 | committing or marking after the lines are written keeps the files ahead of the table |
| Recovery.LoadKeeps | seekbase/service/admin_service.py:57-64 | a row reloaded by a rebuild has its line, even while the worker appends |
| Recovery.FileIsAhead | seekbase/service/write_service.py:125-136 | in every reachable state of every interleaving of the write worker, rebuilds and crashes, each row has a put line with the same values in its day's partition and each mark a tombstone line |
| Recovery.RebuildLosesNothing | seekbase/service/admin_service.py:53-67 | whatever crashed before, a rebuild that succeeds keeps every row and revives none |
| Recovery.PutKeepsLoadableIff | seekbase/service/write_service.py:125-127 | one more put line keeps a log rebuildable exactly when its key is not null and no earlier line has put it |
| Recovery.CrashedInsertSurfacesInThePast | seekbase/service/admin_service.py:57-64 | a crash between line and row, and a rebuild later, make a row appear in a past that did not have it |
| CrashViews.RebuildKeepsViewIff | seekbase/service/admin_service.py:53-71 | wherever the files are ahead, a rebuild keeps the view of a day exactly when every put line of the window has reached the table or is buried by that day, and no tombstone by that day is missing on a row it shows |
| CrashViews.CrashesKeepViewIff | seekbase/service/admin_service.py:53-71 | the same for every state that the worker, rebuilds and crashes reach in any interleaving: both conditions are read off the two tiers before rebuilding |
| CrashViews.DuplicateIsForever | seekbase/service/admin_service.py:57-64 | two put lines of one key make every rebuild of every longer log fail |
| CrashViews.RepeatedInsertBreaksRebuild | seekbase/service/write_service.py:115-129 | an insert that crashes between line and row and is repeated passes validation, commits and is live, and no rebuild ever succeeds again |
| Overlap.MoveIff | seekbase/service/admin_service.py:53-67 | which steps of a rebuild and of the worker lose a row or a mark: clearing while a written line is neither read nor still to settle, a failed transaction, marking a row that is not there, giving up; and exactly those |
| Overlap.RunStaysLost | seekbase/service/admin_service.py:53-67 | a row or mark that is lost during a rebuild does not come back until the files are read again |
| Overlap.OverlapIff | seekbase/service/admin_service.py:30-71 | when a rebuild that overlaps writes is over, and no key was buried twice, the table is the one that the files describe if and only if no key was put twice, none is null, and every step was harmless when it was made |
| Overlap.AtRestNothingIsLost | seekbase/service/admin_service.py:30-71 | where such a run may begin: any state whose table is the one that its files describe |
| Overlap.OverlappedWriteDisappears | seekbase/service/admin_service.py:53-64 | a concrete run: a write that settles between the reading and the clearing of a rebuild disappears from the table, while its line stays in the files |
| StreamReader.SplitJoins | seekbase/service/stream_service.py:173-178 | the lines of a chunk, breaks included, are the chunk |
| StreamReader.LinesConcat | seekbase/service/stream_service.py:173-178 | after complete lines the rest is read as if it stood alone |
| StreamReader.LinesAreComplete | seekbase/service/stream_service.py:173-175 | the lines a reader may take are those of the chunk up to the first without a line feed |
| StreamReader.WholeIffNoLoneCr | seekbase/service/stream_service.py:173-178 | a text ending in a line feed is read to its end exactly when no carriage return stands alone |
| StreamReader.LoneCrStopsReader | seekbase/service/stream_service.py:173-178 | whatever is appended to a text with a lone carriage return, the lines a reader may take are those before the first one, and end there or earlier |
| StreamReader.TakeCountMeans | seekbase/service/stream_service.py:173-178 | a read takes complete lines until they run out or the room is used up |
| StreamReader.ReadOne | seekbase/service/stream_service.py:172-178 | the inner loop yields the non-blank lines taken and the offset behind them |
| StreamReader.ReadNewLines | seekbase/service/stream_service.py:155-181 | the loop over files yields, in order, what each contributes, skipping unreadable files, and only offsets that moved |
| Stream.AddAbsentConcat | seekbase/service/stream_service.py:190-193 | landing two batches is landing them as one |
| Stream.SinkAddsAbsent | seekbase/service/store_service.py:541-551 | the idempotent sink adds exactly the first record of each absent key, whether the rows it finds are deleted or not |
| Stream.Absorb | seekbase/service/stream_service.py:183-194 | landing a batch that may repeat lines extends, in order, one history of each file and changes nothing else |
| Stream.TextGrows | seekbase/service/stream_service.py:173-178 | appending keeps every complete line of a file |
| Stream.ReadAllMeans | seekbase/service/stream_service.py:155-181 | file by file, a read takes consecutive complete lines from the offset to a new line boundary, and leaves none behind when it had room |
| StreamMachine.AppendKeepsInv | seekbase/service/stream_service.py:155-159 | an append anywhere in the cycle disturbs neither offsets nor what has landed |
| StreamMachine.LandKeepsInv | seekbase/service/stream_service.py:139-142 | landing a batch for the first time or again keeps the delivery invariant |
| StreamMachine.CheckpointKeepsInv | seekbase/service/stream_service.py:141-142 | moving the checkpoint after the landing keeps it |
| StreamMachine.EffectivelyExactlyOnce | seekbase/service/stream_service.py:127-153 | over any interleaving of appends, reads, landings, checkpoints, deletes and crashes, inside a landing too, the table, marks aside, is the first row of each key of one history that interleaves a prefix of every file reaching at least to its checkpoint |
| StreamMachine.OneFileExactlyOnce | seekbase/service/stream_service.py:127-153 | for one file the table is the first row of each key of its first n lines, with n at or past the checkpoint |
| StreamMachine.CrashesDoNotMatter | seekbase/service/stream_service.py:127-153 | two streams that have caught up with the same file hold the same rows, whatever crashed on the way |
| StreamMachine.RowsAreForever | seekbase/service/store_service.py:541-551 | a replay never changes a row and never revives a deleted one |
| StreamMachine.ReadsMakeProgress | seekbase/service/stream_service.py:136-181 | offsets stay on line boundaries and never shrink; without appends a non-empty read strictly shrinks the unread bytes, and an empty one leaves no non-blank complete line |
| StreamFollower.JoinedLinesSplit | seekbase/service/stream_service.py:185-189 | joining a batch and splitting it again gives back its lines |
| StreamFollower.ParseRows | seekbase/service/store_service.py:102-115 | the joined batch parses to the rows of its lines in order, or fails exactly when a line does |
| StreamFollower.StreamService.Land | seekbase/service/stream_service.py:183-194 | landing inserts the parsed rows with the skip-existing mode, or stops the stream |
| StreamFollower.StreamService.Turn | seekbase/service/stream_service.py:136-142 | one turn reads, lands and only then moves the checkpoint, and is a run of the machine |
| StreamFollower.StreamService.Follow | seekbase/service/stream_service.py:136-153 | the whole loop, until the sink fails, is a run of the machine |
| StreamProgress.CatchesUp | seekbase/service/stream_service.py:136-147 | once the files stop growing, more rounds than there are unread bytes pass every complete non-blank line, unless the sink ends the stream |
| StreamProgress.StreamDelivers | seekbase/service/stream_service.py:127-153 | for one file, whatever crashed before: once it stops growing and the sink refuses nothing, the table ends up as the first row of each key of all its lines |
| StreamProgress.LoneCrStallsStream | seekbase/service/stream_service.py:173-181 | no run of the stream, with any appends and crashes, moves its checkpoint past a lone carriage return or delivers a line of that file behind it |
| StreamRebuild.PutsKeepLoadableIff | seekbase/service/write_service.py:125-127 | writing the put lines of a batch keeps a log rebuildable exactly when each record has a key that no line has put |
| StreamRebuild.LoadableIffClean | seekbase/service/stream_service.py:183-194 | over any run the log of the sink stays rebuildable exactly when no landing, finished or crashed, wrote a record without a key or with a key that had a put line |
| StreamRebuild.OnlyLandingCrashesMatter | seekbase/service/stream_service.py:139-142 | without a crash inside a landing, the log stays rebuildable exactly when every landed record has a key, whatever else crashes |
| StreamRebuild.ReplayBreaksRebuild | seekbase/service/stream_service.py:14-19 | a crash inside a landing after the first put line, and the replay of the batch that follows, make every later rebuild fail |
| WriteWorker.WriteService.Submit | seekbase/service/write_service.py:61-64 | a fresh pending future, queued last |
| WriteWorker.WriteService.Settle | seekbase/service/write_service.py:97-98 | a future is settled only while pending |
| WriteWorker.WriteService.ExecuteInsert | seekbase/service/write_service.py:115-129 | validate, embed, files first, then the table; each failure leaves what the history model says |
| WriteWorker.WriteService.ExecuteDelete | seekbase/service/write_service.py:130-136 | tombstones first, then the marks, for exactly the live matching keys |
| WriteWorker.WriteService.ExecuteOne | seekbase/service/write_service.py:113-137 | one write does to both tiers what the history model says, and names the table whose snapshot it made stale |
| WriteWorker.WriteService.RunBatch | seekbase/service/write_service.py:88-98 | a batch is its writes one at a time in queue order, a failed one failing only its own future |
| WriteWorker.WriteService.Refresh | seekbase/service/write_service.py:99-101 | each touched table's snapshot is refreshed once; a failing refresh is suppressed and disturbs no other |
| WriteWorker.WriteService.LogTasks | seekbase/service/write_service.py:102-108 | the log grows by exactly the records of the successes, in order, up to the first failing append |
| WriteWorker.WriteService.Resolve | seekbase/service/write_service.py:109-111 | every success gets its own record unless its caller cancelled |
| WriteWorker.WriteService.ProcessBatch | seekbase/service/write_service.py:80-111 | same tables, logs and outcomes as one at a time; the task log grows by exactly the records of the successes, in order; each future not given up by its caller holds exactly its own failure, the failure of an append, or its own record; every snapshot that was fresh, or whose table the batch has changed, is fresh afterwards unless its refresh failed |
| WriteWorker.WriteService.Drain | seekbase/service/write_service.py:73-79 | a batch is the queued writes up to the first sentinel, which stops the worker |
| WriteWorker.WriteService.Turn | seekbase/service/write_service.py:69-85 | one turn takes exactly the jobs before the first sentinel, executes them as a chain, gives each its exact answer and logs exactly their records, with callers cancelling, submitting and closing at every await; what it leaves queued, whether it stops, and the stop flag are as `Take` says |
| WriteWorker.WriteService.WorkerLoop | seekbase/service/write_service.py:68-85 | over its life the worker executes one chain of writes, exactly those that `Served` takes off the queue; every write has the exact answer of its turn, and the task log has grown by exactly the records of the writes that went through, in order; with ids drawn only once, every result handed out still has its record in the log at the end; stopped at the start it does nothing; with rounds left it has ended only because stop is set or a sentinel came first; a write queued at the start is settled if and only if no sentinel stands before it, and waits in the queue otherwise |
| WorkerAnswers.AnsweredTells | seekbase/service/write_service.py:102-111 | once the records of a batch are logged, every answer tells the truth, and a successful write is told of a failure only when an append failed |
| WorkerAnswers.DoneMeansWritten | seekbase/service/write_service.py:11-14 | every status that the worker has changed is the record of a write that went through: a done task means that the whole write completed |
| WorkerAnswers.AnswersTellAtTheEnd | seekbase/service/write_service.py:102-111 | a record handed out in one turn is still the status of its id after all later turns, when no id is drawn twice |
| TaskLog.LoggedStatus | seekbase/service/task_service.py:54-88 | any list of appended records settles the status of its own ids, the last one winning, and of no other |
| WorkerQueue.QueuedServedIff | seekbase/service/write_service.py:68-85 | a write queued when the loop starts is taken if and only if no sentinel stands before it; otherwise it stays queued and the loop is over |
| WorkerQueue.ArrivedServedIff | seekbase/service/write_service.py:68-85 | a write that arrives during a batch is taken by a later turn if and only if stop is not set when that batch ends; otherwise it stays queued for ever |
| WorkerQueue.EndedIsForever | seekbase/service/write_service.py:68-72 | a loop that is over takes nothing any more, whatever callers put |
| WorkerQueue.EndedIsStopped | seekbase/service/write_service.py:41-46 | since close sets stop before it puts its sentinel, a loop ends only once it is stopped |
| WorkerQueue.CloseDuringBatch | seekbase/service/write_service.py:41-46 | a concrete run: a write submitted during a batch, and close behind it, is never taken |
| EndToEnd.ChainIsHistory | seekbase/service/write_service.py:87-137 | whatever the worker executes is a crash-free history of every table |
| EndToEnd.ChainThenRebuild | seekbase/service/admin_service.py:33-71 | after any chain of writes from the empty store each table is the one its log rebuilds to |
| EndToEnd.PastIsImmutable | seekbase/service/store_service.py:62-75 | what the worker writes after a day never changes any table's view as of that day |
| EndToEnd.PastWithinChain | seekbase/service/store_service.py:62-75 | the same within one chain: its final view as of a day is what was live at the cut where that day ended |
| EndToEnd.WriteThenRebuild | seekbase/service/admin_service.py:26-71 | running the worker for any number of turns takes exactly what `Served` says off the queue; when every write has a time and no row lacks its key, a rebuild afterwards succeeds, counts exactly the lines of the files, leaves every table as those writes left it, and every full-text snapshot fresh |
| EndToEnd.HistoryStaysEmbeddable | seekbase/service/write_service.py:121-125 | a write embeds before it writes a line, so after any history, with or without keys, no line makes a rebuild fail to embed |
| EndToEnd.ChainEmbeds | seekbase/service/admin_service.py:35-50 | the same for every table after any chain of writes of the worker |
| TaskLog.ToWire | seekbase/struct/task.py:32-38 | the loop adds exactly the optional fields that are set |
| TaskLog.WireRoundTrip | seekbase/struct/task.py:32-48 | reading back a written task is the identity exactly when its id is not empty |
| TaskLog.NewIdIsSelfLocating | seekbase/service/task_service.py:35-41 | a new id finds its own partition, whatever its random part |
| TaskLog.LastLineWins | seekbase/service/task_service.py:54-88 | appending a line settles the status of its id and of no other |
| TaskLog.NewestFirstSorts | seekbase/service/task_service.py:106 | the listing order is a permutation, newest first |
| TaskLog.OlderStayBehind | seekbase/service/task_service.py:106 | older tasks scanned later come behind the newer ones without disturbing them |
| TaskService.ListAgreesWithStatus | seekbase/service/task_service.py:90-103 | a whole-log listing shows each id once, with the line that its status reports, whether lines carry it under `task` or under `ticket` |
| TaskService.StoppingEarlyIsEnough | seekbase/service/task_service.py:94-107 | stopping once there are enough ids gives the same newest tasks, in the same order, as reading the whole log, when submission times follow the partitions |
| TaskService.TwoIdsDisagree | seekbase/service/task_service.py:83-102 | a line that carried two different ids would be found by the status of both and listed under one |
| TaskService.TaskService.Append | seekbase/service/task_service.py:54-64 | one line at the end of the id's partition, and the status it causes for every id |
| TaskService.TaskService.Status | seekbase/service/task_service.py:66-88 | the scan reports the last line that names the id, or that there is none |
| TaskService.TaskService.List | seekbase/service/task_service.py:90-107 | stopping at three times the limit lists the newest tasks of the whole log |
| TaskRun.DoneMeansComplete | seekbase/service/task_service.py:134-176 | in every reachable state, a query whose last line is done has a result file of exactly the rows it returned, as many as recorded, wherever a process stopped |
| TaskRun.SettledIsForever | seekbase/service/task_service.py:134-157 | a task without a driver keeps its last line and its result; so a crash leaves a running task running for ever |
| TaskRun.DoneIsForever | seekbase/service/task_service.py:178-196 | a task that is done stays done, with the same record and result |
| TaskClock.IsoOrder | seekbase/runtime/clock.py:11-12 | later readings of the clock give later strings, although whole seconds leave the fraction out |
| TaskClock.DayOrder | seekbase/runtime/clock.py:15-16 | later readings give no earlier day |
| TaskClock.WrittenInOrder | seekbase/service/task_service.py:35-36 | under a clock that does not run back, whatever tasks are born and however many lines each logs, submission times follow the partitions |
| TaskClock.ListIsOutright | seekbase/service/task_service.py:90-107 | so the listing that stops early is that of the newest tasks of the whole log |
| TaskClock.WorkerRecordsAreBorn | seekbase/service/write_service.py:103-106 | every record of the write worker is born under the clock readings of its batch |
| TaskClock.RunKeepsBirths | seekbase/service/task_service.py:111-157 | every line that the driver of a background task logs keeps the id and the submission time that the task was born with |
| ReadPool.MoveKeepsInv | seekbase/runtime/readpool.py:43-48 | taking, finishing or failing a read keeps every cursor accounted for |
| ReadPool.CursorsAreExclusive | seekbase/runtime/readpool.py:39-50 | in every reachable state a cursor is free or held by exactly one read, and none is lost |
| ReadPool.CheckoutNeverBlocks | seekbase/runtime/readpool.py:32-50 | with as many threads as cursors a checkout never blocks, and while a read is unfinished some thread can go on |
| SearchFusion.ScoreBounds | seekbase/service/store_service.py:387-389 | the score of every fused key lies in (0, 2/61] |
| SearchFusion.ScoreMonotone | seekbase/service/store_service.py:387-389 | a row ranked no worse in both arms never scores lower |
| SearchFusion.VssDropsNothing | seekbase/service/store_service.py:363-392 | at most k rows, all visible; the join drops no fused hit; with exact arms the result is as full as the visible vectors allow |
| SearchFusion.LanceFillsUp | seekbase/service/store_service.py:394-416 | over any dataset: at most k rows, all visible, each once; and at least min(k, visible rows of the dataset) when at most 3k of its rows lie outside the window |
| SearchFusion.OneMoreIsTooMany | seekbase/service/store_service.py:404 | with one hidden row more the over-fetched arm may leave fewer than k, however many rows are visible |
| Metric.SquaredDistanceIsTwiceCosine | seekbase/service/store_service.py:90-94 | for non-zero vectors the squared distance of the normalised vectors is twice the cosine distance |
| Metric.SameRanking | seekbase/service/store_service.py:356-361 | both backends order any two rows alike |
| Metric.ZeroRanksHalfWay | seekbase/service/store_service.py:94 | a zero vector stands where a row of cosine distance one half would |
| SideIndex.SidePayload | seekbase/service/store_service.py:313-323 | one row for each record, in order: its key, its normalised vectors and its tokens by column |
| SideIndex.SideService.IndexSearchRows | seekbase/service/store_service.py:325-334 | a batch is appended to the dataset of its table; a table without searchable columns has none |
| SideIndex.SideService.RebuildSearchIndex | seekbase/service/store_service.py:336-344 | the dataset of the table alone is overwritten |
| SideIndex.RebuildMirrors | seekbase/service/admin_service.py:68-70 | a rebuild leaves a dataset with exactly one row for each row of the rebuilt table, deleted ones included, whatever the dataset was |
| SideIndex.SideMirrorsTable | seekbase/service/write_service.py:127-128 | after any crash-free history the dataset has rows of the table only, each once, and all of them if no append has failed since the last rebuild |
| SideIndex.SameVectors | seekbase/service/store_service.py:406-407 | the rows the vector arm ranges over are the table's rows with a vector in that column |
| SideIndex.SideSearchFillsUp | seekbase/service/store_service.py:394-416 | after such a history a search returns at least min(k, visible rows with a vector) rows when at most 3k rows with a vector lie outside the window |

## Left out

- PlanSemantics.FusionPreservesMeaning: stages whose bodies look at `_bridge`, or at a relation of their own statement before them, are excluded, because fusion may change their meaning; SQL comments, a nested WITH in a later segment and other SQL grammar are inside the uninterpreted meaning of a body.
- PlanSemantics.QueryMeansItsSegments: an operator of the user's own must lower to text that closes its quotes and has as many placeholders as parameters; BuiltinQueryMeansItsSegments proves this for the built-in ones.
- BuiltinOperators.LoweringIsSound: names have passed the identifier check and window days the day check, and the quoted path of the data directory closes its quotes; argument parsing of the operators and embedding the query text are parameters.
- PlanSemantics.PipelineIsSteps: a command is a function from bytes to bytes and an exit code; pipes, signals, timeouts, the sandbox and missing interpreters beyond "not found" are left out.
- History.RebuildIsIdentity: crash-free histories with a key in every row and no write during a rebuild, because the code guarantees no more; CrashViews.RebuildKeepsViewIff says what crashes do, Overlap.OverlapIff what writes during a rebuild do, and LandKeepsStepIffKeyed what a null key does.
- History.HistoryIsImmutable: without crashes, which CrashViews.RebuildKeepsViewIff covers; days after the day in question come from a clock that does not run back behind it.
- Overlap.OverlapIff: logs in which no key is buried twice; which of two tombstones of a key marks the row depends on the order in which worker and rebuild apply them.
- StreamMachine.EffectivelyExactlyOnce: middles are absent or work line by line, so a line lands as a function of itself; a middle that looks at a whole batch sees batch boundaries. A file only grows; truncation and rotation are left out. Rows with unknown columns and lines that are not JSON objects are errors of the line.
- StreamMachine.CrashesDoNotMatter: for one file; over several files the order in which lines of different files land depends on when they were read.
- StreamProgress.CatchesUp: rounds are turns of the loop over the same readable files; the waits between them are left out.
- StreamFollower.StreamService.Follow: the sink is the insert of the history model, applied at once; polling and flush waits are left out, and the last round stands for the sweep after stop, which reads at most one batch.
- WriteWorker.WriteService.ProcessBatch: an insert or delete is one step here; its crash points are Recovery's. Appending to the side dataset is SideIndex's, with the task record of a write whose append failed left out, and so is an unknown kind of operation, which no caller can submit.
- TaskService.TaskService.Append: ids are the service's own, which name a day; the partition that a foreign id without a day would get is left out.
- TaskService.ListAgreesWithStatus: lines with one id; a line with different ids under `task` and `ticket`, which the service never writes, makes the two disagree (TwoIdsDisagree).
- WriteWorker.WriteService.LogTasks: lines that background tasks append between two records of a batch are left out; they have ids of their own, so by TaskLog.LoggedStatus they disturb no status.
- TaskService.TaskService.List: says nothing when submission times do not follow the partitions; TaskClock.WrittenInOrder proves that they do under a clock that does not run back, with years from 1000 to 9999.
- TaskRun.DoneMeansComplete: a machine over the lines and files that a driver writes instead of a method, because a process may stop between any two of them; result files are kept; retention, and a cancellation that arrives while the terminal line is being appended, are left out.
- ReadPool.CursorsAreExclusive: a machine over the steps of the reads instead of a class, because reads on different threads interleave; interrupting a cursor at close is left out.
- SearchFusion.VssDropsNothing: arms are exact; an approximate index that filters after its own cut may return fewer candidates. The order of the rows after the join is not specified by the statement and not modelled.
- SideIndex.SideMirrorsTable: a process that dies between the transaction and the append counts as a failed append; versions and fragments of the dataset are left out.
- Metric.SameRanking: exact real arithmetic with the norm given; rounding is left out.
- Days are numbers: `YYYYMMDD` strings of equal length compare alike. Keys are strings, as `str()` makes them; two different values with one string are one key. Row values are null or text; bad column types, typed-value errors after the file write and a partly executed `executemany` are left out.
- A WHERE clause is a predicate on rows, or text that the engine rejects.
- File-system detail: flush and sync, globbing, directory layout, JSON text, and a torn line followed by another append, which swallows that append.
- Schema parsing, the operator registry, authorization policy, HTTP client and server, the facade and the retries of the remote embedder: thin checks and plumbing.
