# Verified model of the AI gateway's core logic

A Dafny model of the parts of this gateway whose correctness rests on arithmetic,
interleavings or several functions agreeing with each other, with proofs of what they
promise. `dafny verify dfyconfig.toml` checks all of it.

What is modelled, module by module:

- `Calendar`, `Tiling`, `Periods`: the proleptic Gregorian calendar and the budget windows
  `PeriodBounds` finds around an instant. Instants are integer nanoseconds; int64 wrap-around
  and Go's truncating `%` are written out.
- `Text`, `UserPath`, `LikePattern`: Go's string operations, canonical user paths with their
  ancestors, and the escaped LIKE pattern (section 9.7.1 of the PostgreSQL manual).
- `BudgetSpend`, `BudgetService`: charging usage to budgets and gating requests by it.
- `BudgetTable`, `BudgetStore`: the budgets table, where configured rows live beside manual ones.
- `AuditLogger`: the buffered audit logger's shutdown protocol as a transition system, one
  action for each atomic operation of each goroutine.
- `Capture`: the bounded captures of response bodies and streamed content.
- `BatchStore`, `BatchPaging`, `BatchLifecycle`: stored batches, paging through them while they
  change, and creating, refreshing and cancelling native batches with compensation.
- `BatchRewrite`: rewriting batch items inline and in line-preserving JSONL files.
- `AuthKeys`: the API key snapshot with its incrementally updated indexes.
- `JsonText`, `JsonFields`: raw JSON objects as text (section 4 of RFC 8259), and splitting off
  and merging back unknown members.
- `ModelSelectors`, `Fallback`: selector parsing and fallback chains.
- `Sorting`, `SortedKeys`: `sort.Slice` and `sort.Strings`. Wherever the comparator decides, the
  result is proved to be the only sorted permutation, so the algorithm does not matter.

Clocks, random ids, hashing, JSON encoding of items, provider answers and database failures
are parameters; the laws a result needs of them are stated with it. A string is a sequence of
Unicode characters, which Go holds as UTF-8.

Where a natural claim about the code is false, the model keeps the code, gives a concrete
input, and proves exactly when the claim holds: windows of custom periods before 1970 or longer
than a `time.Duration`; a `Close` whose wait group is reused; blank upstream batch ids; rewritten
JSONL lines with carriage returns, or with extra members such as `Custom_ID` or `Body` that Go's
decoder reads in place of the item's own; the two capture flags at the limit; resets, which are
kept in whole seconds; explicit providers with a slash; deactivated API keys while a refresh is
under way.

Results about runs take them apart action by action: `AuditLogger.Run`, `BudgetStore.Run`,
`BatchPaging.Walk` and `AuthKeys.Run` are the runs, and the lemmas named below hold of all of them.

## Model

| member | source | states |
|---|---|---|
| `Calendar.CivilOfIsValid` | internal/budget/types.go:214-249 | Year, month and day read off any instant, before or after the epoch, are a valid Gregorian date, and `time.Date` of them gives the day back |
| `Calendar.DateDayRoundTrip` | internal/budget/types.go:242-249 | Every Gregorian date, leap days included, is reported unchanged by the day it denotes |
| `Calendar.MonthLengthsKnown` | internal/budget/types.go:242-249 | January to December have 31, 28 or 29, 31, 30, 31, 30, 31, 31, 30, 31, 30 and 31 days in every year |
| `Calendar.NewYearsDay` | internal/budget/types.go:242-249 | January 1st of any year lies 365 days for each year and one for each leap year after 1970 |
| `Calendar.NewYearsEve` | internal/budget/types.go:242-249 | The day after December 31st is January 1st of the next year |
| `Calendar.AddDays` | internal/budget/types.go:196-222 | `AddDate(0, 0, n)` moves an instant by exactly n days across month and year ends |
| `Periods.DaysInMonthIsLength` | internal/budget/types.go:247-249 | Day 0 of the following month is the last day of the month, for out-of-range months too |
| `Periods.BoundsAreMarks` | internal/budget/types.go:188-240 | On every supported input `PeriodBounds` returns two neighbouring anchors of its kind, defined independently of the clock reading, that enclose the instant |
| `Periods.PeriodsTile` | internal/budget/types.go:188-212 | Windows tile time (start <= now < end, one window for all its instants, the next begins where it ends) exactly when the period is calendrical, or 0 < seconds fits a `time.Duration` and the instant is not before the epoch (one-second periods: anywhere); all int64 periods, all valid settings |
| `Periods.WindowBeforeEpoch` | internal/budget/types.go:208-210 | Counterexample: one second before 1970 a seven-second window starts after the instant, because `%` truncates |
| `Periods.WindowPastDuration` | internal/budget/types.go:210 | Counterexample: the first length beyond `time.Duration` wraps and the window ends before it starts |
| `Periods.DailyStartsAtAnchor` | internal/budget/types.go:214-220 | A daily window starts at the configured hour and minute |
| `Periods.WeeklyStartsAtAnchor` | internal/budget/types.go:222-230 | A weekly window starts on the configured weekday, hour and minute |
| `Periods.MonthlyStartsAtAnchor` | internal/budget/types.go:232-249 | A monthly window starts at the configured hour and minute of the configured day, clamped to the length of the month it starts in |
| `Periods.HourlyWindow` | internal/budget/types.go:191-193 | An hourly window (3600 s) holds its instant, starts on a full hour and lasts 3600 s |
| `Periods.DailyWindow` | internal/budget/types.go:194-196 | A daily window (86400 s) holds its instant, starts at the configured number of seconds into a day and lasts 86400 s |
| `Periods.WeeklyWindow` | internal/budget/types.go:197-199 | A weekly window (604800 s) holds its instant and starts at the configured offset from a Sunday, counted from 1970-01-04 |
| `Periods.MonthlyWindow` | internal/budget/types.go:200-204 | A monthly window (key 2592000) holds its instant and runs from the anchor of one month, day and clock time in numbers, to that of the next |
| `Periods.CustomWindow` | internal/budget/types.go:205-211 | Any other window from the epoch on holds its instant, starts at a multiple of its length and has that length |
| `AuditLogger.KeepsInv` | internal/auditlog/logger.go:52-184 | Every atomic action of every writer, closer and the flush goroutine keeps the protocol invariant (wait-group count, order of entries, one winner, sealing, flusher phases, order of store calls) |
| `AuditLogger.CloseFlushesEverything` | internal/auditlog/logger.go:92-167 | In every interleaving, when the winning `Close` returns, the `WriteBatch` arguments are together exactly the accepted entries in FIFO order, each once, nothing is left in buffer or batch, and one `Flush` and then one store `Close` follow them all |
| `AuditLogger.WrittenIsOldest` | internal/auditlog/logger.go:115-184 | At every moment what has been written, then the batch, then the buffer are the accepted entries in order |
| `AuditLogger.NothingAcceptedAfterWait` | internal/auditlog/logger.go:62-74 | Once a `Close` has passed `writes.Wait()`, no later run accepts an entry |
| `AuditLogger.EarlierWriteFirst` | internal/auditlog/logger.go:71-74 | A write accepted before another one begins precedes it in the log |
| `AuditLogger.OutcomeDecided` | internal/auditlog/logger.go:52-84 | Every decided call was decided at one moment of the run: accepted when the buffer had room, dropped when it held its capacity, refused only once the logger was closed |
| `AuditLogger.NothingDroppedInVain` | internal/auditlog/logger.go:71-83 | In every run of a new logger in which no more calls have begun than the buffer holds (1000 by default) none is dropped |
| `AuditLogger.NothingRefusedWhileOpen` | internal/auditlog/logger.go:52-69 | While no `Close` has begun no call is refused |
| `AuditLogger.BatchesOfHundred` | internal/auditlog/logger.go:115-147 | Until the shutdown signal every batch written has at most 100 entries, and exactly 100 when no tick came |
| `AuditLogger.TickWritesAll` | internal/auditlog/logger.go:115-147 | A tick and the write that follows it leave no received entry unwritten |
| `AuditLogger.CloseIsBounded` | internal/auditlog/logger.go:95-112 | After the swap only a bounded number of working actions can happen before `Close` returns or panics, however other calls interleave |
| `AuditLogger.CloseCanReturn` | internal/auditlog/logger.go:95-112 | `Close` never deadlocks: from every state in which it is under way and its `Wait` has not panicked some run makes it return |
| `AuditLogger.WaitPanicsExactly` | internal/auditlog/logger.go:58-103 | After the swap some run makes `writes.Wait()` panic, because the wait group is reused while it is being released, exactly when two `Write` calls are between their first load and their `Done` and one of them has not registered yet |
| `AuditLogger.WaitCanPanic` | internal/auditlog/logger.go:58-103 | Counterexample run of a new logger: one registered `Write` leaves, and another that had passed the first load registers before the released `Wait` wakes up |
| `AuditLogger.RecheckIsNeeded` | internal/auditlog/logger.go:66-69 | Without the second load of `closed` there is a run in which an accepted entry is never written although `Close` returns |
| `Capture.ResponseBodyCapture.Write` | internal/auditlog/middleware.go:281-299 | One write: the capture takes what still fits and every byte goes to the wrapped writer |
| `Capture.BodyIsPrefix` | internal/auditlog/middleware.go:281-299 | After any writes the capture is the first min(total, limit) bytes; every overflow sets the flag; the flag is set exactly on overflow or on a write, even an empty one, arriving at a full capture |
| `Capture.EmptyWriteSetsFlag` | internal/auditlog/middleware.go:293-295 | Counterexample: writing nothing to a full capture sets the flag |
| `Capture.StreamResponseBuilder.AppendStreamContent` | internal/auditlog/stream_observer.go:223-235 | One delta: takes what still fits and counts it |
| `Capture.ContentIsPrefix` | internal/auditlog/stream_observer.go:223-235 | After any deltas the content is the first min(total, limit) bytes; the flag is set exactly when content was lost and no delta ended right at the limit |
| `Capture.LateContentGoesUnnoticed` | internal/auditlog/stream_observer.go:224-226 | Counterexample: content after a delta that ended at the limit is lost without the flag |
| `Capture.KeepsOneMebibyte` | internal/auditlog/middleware.go:281-299 | Both captures keep up to 1048576 bytes whole and of more exactly the first 1048576 |
| `UserPath.NormalizeUserPath` | internal/core/user_path.go:12-42 | The segment loop computes the normalization specified by `Normalize`, including which error comes first |
| `UserPath.NormalizeKeepsSegments` | internal/core/user_path.go:21-41 | Normalization fails exactly on a `.`, `..` or colon segment, and otherwise keeps all non-blank segments, trimmed, in order, and nothing else |
| `UserPath.NormalizeIsNormal` | internal/core/user_path.go:12-42 | Every accepted path is canonical; only blank input has no path |
| `UserPath.NormalizeFixed` | internal/core/user_path.go:12-42 | Canonical paths are exactly the non-empty fixed points of normalization |
| `UserPath.UserPathAncestors` | internal/core/user_path.go:45-66 | The shrinking loop computes the specified ancestor list of the normalized path |
| `UserPath.AncestorsCover` | internal/core/user_path.go:54-65 | The list holds exactly the paths that are the root, the path, or a slash-bounded prefix of it |
| `UserPath.AncestorsDescend` | internal/core/user_path.go:54-65 | The list runs from the path itself through parents to the root |
| `LikePattern.EscapeIsOnePass` | internal/budget/store.go:78-83 | The three replacement passes equal escaping each character once, for all strings |
| `LikePattern.PatternMatchesBelow` | internal/budget/store.go:71-83 | LIKE with escape `\` on the pattern of b accepts t exactly when t starts with b and a slash (with a slash when b is the root), for all strings |
| `BudgetSpend.GateAgreesWithCharge` | internal/budget/service.go:255-262 | For canonical paths the gate's prefix test, membership in the ancestor list and the SQL charge condition are equivalent |
| `BudgetSpend.UnattributedChargesRoot` | internal/budget/store.go:67-69 | Usage without a path is charged to the root budget only |
| `BudgetSpend.RecordCosts` | internal/budget/store_postgresql.go:243-262 | A single record with a canonical path, blanks around it aside, adds its cost to a budget exactly when its time is in the window, its cache type is null or empty, and the budget is on the ancestor chain |
| `BudgetSpend.PathlessRecordCosts` | internal/budget/store_postgresql.go:243-262 | The same for a record with a null or blank path, which reaches the root budget only |
| `BudgetSpend.RecordingCharges` | internal/budget/store_postgresql.go:243-262 | Recording a usage raises by its cost the spend of exactly the budgets on its ancestor chain whose window holds it, and lowers what remains by the same; a cached usage is charged to none |
| `BudgetSpend.SpendSplits` | internal/budget/store_postgresql.go:249-253 | Windows that share a boundary add up, in sum and in whether there is usage |
| `BudgetSpend.ResetForgetsEarlierSpend` | internal/budget/service.go:236-253 | A reset inside the window takes exactly the earlier spend out; one before it changes nothing |
| `BudgetSpend.PeriodsAddUp` | internal/budget/types.go:188-212 | The spends of n consecutive periods add up to the spend of their union |
| `BudgetService.Service.Refresh` | internal/budget/service.go:38-61 | The cached budgets are the listed ones, by path and then longer period first |
| `BudgetService.Service.CheckWithResults` | internal/budget/service.go:198-253 | The check admits a request exactly when every gating budget can be evaluated and has something left; results are the evaluations in order up to the first exhausted or failing budget. For canonical budget paths, in money: it never fails, admits exactly when every budget on the ancestor chain has no cost charged in its window or less than its amount, and else tells spend, remainder and window of the first one that has not |
| `BudgetService.AdmitsByAncestors` | internal/budget/service.go:219-262 | Admission depends only on the budgets on the ancestor chain, not on their order |
| `BudgetService.AdmitsByMoney` | internal/budget/service.go:219-262 | Admission from costs and amounts alone: every budget on the ancestor chain has no cost charged in its window, or less than its amount |
| `BudgetService.CheckOrder` | internal/budget/service.go:38-61 | A path is checked before the paths below it, and its longer periods before its shorter ones |
| `BudgetService.OvershootIsBounded` | internal/budget/service.go:228-231 | An admitted request leaves each budget's spend below its amount plus the request's own cost, whenever after the check its usage is recorded |
| `BudgetTable.BudgetKeyInjective` | internal/budget/store.go:49-51 | The printed key tells canonical budgets apart, because canonical paths hold no colon |
| `BudgetTable.BudgetKeyReads` | internal/budget/store.go:49-51 | Path and number of seconds can be read off the key |
| `BudgetTable.NormalizeBudgetsForUpsert` | internal/budget/store.go:27-47 | One budget for each key, the last one given, or the first rejection |
| `BudgetStore.Store.UpsertRows` | internal/budget/store_postgresql.go:268-293 | Upserting distinct keys one by one equals merging them all at once |
| `BudgetStore.Store.UpsertBudgets` | internal/budget/store_postgresql.go:88-109 | Admin upsert: refused as a whole, or merged |
| `BudgetStore.RefusedForFirstFault` | internal/budget/types.go:105-120 | An upsert or replacement is refused exactly when a given budget has an invalid path, no positive period or no positive amount, for the fault of the first such budget |
| `BudgetStore.UpsertStoresGiven` | internal/budget/store_postgresql.go:88-109 | The last budget given for a normalized path and period makes a new row with its own amount, trimmed source, last reset and creation; an existing row takes amount and source over when the budget is manual or the row configured |
| `BudgetStore.UpsertTouchesGiven` | internal/budget/store_postgresql.go:88-109 | An upsert leaves every row whose key is not given as it was, and adds no other |
| `BudgetStore.Store.DeleteBudget` | internal/budget/store_postgresql.go:111-130 | Deletes the addressed row or says why not |
| `BudgetStore.Store.ReplaceConfigBudgets` | internal/budget/store_postgresql.go:132-172 | Deletes configured rows that are no longer given and upserts the given ones as configured |
| `BudgetStore.Store.ResetBudget` | internal/budget/store_postgresql.go:212-232 | Touches only the addressed row's reset and update times |
| `BudgetStore.ReplacementRows` | internal/budget/store_postgresql.go:132-172 | After a replacement: rows of other sources are untouched, given keys are configured with the last amount and keep creation and last reset, no other configured row remains |
| `BudgetStore.ConfiguredKeys` | internal/budget/store_postgresql.go:132-172 | The configured keys are exactly the given ones not held by a row of another source |
| `BudgetStore.ReplacementStoresGiven` | internal/budget/store_postgresql.go:132-172 | After a replacement the last budget given for a normalized path and period is configured with its own amount, unless a row of another source has its key |
| `BudgetStore.ReplacementRemovesRest` | internal/budget/store_postgresql.go:132-172 | After a replacement no configured row remains whose key is not given, and rows of other sources stay |
| `BudgetStore.DeletesItsRow` | internal/budget/store_postgresql.go:111-130 | A deletion removes the row of the normalized path and period and nothing else, or is refused for the path, the period or the missing row |
| `BudgetStore.ResetsItsRow` | internal/budget/store_postgresql.go:212-232 | A reset sets reset and update time of that row to whole seconds and changes nothing else, or is refused for the same reasons |
| `BudgetStore.ResetsEveryRow` | internal/budget/store_postgresql.go:234-243 | Resetting all budgets does so to every row |
| `BudgetStore.ResetForgetsWholeSeconds` | internal/budget/store_postgresql.go:212-232 | Read back from the table, a reset budget counts the spend from the start of the reset's second on, so it has forgotten all earlier spend exactly when none fell into that second |
| `BudgetStore.ResetKeepsItsSecond` | internal/budget/store_postgresql.go:212-232 | Counterexample: a cost 200 ms into a second still counts after a reset 500 ms into it |
| `BudgetStore.ManualRowSurvives` | internal/budget/store_postgresql.go:268-293 | In every run a manual row keeps amount, source and creation until deleted or manually upserted; only resets change the rest |
| `BudgetStore.RunKeepsGoodTable` | internal/budget/store_postgresql.go:88-172 | Through every run the table holds canonical keys with positive periods only |
| `BudgetStore.ReplacementIsIdempotent` | internal/budget/store_postgresql.go:132-172 | Replacing again with the same budgets changes only update times |
| `BudgetStore.DeletedConfigReturns` | internal/budget/store_postgresql.go:111-172 | A deleted configured row comes back with the next replacement that gives it |
| `BatchStore.NormalizeStoredTwice` | internal/batch/store.go:114-163 | Normalizing a stored batch again changes nothing and no gateway-private key stays in public metadata |
| `BatchStore.LegacyFieldsMove` | internal/batch/store.go:114-163 | Request id and usage time move from the public metadata into their own fields unless these are set; all else stays |
| `BatchStore.NewestFirst` | internal/batch/store_memory.go:71-76 | Batches are listed from the latest creation on, those of one moment in descending order of their ids |
| `BatchStore.FirstPageSize` | internal/batch/store.go:49-58 | A page without cursor holds 20 batches by default and at most 101, as far as there are that many |
| `BatchStore.MemoryStore.Create` | internal/batch/store_memory.go:25-42 | Stores a normalized copy under a new id, or leaves the map alone with the reason |
| `BatchStore.MemoryStore.Get` | internal/batch/store_memory.go:45-53 | Returns the stored batch or not found |
| `BatchStore.MemoryStore.Update` | internal/batch/store_memory.go:101-117 | Replaces an existing batch, or leaves the map alone with the reason |
| `BatchStore.MemoryStore.List` | internal/batch/store_memory.go:56-98 | Whatever order the map is iterated in, the page is the listing's slice after the cursor's position |
| `BatchStore.PagesAgree` | internal/batch/store_sqlite.go:79-112 | The position-based page equals the keyset page of the SQL store for every table, limit and cursor |
| `BatchPaging.List` | internal/gateway/batch_orchestrator.go:317-362 | The orchestrator's page, from one batch more than it shows |
| `BatchPaging.PageIsFirstBatches` | internal/gateway/batch_orchestrator.go:322-342 | The page shows the first batches behind the cursor, and `has_more` holds exactly when a further one exists (limit + 1 stays within the store's cap) |
| `BatchPaging.PageSize` | internal/gateway/batch_orchestrator.go:317-362 | A page shows 20 batches by default and at most 100, as far as there are that many, and names its first and last |
| `BatchPaging.CursorMissing` | internal/gateway/batch_orchestrator.go:317-336 | A page is refused exactly when the trimmed cursor is the id of no stored batch |
| `BatchPaging.WalkReturnsEverything` | internal/gateway/batch_orchestrator.go:317-362 | A walk along `last_id` while `has_more` holds returns no batch twice, newest first, and every batch present at its start exactly once in listing order, whatever creations and creation-time-preserving updates interleave |
| `BatchPaging.NextPageIsFound` | internal/gateway/batch_orchestrator.go:317-362 | A walk never loses its cursor: after any creations and creation-time-preserving updates the page that `has_more` announced can be fetched |
| `BatchLifecycle.PreparationMetadata.RecordInputFileRewrite` | internal/core/batch_preparation.go:24-37 | Records a rewrite that counts |
| `BatchLifecycle.FirstAndLastRewrite` | internal/core/batch_preparation.go:22-37 | Through a chain of rewrite stages the first user file and the last derived file are remembered |
| `BatchLifecycle.Orchestrator.Create` | internal/gateway/batch_orchestrator.go:99-215 | All or nothing over every provider and store answer: a batch is created exactly when nothing fails and each failure has its own error; an error leaves the store unchanged and issues exactly the rollback; success stores one new mapping to the upstream id and issues no cancel or delete; what is stored has, field by field, the preparation's original and rewritten file ids, merged hints, request id, user path, workflow version and usage flag |
| `BatchLifecycle.Orchestrator.RollbackPreparedBatch` | internal/gateway/batch_orchestrator.go:246-281 | Issues the deletion of the derived file, then hint clearing and cancellation for a non-blank upstream id |
| `BatchLifecycle.OrphanIsCancelled` | internal/gateway/batch_orchestrator.go:264-281 | A batch whose persistence failed is cancelled exactly when its upstream id is not blank, and under its own id exactly when that has no outer whitespace |
| `BatchLifecycle.RollbackInOrder` | internal/gateway/batch_orchestrator.go:246-281 | A rollback deletes the derived file, clears the hints and cancels the batch, in this order |
| `BatchLifecycle.BlankIdIsOrphaned` | internal/gateway/batch_orchestrator.go:162-169 | Counterexample: the upstream id `" "` passes the missing-id check and is never cancelled |
| `BatchLifecycle.PublicBatchMapping` | internal/gateway/batch_orchestrator.go:171-191 | The public batch maps to the upstream id, names the user's own input file and carries no private metadata |
| `BatchLifecycle.PublicBatchFields` | internal/gateway/batch_orchestrator.go:171-191 | The other fields of the public batch are the upstream's; a missing endpoint is the requested operation's, a missing window the requested one or 24h, a missing upstream id its plain id |
| `BatchLifecycle.MergeKeepsIdentity` | internal/gateway/batch_helpers.go:49-101 | A refresh never changes id, creation time, provider or provider batch id, nor the gateway's metadata keys |
| `BatchLifecycle.MergeIsIdempotent` | internal/gateway/batch_helpers.go:49-101 | Merging the same answer again changes nothing |
| `BatchLifecycle.EmptyAnswerChangesNothing` | internal/gateway/batch_helpers.go:49-101 | An answer that says nothing leaves the stored batch as it is exactly when the batch names its input file or has none to be given |
| `BatchLifecycle.LastAnswerStays` | internal/gateway/batch_helpers.go:49-101 | Through any number of refreshes status, endpoint, window, the five times, counts, usage and results are those of the last answer that gave any; later silence never takes them back |
| `BatchLifecycle.InputFileStays` | internal/gateway/batch_helpers.go:49-58 | Through any number of refreshes a known input file id stays; a missing one becomes that of the user's original file, else the first one an answer gives |
| `BatchLifecycle.LastMetadataStays` | internal/gateway/batch_helpers.go:84-101 | Through any number of refreshes a public metadata key has the value of the last answer that named it, the gateway's own keys the stored ones, and private keys never show |
| `BatchLifecycle.TerminalStatuses` | internal/gateway/batch_helpers.go:116-123 | A status is terminal exactly when it is completed, failed, cancelled, canceled or expired, in any letter case and with white space around |
| `BatchLifecycle.Orchestrator.Get` | internal/gateway/batch_orchestrator.go:284-314 | Fails exactly for an unknown batch, a failed call or a failed update; else returns and persists the merged batch, changes no other batch and no creation time; the derived file's deletion is issued exactly at a terminal status |
| `BatchLifecycle.Orchestrator.Cancel` | internal/gateway/batch_orchestrator.go:365-395 | The same for cancellation, which also fails when the provider cannot be asked and always persists |
| `BatchLifecycle.FileIsNotForgotten` | internal/gateway/batch_orchestrator.go:284-395 | Over every run of refreshes and cancellations of a table the record of a batch's derived input file stays, or goes after a deletion of that file was asked for |
| `BatchLifecycle.OnlyOwnFilesDeleted` | internal/gateway/batch_orchestrator.go:284-395 | Over every such run no batch disappears and nothing but derived input files on record is deleted |
| `BatchLifecycle.OnlyDerivedFileDeleted` | internal/gateway/batch_orchestrator.go:193-395 | From a batch's creation on, every run of refreshes and cancellations deletes for it nothing but the file the preparation derived, and only when its status is terminal |
| `BatchLifecycle.AnswerIsStored` | internal/gateway/batch_orchestrator.go:284-395 | A refresh or cancellation that is answered stores the merged batch without private metadata, the derived file off record exactly when it was deleted, and leaves all other batches |
| `BatchLifecycle.NotRouted` | internal/gateway/batch_orchestrator.go:290-293 | A batch without provider or upstream id is never asked about, changed or cleaned up |
| `BatchRewrite.RewriteBatchJsonlContent` | internal/core/batch_preparation.go:187-268 | The line loop computes the specified content, hints and flag, or reports the first line that fails |
| `BatchRewrite.LineForms` | internal/core/batch_preparation.go:207-216 | A line is read without its newline, carriage return or both |
| `BatchRewrite.LineOutcome` | internal/core/batch_preparation.go:217-261 | For each answer of decoding, routing, rewriting, comparing and encoding: the line is refused for that reason, stays, or becomes the encoded item with the new body |
| `BatchRewrite.FileOutcome` | internal/core/batch_preparation.go:187-268 | A file is refused for its first failing line, named by its number from 1; otherwise the lines keep their places and the flag tells whether one was rewritten |
| `BatchRewrite.LastLineHints` | internal/core/batch_preparation.go:283-292 | The hint of an id is the endpoint of the last line that asks for it, whatever other lines there are |
| `BatchRewrite.OnlyAskedHints` | internal/core/batch_preparation.go:283-292 | Every hint comes from a line with that id and an endpoint |
| `BatchRewrite.UnchangedIsIdentical` | internal/core/batch_preparation.go:207-267 | Without a change the content comes back character for character |
| `BatchRewrite.LinesAligned` | internal/core/batch_preparation.go:198-267 | Line i of the output comes from line i of the input, for every encoder that writes one line |
| `BatchRewrite.LineMeaning` | internal/core/batch_preparation.go:217-261 | A line stays as it was unless its item gets another body; then it decodes to the same item with only the body replaced, raw values compacted as the encoder does, exactly when no extra member is read in place of id, method, URL or body with another value |
| `BatchRewrite.CarriageReturnDropped` | internal/core/batch_preparation.go:207-260 | A line keeps its terminator exactly when it is not rewritten or no carriage return precedes its newline or its end |
| `BatchRewrite.CarriageReturnExamples` | internal/core/batch_preparation.go:207-260 | Counterexample: a batch line with CRLF and the same line at the end with a lone carriage return lose it when they are rewritten |
| `BatchRewrite.SecondPassExactly` | internal/core/batch_preparation.go:187-268 | A second pass over the output succeeds and changes nothing exactly when what each rewritten line reads back as is an item that the rewrite leaves alone |
| `BatchRewrite.SecondPassChangesNothing` | internal/core/batch_preparation.go:187-268 | So with a rewrite that is idempotent up to the encoder's compaction, on files without such extra members, a second pass changes nothing and records the same hints |
| `BatchRewrite.AliasedIdReplacesIt` | internal/core/batch_json.go:55-98 | Counterexample: a line with `Custom_ID` b before `custom_id` a has id a, and id b once it is rewritten, for its hint too |
| `BatchRewrite.ShadowedBodyNeverSettles` | internal/core/batch_json.go:55-98 | Counterexample: a line whose body is called `Body` reads with its old body after the rewrite, and every pass writes the same line again and counts it as changed |
| `BatchRewrite.ExamplesHappen` | internal/core/batch_preparation.go:217-261 | The laws and the answers these counterexamples suppose can be met together, for every line, item and extra members read in this way |
| `BatchRewrite.RewriteInlineBatchItems` | internal/core/batch_preparation.go:108-132 | Exactly the handled items get their rewritten body in place; on failure items from the failing one on are untouched |
| `BatchRewrite.ItemOutcome` | internal/core/batch_preparation.go:108-132 | For each answer of routing and rewriting: the item fails, stays, or has its body replaced and nothing else |
| `BatchRewrite.LastItemHints` | internal/core/batch_preparation.go:283-292 | The hint of an id is the endpoint of the last inline item that asks for it |
| `BatchRewrite.OnlyAskedItemHints` | internal/core/batch_preparation.go:283-292 | Every hint comes from an inline item with that id and an endpoint |
| `AuthKeys.Service.Refresh` | internal/authkeys/service.go:59-102 | Loads a consistent snapshot of the listed keys, or leaves the snapshot alone when a row has no id |
| `AuthKeys.LoadsEveryRow` | internal/authkeys/service.go:73-84 | Every listed row is loaded under its trimmed id, otherwise as it is, and nothing else is |
| `AuthKeys.KeysInOrder` | internal/authkeys/service.go:86-96 | Keys are listed from the latest creation on, then by name, then by id |
| `AuthKeys.Service.ApplyUpsert` | internal/authkeys/service.go:349-373 | The incremental update is the specified one and keeps the snapshot consistent |
| `AuthKeys.PutsOneIn` | internal/authkeys/service.go:349-373 | An update changes the one key only, and a secret it replaces is no longer accepted |
| `AuthKeys.Service.ApplyDeactivate` | internal/authkeys/service.go:375-398 | The incremental deactivation is the specified one and keeps the snapshot consistent |
| `AuthKeys.SwitchesOneOff` | internal/authkeys/service.go:375-398 | A deactivation changes one key only, in its flag, its deactivation time unless it has one, and its update time |
| `AuthKeys.Service.Authenticate` | internal/authkeys/service.go:267-291 | The answer is that of the one key with the token's hash, evaluated now, however old the indexes |
| `AuthKeys.AnswerFromKey` | internal/authkeys/service.go:327-341 | A token is told inactive, else expired, else is accepted with its own key's id and trimmed user path |
| `AuthKeys.TokensRead` | internal/authkeys/service.go:443-455 | A secret is read off exactly the tokens that are, trimmed, `sk_gom_` and the secret |
| `AuthKeys.ActiveIsAccepted` | internal/authkeys/service.go:73-84 | The active index of a snapshot just built holds exactly the hashes whose keys are accepted |
| `AuthKeys.IndexesDetermined` | internal/authkeys/service.go:86-96 | Consistent snapshots of the same keys have the same order and secret index |
| `AuthKeys.NewServiceIsGood` | internal/authkeys/service.go:43-56 | A new service over any store content satisfies the invariant every run starts from |
| `AuthKeys.RunMatchesRebuild` | internal/authkeys/service.go:349-431 | At every point of every run, refreshes and changes interleaved in any way, the order and secret index equal a rebuild's, and the active index differs only by expired keys |
| `AuthKeys.TokenAfterDeactivation` | internal/authkeys/service.go:59-102 | In every run after a deactivation, with any number of refreshes listing and swapping in between, the token is accepted exactly when it has not expired and what was last installed for the key was read before the deactivation |
| `AuthKeys.DeactivationHolds` | internal/authkeys/service.go:247-263 | After `Deactivate` has returned the token is refused as long as nothing read before it is installed |
| `AuthKeys.DeactivationIsFinal` | internal/authkeys/service.go:247-263 | No continuation lets the unexpired token in again exactly when neither the snapshot nor a refresh or creation under way has the key alive |
| `AuthKeys.StaleRefreshRevives` | internal/authkeys/service.go:60-100 | Counterexample run of a new service: a refresh lists the key, the key is deactivated and that refresh runs to its end, then the first one swaps and the token succeeds again |
| `JsonText.ParseSpaced` | internal/core/json_fields.go:138-150 | Scanning an object finds its members in order, duplicates included, whatever whitespace it is written with |
| `JsonText.JsonIsValue` | internal/core/json_fields.go:130-148 | The text of every JSON value, with the literals, numbers and strings of RFC 8259, nested and spaced in any way, is delimited correctly by the scanner |
| `JsonFields.ExtractUnknownJsonFields` | internal/core/json_fields.go:121-157 | Trims, refuses what is not a valid object, and else the loop extracts exactly the members with unknown names, in order |
| `JsonFields.MergePrints` | internal/core/json_fields.go:179-209 | Merging two printed objects prints the concatenated member list |
| `JsonFields.MergeOutcome` | internal/core/json_fields.go:179-209 | A merge fails exactly when there are extra members and a body is not in brackets or the result is too long; else it is one of the bodies or both joined by a comma |
| `JsonFields.ExtractAfterMerge` | internal/core/json_fields.go:121-209 | Extracting from the merge gives the extra members back, in order and with duplicates |
| `JsonFields.RoundTripKeepsMembers` | internal/core/json_fields.go:121-209 | However a valid body is spaced, empty ones included, writing its known members and merging the extracted rest keeps the multiset of members; invalid JSON is refused |
| `JsonFields.ReencodedKeepsUnknown` | internal/core/json_fields.go:121-209 | However the known fields are encoded again, merging in what was extracted from a valid body appends its unknown members in order, and extracting from that gives the same again |
| `JsonFields.UnknownJsonFieldsFromMap` | internal/core/json_fields.go:38-73 | The map's object with its keys in ascending order |
| `JsonFields.Lookup` | internal/core/json_fields.go:78-113 | The value of the first member with the name, read no further than that member |
| `JsonFields.LookupFindsFirst` | internal/core/json_fields.go:78-113 | In an object a lookup gives the first of its members with the name, or nothing |
| `JsonFields.LookupReadsPrefix` | internal/core/json_fields.go:92-110 | A lookup stops at the member it looks for, whatever text follows |
| `JsonFields.LookupOfMap` | internal/core/json_fields.go:38-113 | Lookup on the object of a map of JSON values gives the map's value, exactly when it has no outer whitespace and else without it, `null` for an empty one, nothing for other keys |
| `Fallback.MatchKeys` | internal/fallback/resolver.go:299-334 | The trimmed non-blank keys, each at its first occurrence |
| `Fallback.SourceIsFirstKnown` | internal/fallback/resolver.go:99-120 | The source is the registry's model for the first name it knows of resolved qualified, resolved, requested qualified and requested |
| `Fallback.ModeOfFirstName` | internal/fallback/resolver.go:122-132 | The mode is the one set for the first of the seven forms of the request's name that has one, else the default |
| `Fallback.ManualOfFirstName` | internal/fallback/resolver.go:134-160 | The manual list is that of the first of the seven forms that has one |
| `Fallback.ManualSelectorsFor` | internal/fallback/resolver.go:134-160 | The first match key with a manual list decides; its models in configured order without source and repeats |
| `Fallback.ManualFromList` | internal/fallback/resolver.go:274-290 | A manual chain holds the registry's models for the configured ones, all but the source, in configured order |
| `Fallback.BetterOrders` | internal/fallback/resolver.go:234-259 | The comparator is a strict order, total on candidates with distinct keys |
| `Fallback.AutoSelectorsFor` | internal/fallback/resolver.go:162-272 | Filter, score, sort and cut compute the specified chain |
| `Fallback.AutoIsBest` | internal/fallback/resolver.go:234-271 | The choice is the at most five least candidates in order; every candidate left out is worse than every one chosen |
| `Fallback.AutoNearestFirst` | internal/fallback/resolver.go:191-272 | In terms of the registry: rows with the source's model come first, then its family, then the smaller Elo difference, then the smaller rank difference, then more shared capabilities; a row left out is no nearer than any chosen one |
| `Fallback.AutoIgnoresListingOrder` | internal/fallback/resolver.go:191-271 | The choice does not depend on the order of the registry's listing |
| `Fallback.PreferredRanking` | internal/fallback/resolver.go:362-383 | The first usable preferred ranking, else the usable one with the least name |
| `Fallback.ArenaFirst` | internal/fallback/resolver.go:362-394 | The first usable of the chatbot arena's overall, coding, math, creative writing and vision rankings is taken, and none only when no ranking is usable |
| `Fallback.Resolver.ResolveFallbacks` | internal/fallback/resolver.go:72-97 | The chain is the manual list followed, in mode auto, by the at most five best automatic selectors for the source's preferred ranking, and by nothing in other modes; it holds neither the source nor a duplicate |
| `Fallback.ResolvedNearestFirst` | internal/fallback/resolver.go:72-272 | The automatic part of a chain is the nearest usable rows of the registry for the source's preferred ranking, text-generation models only for chat and responses |
| `Fallback.NeverTheSource` | internal/fallback/resolver.go:292-297 | No selector of a chain is the source's own model and provider |
| `Fallback.ChainIgnoresListingOrder` | internal/fallback/resolver.go:72-97 | The whole chain does not depend on the order of the registry's listing |
| `ModelSelectors.ParsePrintParse` | internal/core/model_selector.go:16-71 | Printing a parsed selector and parsing it again gives it back exactly when its provider holds no slash |
| `ModelSelectors.SlashedProviderIsLost` | internal/core/model_selector.go:33-58 | Counterexample: explicit provider `a/b` |
| `ModelSelectors.ReparseIsIdempotent` | internal/core/model_selector.go:33-58 | Re-parsing a parsed pair changes it exactly when its model still starts with its own provider as prefix |
| `ModelSelectors.StripsOnePrefix` | internal/core/model_selector.go:41-44 | One redundant provider prefix is stripped, whatever stands behind it |
| `ModelSelectors.OnePrefixAtATime` | internal/core/model_selector.go:41-44 | Counterexample: `p/p/m` loses only one of its two prefixes |

## Left out

- SQL, MongoDB, Redis and driver code, schema migrations and transactions that fail midway: tables are maps and a failed transaction is a step that changes nothing.
- Rounding of money: amounts and costs are real numbers, so NaN and infinite amounts do not occur.
- The SQLite and MongoDB forms of budget matching and upserts: they differ from the PostgreSQL form (case-insensitive LIKE, whole-second windows, rows without a source).
- Range limits of `time.Time` itself: instants are unbounded integers.
- Database failures in `SumUsageCost`: only its path error is modelled.
- AuditLogger: nil entries, log messages, timeouts and store errors are not modelled. `Done` and the release of a parked `Wait` are one action; that other goroutines stop when a `Wait` panics is left out. The logger is a transition system on values rather than a class, because its fields change under concurrent calls.
- BatchStore.MemoryStore.List: the JSON round trip of a clone is the identity on the modelled fields, and its errors do not occur; locks are left out.
- BatchStore.PagesAgree: the SQLite store keeps created_at in its own column, which updates do not rewrite; the agreement is for tables in which it equals the payload's, as all updates of the orchestrator keep it.
- BatchLifecycle.Orchestrator.Create: routing, policy and budget checks before preparation are one outcome, and the aliasing of the upstream metadata map by the public batch is not modelled.
- BatchLifecycle.Orchestrator.Get: its load, its call and its update are one step, like those of Cancel; of two concurrent refreshes the one that stores last may take an answer of the other back.
- The orchestrator's `Results` and its usage billing: long, and dominated by field copying.
- BatchRewrite.RewriteBatchJsonlContent: invalid UTF-8 is not modelled; known operations, JSON coding with its compaction, semantic comparison and the rewrite callback are parameters. The surrounding `RewriteBatchSource` with its file transfer is not part of this model.
- AuthKeys.Service.Refresh: takes a listing whose trimmed ids and hashes are distinct, as the store's constraints give it; times are at the precision the store keeps, and importing raw records, which may re-enable a key, is not a step of the runs.
- JsonFields.ExtractUnknownJsonFields: JSON validity checking, key unescaping and quoting are parameters.
- JsonFields.RoundTripKeepsMembers: the known members are written back raw; re-encoding them field by field is covered as an arbitrary list of known members in ReencodedKeepsUnknown.
- JsonFields.Lookup: a value is delimited by brackets and quotes; a malformed one, for which Go's decoder returns nothing, is not told apart.
- Fallback.Resolver.ResolveFallbacks: that no duplicate occurs assumes the registry lists each model once under its qualified name, and Elo scores are finite.
- BudgetService.OvershootIsBounded: concerns one request between two evaluations of a window; concurrent admissions can add up.
- HTTP handlers, middleware plumbing, configuration, provider implementations, routing, guardrails and the admin dashboard.
