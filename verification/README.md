# Verified model of the SEO platform's run, credential and transfer protocols

A Dafny 4.11 model of the parts of the platform where many processes, failures
and clocks meet: sync runs and their lease sweep, credential rotation, the two
secret stores, resumable and paged transfers, OAuth states, schema migrations,
and the timestamp and date arithmetic under all of them.

`dafny verify dfyconfig.toml` checks the whole project.

## Results

* **Sync runs.** For any number of replicas sharing a database, with crashes,
  truncated timestamps and clock readings that may be older than the statement
  they end up in: at most one worker per (site, provider, capability) is ever
  inside `provider.Sync` *if and only if* every lease is at least every timeout
  (`RunSafety.OneWorkerPerFlight`), and a sweep touches only rows whose worker
  has ended *if and only if* every lease is at least every timeout plus the 30
  seconds of `finish` (`RunSafety.SweepReachesOnlyDeadWorkers`). The converses
  are proved by concrete histories. Statuses only move forward, a crashed run is
  recovered by the first sweep past its lease, finished runs are final under the
  same 30-second condition and no weaker one, and a request with a known
  idempotency key, whenever it is made, is answered with that key's run *if and
  only if* its key lookup did not fail or that run is the active one of the flight
  (`RunAnswers.KeyAnswerDecided`).
* **Credential rotation.** In every interleaving whose unconditional writes find
  the ref they read (or clear an empty row), a connection's ref opens, and when
  nothing is in flight a scope has exactly its one referenced live secret. The
  last such write keeps that promise *if and only if* it is undisturbed in this
  sense (`RotationSafety.LastWriteDecides`); two histories show what a disturbed
  one does. In every history without any such restriction, a rotation keeps the
  chosen property *if and only if* the property last chosen since it began is the
  one it read (`RotationProperty.RotationKeepsPropertyIff`), and a ref that left
  its row returns *if and only if* a setProperty that had read it writes
  (`RotationProperty.ReturnsIffWrittenBack`); two more histories show a lost
  property and a swap fooled by a returned ref.
* **Secret stores.** The encrypted store answers every sequence of calls like the
  memory store, and closing a handle, which zeroes an array, changes nothing else.
  A payload is bound to its scope *if and only if* the scope is free of separators.
* **Transfers.** A fresh chain of URL inspection runs over n URLs takes exactly
  ceil(n / batch) runs; keyset paging stays complete while batches land; Search
  Console and GA4 paging return exactly what the service holds.
* **OAuth states.** Accepted at most once, only for their owner, only before
  expiry. An attempt succeeds *if and only if* owner and second are right and no
  clean-up that read a clock past the expiry ran before it.
* **Migrations.** However opens by servers of different releases interleave and
  fail, the schema is the fold of a prefix of the list, and exactly that prefix
  is recorded.
* **Time.** RFC 3339 text sorts like the instants it denotes, for all of years
  0000 to 9999; the length check on date ranges, done with a saturating duration,
  is exact *if and only if* the limit is enforceable (`Ranges.LengthCheckIsExact`).

## Reading guide

| file | holds |
|---|---|
| `Text.dfy`, `Calendar.dfy`, `Timestamps.dfy` | string order, numerals, the calendar, stored timestamps |
| `Ranges.dfy` | `resolveRange` |
| `RunTable.dfy` | the `sync_runs` table, its unique indexes and statements |
| `RunProtocol.dfy`, `RunSafety.dfy`, `RunHistory.dfy`, `RunAnswers.dfy` | the timed run protocol, exclusion, lives of runs, answers to requests |
| `Outcomes.dfy`, `Engine.dfy` | classification of results; `Create`, `execute` and `finish` as they execute, tied to the protocol |
| `Rotation.dfy`, `RotationSafety.dfy`, `RotationProperty.dfy`, `RotationWitness.dfy`, `Handlers.dfy` | the rotation protocol, its invariant, what happens to the property, failing histories, the handlers |
| `SecretStores.dfy`, `SecretHandles.dfy` | the two stores as values and the memory store on a heap |
| `Reports.dfy` | report batches and keyset paging |
| `Inspection.dfy`, `Resume.dfy`, `InspectionRuns.dfy` | one inspection run, chains of them, and how engine and stores perform one |
| `Paging.dfy` | Search Console details and GA4 reports |
| `OAuthStates.dfy`, `Migrations.dfy` | pending authorisations, schema migrations |

Where code and documentation differ, the code is followed: `RequeueStaleRuns`
marks rows FAILED and requeues nothing (internal/store/store.go:371-379);
`setProperty` and `revokeConnection` write the row without comparing the ref
(internal/httpapi/connections.go:218 and 285); a rotation writes back the
property it read before validating (internal/httpapi/connections.go:96-97).

## Model

| member | source | states |
|---|---|---|
| Text.LessIsStrictTotalOrder | internal/store/store.go:376-379 | the BINARY order of the database's string comparisons is a strict total order |
| Text.LessByFields | internal/store/store.go:23 | strings made of fields of equal width are compared field by field |
| Text.PadOrder | internal/store/store.go:23 | fixed-width numerals sort, and coincide, as their numbers do |
| Text.CursorRoundTrip | providers/searchconsole/searchconsole.go:318-324 | a checkpoint written with Itoa is read back by Atoi as the same offset |
| Text.AtoiReads | providers/searchconsole/searchconsole.go:320 | an optional sign and digits read as the signed number, if it has 64 bits |
| Text.AsciiSpaces | internal/sync/engine.go:150-156 | which ASCII characters count as blank |
| Calendar.LeapDaysCounted | internal/sync/engine.go:147-148 | the days before a year, counted year by year, follow the Gregorian leap rule in closed form |
| Calendar.MonthsInClosedForm | internal/sync/engine.go:149-161 | the days before a month, without a table: five months from March in 153 days |
| Calendar.MonthLengths | internal/sync/engine.go:149-161 | thirty days have April, June, September and November, February 28 or 29, the others 31 |
| Calendar.DaysFollowEachOther | internal/sync/engine.go:148-155 | the date of each day number is the civil day after the one before |
| Calendar.DateRoundTrip | internal/sync/engine.go:151 | a valid date is recovered from its day number |
| Calendar.DateOrder | internal/sync/engine.go:163-168 | dates are ordered, and equal, as their day numbers |
| Timestamps.StorableYears | internal/store/store.go:23 | the storable days are exactly those of the years 0000 to 9999 |
| Timestamps.StampOrder | internal/store/store.go:374-380 | for all storable instants, string order and equality of the stored text are order and equality of the seconds |
| Timestamps.FormatSortsSeconds | internal/store/store.go:23 | the stored layout satisfies what the run and OAuth protocols assume of it |
| Timestamps.EarlierStampIsEarlier | internal/store/oauth.go:38-42 | an earlier text means an earlier instant, and an instant a second earlier has an earlier text |
| Timestamps.DateTextRoundTrip | internal/sync/engine.go:151 | every date of the years 0000 to 9999 parses back from its text |
| Timestamps.ParsedDateIsItsText | internal/sync/engine.go:151-160 | only the canonical text of a storable date parses |
| Timestamps.StampSpellsInstant | internal/store/store.go:23 | a stored timestamp spells the date, hour, minute and second that count exactly its instant's whole seconds |
| Timestamps.EpochParses | internal/sync/engine.go:151 | 1970-01-01 reads as day 719528 |
| Ranges.CountSaturates | internal/sync/engine.go:173 | the counted days are exact up to 106751 days and constant beyond |
| Ranges.AcceptedRanges | internal/sync/engine.go:144-177 | exactly which requests are accepted and with which range: the dates given or the defaults, limit 366 unless set, saturation included |
| Ranges.CheckDecides | internal/sync/engine.go:163-176 | which error a range gets: order first, then the future, then the length |
| Ranges.UnreadableDates | internal/sync/engine.go:149-162 | a given text that is no date is refused, the end before the start |
| Ranges.TodayIsTheDateShown | internal/sync/engine.go:145-147 | today is the date part of the clock's timestamp |
| Ranges.LengthCheckIsExact | internal/sync/engine.go:169-176 | acceptance means the exact inclusive day count fits, for all requests, iff the limit fits a duration or nothing can exceed it |
| Ranges.TooLongSlipsThrough | internal/sync/engine.go:173 | otherwise some request is accepted that is too long |
| Ranges.DefaultRange | internal/sync/engine.go:148-161 | a request without dates is accepted iff the look-back fits the limit (or the limit is past 106751 days); it ends at the freshness lag, at least one day back, and spans the look-back |
| RunTable.InsertKeepsIndexes | migrations/sqlite/0003_security_and_report_scope.sql:27-29 | both unique indexes admit a new active row iff no row has its (site, key) or is active in its flight |
| RunTable.MarkKeepsIndexes | migrations/sqlite/0001_init.sql:53-56 | marking RUNNING keeps single flight iff no other row of the flight is active |
| RunTable.RowChangesKeepIndexes | internal/store/store.go:362-385 | updates that activate no row keep both indexes |
| RunTable.Store.CreateSyncRun | internal/store/store.go:245-281 | inserts iff no row of the site has the key and no QUEUED or RUNNING row has the flight; otherwise changes nothing and returns a run of the same site: the key's run if that lookup works, or else an active run of the flight, or else an error |
| RunTable.Store.MarkRunRunning | internal/store/store.go:353-359 | refused exactly on a single-flight violation, otherwise RUNNING with a new start |
| RunTable.Store.FinishRun | internal/store/store.go:362-369 | the row takes the outcome; indexes are kept |
| RunTable.Store.RequeueStaleRuns | internal/store/store.go:374-385 | fails exactly the RUNNING rows started before the cutoff, counts them, and changes no other row |
| RunTable.Store.ResumeCursor | internal/store/store.go:505-521 | returns the cursor of a latest-started run of the flight if it is PARTIAL, otherwise nothing |
| RunTable.Store.SetRunCursor | internal/store/store.go:497-501 | changes the cursor of that row only |
| RunTable.LatestAmong | internal/store/store.go:508-511 | a flight with rows has a latest-started one, so every new run has a checkpoint to resume from |
| RunProtocol.OldReadingsAreAllowed | internal/store/store.go:245-248 | the model lets every statement carry a clock reading taken before it runs |
| RunProtocol.StepKeepsInv | internal/sync/engine.go:179-230 | every step of every replica keeps both indexes and each worker's agreement with its row, deadline and lease state |
| RunProtocol.HeldRowIsFresh | internal/store/store.go:374-380 | under a covering lease, no sweep's cutoff passes the start of a row a worker still holds |
| RunProtocol.PathKeepsHeld | internal/sync/engine.go:179-243 | over whole histories, rows held by live workers stay RUNNING |
| RunSafety.OneWorkerPerFlight | internal/sync/engine.go:179-224 | at most one worker per flight inside provider.Sync in every history iff every lease is at least every timeout |
| RunSafety.SweepReachesOnlyDeadWorkers | internal/store/store.go:371-385 | sweeps leave the rows of live workers alone in every history iff every lease is at least every timeout plus 30 seconds |
| RunSafety.Overlap | internal/sync/engine.go:300-305 | a history with two workers of one flight inside provider.Sync, for any lease shorter than a timeout |
| RunSafety.SweptWhileFinishing | internal/sync/engine.go:226-241 | a history in which a sweep fails the row of a worker that is still finishing |
| RunHistory.RunLife | internal/store/store.go:353-385 | status only moves forward; FinishRun lands at most once and only from the run's worker; a finished run changes only after a lease expiry and never becomes active |
| RunHistory.FinishedIsFinal | internal/sync/engine.go:226-243 | under a lease covering finish, a finished run never changes |
| RunHistory.FinalIffCovered | internal/sync/engine.go:226-243 | finished runs never change in any history iff every lease is at least every timeout plus 30 seconds |
| RunHistory.MarkingIsSafe | internal/store/store.go:353-359 | in every reachable state the unguarded update promotes a QUEUED row and violates no index |
| RunHistory.CrashedRunIsRecovered | internal/store/store.go:371-385 | a run marked and never finished is failed by any sweep that reads one second past its start plus the lease, and its flight then admits every run with an unused key |
| RunAnswers.KeyIsAnsweredForever | internal/store/store.go:258-281 | once a run has a (site, key), every request with that key, pending or made later, can only be answered with that run unless its own key lookup fails |
| RunAnswers.KeyAnswerDecided | internal/store/store.go:273-281 | a request with a known key is answered with that key's run iff its key lookup did not fail or that run was the active one of the flight when looked up |
| RunAnswers.FailedLookupMisanswers | internal/store/store.go:274-281 | a history in which a failed key lookup answers a known key with another run |
| RunAnswers.AnswersAreJustified | internal/sync/engine.go:132-141 | in every history each answer was true of an earlier state of it: nothing conflicted with the inserted run, the existing run bore the key or was active in the flight, or none was active |
| RunAnswers.InsertDecided | migrations/sqlite/0003_security_and_report_scope.sql:27-29 | an attempt inserts iff no run of its own site has the key and no active run has its flight; other sites' keys never stop it |
| RunAnswers.AnswersStayInTheirSite | internal/store/store.go:273-281 | in every history a request is answered with a run of its own site that has its key or its flight |
| RunHistory.OneRunPerKey | migrations/sqlite/0003_security_and_report_scope.sql:27-29 | no reachable table holds two runs of one (site, key) |
| RunHistory.DefaultsCover | internal/sync/engine.go:33-47 | replicas with the default lease satisfy the covering condition iff their timeout is at most 29.5 minutes |
| Engine.Engine.Create | internal/sync/engine.go:85-142 | exactly which requests are refused and with which code; a new run resumes from the flight's checkpoint and gets a worker; otherwise an existing run and whether it is active, or a lookup error; and that it is a run of the protocol |
| Engine.ReadyHasCredentialAndProperty | internal/sync/engine.go:96-102 | in every history of the configuration handlers, Create's check passes exactly for rows with a property, and those have a credential |
| Engine.DefaultWindow | internal/sync/engine.go:33-47 | under the default configuration a request without dates covers the thirty days up to the freshness lag |
| Engine.Engine.Execute | internal/sync/engine.go:179-224 | exactly when the run ends SUCCEEDED, PARTIAL or FAILED, with which code, count and cursor, after any checkpoints; no other row changes; and that it is a run of the protocol for any instants within the two deadlines |
| Engine.Engine.Attempt | internal/sync/engine.go:194-222 | the result passed to finish: an error exactly when adapter, connection or credential is missing, the provider failed or the context expired, with its code, count and cursor |
| Engine.Engine.Finish | internal/sync/engine.go:226-243 | the row takes the outcome of the classified result, or keeps its value when the update is lost |
| Outcomes.OutcomeOf | internal/sync/engine.go:226-274 | SUCCEEDED iff no error, PARTIAL iff a SyncError with code PARTIAL; a deadline is TRANSIENT and any other error INTERNAL |
| Rotation.RowsStayWellFormed | internal/store/store.go:153-186 | in every interleaving, unconditional writes included, a row is enabled iff it has a property, and then has a credential |
| Rotation.AcceptedHasCredentialAndProperty | internal/sync/engine.go:96-102 | the check of Create passes exactly on rows with a property, and those have a credential |
| RotationSafety.StepKeepsInv | internal/httpapi/connections.go:65-114 | every step that is no disturbed unconditional write keeps rows, secrets and operations accounted for |
| RotationSafety.RefAlwaysOpens | internal/store/store.go:173-186 | when every unconditional write was undisturbed, a non-empty ref opens in its scope, except inside or after a revokeConnection that has revoked it and not cleared the row |
| RotationSafety.QuietScopeHoldsOneSecret | platform/platform.go:219-280 | with nothing in flight, no failed clean-up and every unconditional write undisturbed, the live secrets of a scope are exactly the referenced one |
| RotationSafety.LastWriteDecides | internal/httpapi/connections.go:218-221 | the last unconditional write of a history keeps that property iff it is undisturbed: the row still holds the ref it read, or is empty and cleared |
| RotationWitness.SetPropertyRevivesDeadRef | internal/httpapi/connections.go:191-221 | a history in which setProperty writes back a revoked ref and leaves the new secret unreferenced |
| RotationWitness.RevokeConnectionLeaksSecret | internal/httpapi/connections.go:265-288 | a history in which revokeConnection clears a refilled row and leaves its secret live |
| RotationWitness.RotationDropsChosenProperty | internal/httpapi/connections.go:96-97 | a history in which a rotation erases a property chosen during its validation |
| RotationWitness.SwapFooledByReturningRef | internal/httpapi/connections.go:96-114 | a history in which a swap lands on a ref that left the row and was written back, leaving a live secret unreferenced |
| RotationProperty.RotationKeepsPropertyIff | internal/httpapi/connections.go:96-97 | in every history, a rotation's swap leaves the row's property alone iff the row had no credential, or the property last chosen since the rotation began, if any, is the one it read |
| RotationProperty.PropertyIsLastChosen | internal/store/store.go:153-186 | a row that holds the same credential at both ends of any history has the property last chosen in it, even if the credential left in between |
| RotationProperty.ReturnsIffWrittenBack | internal/httpapi/connections.go:191-221 | on any path, a ref that left its row stays out of every row iff no setProperty that had read it writes |
| RotationProperty.LeavingIsGone | internal/store/store.go:153-186 | on any path, a ref that a row exchanges for another is then in no row and no operation is about to install it |
| RotationWitness.Rotate | internal/httpapi/connections.go:65-114 | a rotation with nothing in between installs the new secret, keeps the property and revokes the old one |
| Handlers.Host.FinishCredentialUpdate | internal/httpapi/connections.go:65-114 | exactly when it configures and which answer it gives otherwise; what row and secrets hold in every outcome; and that it is a run of the protocol |
| Handlers.Host.ImportConnection | platform/platform.go:219-296 | it installs exactly when the row is free, no rival came between, the credential opens, discovers (or may be retained without) and passes the test of a given property; no credential is replaced; the new secret is revoked unless installed; and that it is a run of the protocol |
| Handlers.Host.SetProperty | internal/httpapi/connections.go:186-222 | exactly when the property is written and which answer otherwise; the row read earlier is written back with it, secrets are untouched; and that it is a run of the protocol |
| Handlers.Host.RevokeConnection | internal/httpapi/connections.go:265-290 | the secret that was read dies before the row is cleared, and which step failed otherwise; no other secret changes; and that it is a run of the protocol |
| Handlers.Host.ConfigureConnectionCAS | internal/store/store.go:173-186 | writes iff the row exists and holds the expected ref |
| SecretStores.FileRefinesMemory | internal/secrets/file.go:141-211 | for every sequence of calls both stores reply alike and stay in correspondence |
| SecretStores.RevokedIsAbsorbing | internal/secrets/memory.go:39-82 | no sequence of calls revives a revoked credential; every Open and Rotate of it is refused |
| SecretStores.WrongScopeChangesNothing | internal/secrets/memory.go:42-77 | a call from another scope is refused and changes nothing |
| SecretStores.PutThenOpen | internal/secrets/memory.go:31-50 | Put, then any calls that do not touch the credential, then Open yields what was put |
| SecretStores.RotateThenOpen | internal/secrets/memory.go:52-65 | an owner's Rotate of a credential that opens succeeds, and Open then yields the replacement until it is touched again |
| SecretStores.RevokeThenRefused | internal/secrets/memory.go:67-82 | after a Revoke, whatever calls follow without a new Put, every Open and Rotate of that id is refused |
| SecretStores.RevokeForgets | internal/secrets/memory.go:67-82 | the owner's Revoke succeeds and drops the material |
| SecretStores.CallsAreLocal | internal/secrets/memory.go:31-82 | a call changes no other credential |
| SecretStores.RelabelledPayloadFails | internal/secrets/file.go:75-114 | a payload opens under no other scope's label iff no part of its scope contains the separator |
| SecretStores.BarsCollide | internal/secrets/file.go:75-114 | a scope with a separator in it shares its additional data with another scope |
| SecretStores.File.PutSecret | internal/secrets/file.go:141-153 | behaves as the memory store's Put |
| SecretStores.File.OpenSecret | internal/secrets/file.go:155-173 | answers as the memory store's Open |
| SecretStores.File.RotateSecret | internal/secrets/file.go:175-193 | behaves as the memory store's Rotate |
| SecretStores.File.RevokeSecret | internal/secrets/file.go:195-211 | behaves as the memory store's Revoke |
| SecretHandles.Handle.Close | internal/secrets/memory.go:99-107 | the array is all zeros, the handle is empty and stays closed |
| SecretHandles.Clone | internal/secrets/memory.go:109-113 | a new array with the same bytes |
| SecretHandles.Memory.PutSecret | internal/secrets/memory.go:31-37 | stores a private copy of the caller's bytes |
| SecretHandles.Memory.OpenSecret | internal/secrets/memory.go:39-50 | hands out a private copy of the stored bytes, or refuses |
| SecretHandles.Memory.RotateSecret | internal/secrets/memory.go:52-65 | replaces the material by a private copy, or refuses |
| SecretHandles.Memory.RevokeSecret | internal/secrets/memory.go:67-82 | leaves a tombstone; unknown ids are no error |
| SecretHandles.Memory.CloseHandle | internal/secrets/memory.go:99-107 | closing one handle changes no stored secret, no other handle and no caller's buffer |
| SecretHandles.Memory.WriteBuffer | internal/secrets/memory.go:31-37 | a caller overwriting its own bytes reaches no secret and no handle |
| Reports.Store.UpsertReportRows | internal/store/store.go:389-416 | accepted iff site, dataset and every row are good; then the left fold of keyed updates, otherwise no change |
| Reports.LastDuplicateWins | internal/store/store.go:403-413 | each key of a batch holds its last row; every other row of every site and dataset is untouched |
| Reports.LastOccurrenceIsStored | internal/store/store.go:403-413 | the row of a batch with no later row of its key is stored |
| Reports.OthersAreUntouched | internal/store/store.go:403-413 | rows of other sites, datasets and keys are untouched |
| Reports.ReplayChangesNothing | internal/store/store.go:408-413 | applying a batch again equals having applied it once at the later time |
| Reports.Store.ListReportRowsPage | internal/store/store.go:450-494 | a page is the greatest keys below the cursor; the next cursor is empty iff nothing is left |
| Reports.BatchesGrow | internal/store/store.go:408-413 | no batch removes a key from any listing |
| Reports.ScanIsComplete | internal/store/store.go:448-494 | with any limits and any batches between pages, a finished scan has strictly descending keys and every key present at its start |
| Reports.ScanListsOnce | internal/store/store.go:448-494 | no key is listed twice |
| Reports.ListingIsComplete | internal/store/store.go:389-494 | from any table with keyed rows, with any limits and any sequences of upserts, accepted or not, between the pages: keys strictly descend, none repeats, and every row present at the start is listed |
| Inspection.SitemapURLs | providers/searchconsole/searchconsole.go:293-310 | the located URLs, each once, at their first mention; no data iff none is located |
| Inspection.FirstMentionsAreDistinct | providers/searchconsole/searchconsole.go:293-306 | the list has no duplicates and holds exactly the located URLs |
| Inspection.FirstMentionsInOrder | providers/searchconsole/searchconsole.go:293-306 | an earlier URL of the list was mentioned before any mention of a later one |
| Inspection.InspectWindow | providers/searchconsole/searchconsole.go:327-351 | rows of the URLs before the first failing call, and that failure |
| Inspection.CompletedBatchIsStored | providers/searchconsole/searchconsole.go:352-363 | when no call fails: SUCCEEDED iff the rows were stored and the sitemap is done, PARTIAL iff stored, more remains and the checkpoint holds; either way no row of the batch is missing and the cursor is its end; otherwise an error from zero |
| Inspection.SyncURLInspection | providers/searchconsole/searchconsole.go:313-364 | one run inspects one batch from its cursor, or refuses a bad cursor, and which URLs it passes to the provider |
| Inspection.CursorAccepted | providers/searchconsole/searchconsole.go:318-324 | which cursors are read: none is zero, otherwise an optionally signed numeral of at most the number of URLs |
| Inspection.FailingRunReports | providers/searchconsole/searchconsole.go:329-335 | a failing run returns the error with the count and cursor of the rows before it, writes them, and checkpoints if there are any, as far as the sink works |
| Inspection.FailingRunCalls | providers/searchconsole/searchconsole.go:327-329 | it calls the provider for every URL up to and including the failing one |
| Inspection.CursorNeverPassesFailure | providers/searchconsole/searchconsole.go:329-335 | the cursor of a failing run lies between its start and the failing URL |
| Resume.FreshChain | providers/searchconsole/searchconsole.go:313-364 | ceil(n / batch) runs, all PARTIAL but a last SUCCEEDED, inspect each URL once and in order and leave one row per URL with a status, touching nothing else |
| Resume.Checkpoints | internal/store/store.go:505-521 | each run of the chain resumes exactly where the batches before it ended |
| Resume.OnlyPartialResumes | internal/store/store.go:505-521 | the next run resumes from the reported cursor iff the run was PARTIAL, otherwise from zero |
| Resume.FailureRestarts | internal/sync/engine.go:226-241 | a failing call leaves a cursor at or before its URL, and unless its error is PARTIAL the next run starts from zero |
| Resume.FailingRunRecords | providers/searchconsole/searchconsole.go:329-335 | after a failing run the URLs before the failing one that have an index status are stored with it, and nothing else has changed |
| Resume.FlightIsFreeAgain | internal/sync/engine.go:132-141 | after a run, a later one with another key is admitted |
| Resume.CeilingCovers | providers/searchconsole/searchconsole.go:325 | ceil(n / batch) batches reach the end of the sitemap and no fewer do |
| Resume.ChainExists | internal/sync/engine.go:118-141 | attempts with new ids and keys and later starts on an idle flight can always be carried out one after the other |
| Resume.FreshChainExists | internal/sync/engine.go:118-141 | on a flight without rows, ceil(n / batch) such attempts form a fresh chain |
| InspectionRuns.ExecuteInspection | internal/sync/engine.go:179-243 | the engine's execute, with the inspection loop as provider and the report store behind the sink, leaves exactly the tables the chain speaks of |
| InspectionRuns.RunInspection | internal/sync/engine.go:85-142 | Create followed by that worker is one step of a chain, from the flight's own checkpoint |
| Paging.FetchDay | providers/searchconsole/searchconsole.go:392-405 | the first min(count, 50000) rows of a day, complete iff it has fewer than 50000; fails iff a needed call fails |
| Paging.FetchDetails | providers/searchconsole/searchconsole.go:388-409 | the concatenation day by day; partial iff some day has at least 50000 rows; nothing on failure |
| Paging.OldestFirst | providers/searchconsole/searchconsole.go:391 | the rows of the oldest day come first |
| Paging.DroppedIffOverCap | providers/searchconsole/searchconsole.go:388-409 | rows are dropped iff some day exceeds the cap |
| Paging.RunPagedReport | providers/ga4/ga4.go:326-347 | the whole report after exactly max(1, ceil(total / 100000)) pages, or nothing at the first failing page; metadata merged over the pages read |
| Paging.PagesNeeded | providers/ga4/ga4.go:31 | one page for an empty report, otherwise ceil(total / 100000) |
| Paging.FlagsAreOred | providers/ga4/ga4.go:349-362 | the merged flags are the OR over all pages |
| Paging.SamplingIsKept | providers/ga4/ga4.go:357 | the sampling notes are those of all pages in order |
| Paging.FirstReasonWins | providers/ga4/ga4.go:358-360 | the merged reason is the first one given |
| OAuthStates.Store.CreateOAuthState | internal/store/oauth.go:23-32 | inserts a row that expires after its time to live unless the state exists |
| OAuthStates.Store.OAuthStart | internal/httpapi/oauth.go:76-98 | a new state is created for that owner and verifier with ten minutes to live |
| OAuthStates.Store.ConsumeOAuthState | internal/store/oauth.go:38-56 | deletes and returns the matching unexpired row, then may clear expired ones |
| OAuthStates.Store.OAuthComplete | internal/httpapi/oauth.go:148-195 | the exchange uses the stored verifier and redirect; a state is gone even if the exchange fails; the mismatch branch is never taken |
| OAuthStates.AcceptedStateIsGenuine | internal/store/oauth.go:38-52 | an accepted state was created for that owner with exactly the returned content, not used since, and is not expired |
| OAuthStates.UsesAlternate | internal/store/oauth.go:36-45 | between two acceptances of a state it was created again |
| OAuthStates.SingleUse | internal/store/oauth.go:36-45 | with fresh tokens no state is accepted twice |
| OAuthStates.StaysUntilExpiry | internal/store/oauth.go:53-54 | an unused state is stored iff no clean-up since its creation read a clock at or past its second of expiry; attempts by others never remove it |
| OAuthStates.AttemptDecided | internal/store/oauth.go:38-54 | an attempt on an unused state succeeds iff the owner is right, its second is before that of the expiry, and no earlier clean-up read a clock past it |
| OAuthStates.InOrderAttemptDecided | internal/store/oauth.go:38-52 | with clock readings in the order of the steps, owner and second alone decide |
| Migrations.StepKeepsInv | internal/store/store.go:64-91 | every step of every opener keeps the recorded names a prefix and the schema its fold |
| Migrations.AlwaysAPrefix | internal/store/store.go:49-93 | so does every history of interleaved, crashing and failing opens, and the prefix only grows |
| Migrations.FoldGoesThrough | internal/store/store.go:64-91 | the fold of a prefix is what its scripts make of the empty schema one after the other |
| Migrations.CompletedOpenIsUpToDate | internal/store/store.go:49-93 | after a completed open every migration its release knows is in place for good |
| Migrations.Database.MigrateEntry | internal/store/store.go:65-90 | an entry is skipped, applied and recorded together, or nothing changes |
| Migrations.Database.Migrate | internal/store/store.go:49-93 | a completed open reaches the full list, a stopped one a prefix, and reopening changes nothing |

## Left out

- RotationSafety.RefAlwaysOpens: does not cover histories in which setProperty or revokeConnection overwrites a ref that changed since it was read, because there it is false (RotationWitness); nor a revokeConnection stopped between its two writes.
- RotationSafety.QuietScopeHoldsOneSecret: does not cover those histories either, for the same reason.
- InspectionRuns.RunInspection: covers runs whose store calls succeed; failing ones are in Engine and Inspection.
- Migrations: every release is taken to know a prefix of one list; a migration that sorts before one already applied is not covered.
- Handlers.Host.ImportConnection: the only interference inside it is one rival import; all others are covered by the protocol. Auditing is not modelled.
- RunTable.Store.RequeueStaleRuns: rows left QUEUED by a crash before their worker starts are never swept, as in the code.
- Resume.FreshChain: assumes a fixed sitemap, calls and writes that succeed and distinct start times, since start times have one-second resolution and ties in the newest-run query are decided by the database.
- Workers are assumed to stop at their context deadlines or to crash. All replicas read one clock without skew, though a reading may be old when its statement runs; clocks lie in the years 0000 to 9999 and past the lease.
- A store call that reports an error is taken to have had no effect; the key lookup of findConflictingRun, whose error the code swallows, is modelled as failing.
- Authenticated encryption is ideal (opening undoes sealing under the same nonce and additional data), ids and tokens are fresh; keys, hashing, random generation and the files behind the encrypted store are not modelled.
- Provider calls, token exchange and the Google services are inputs; retries with sleeps, JSON, XML and URL parsing are not modelled, and the sitemap loop starts from normalised locations.
- The state and idempotency key a client sends are taken after trimming; lengths of keys and messages are counted in characters, not bytes.
- Error messages of inspection runs, which no later step reads.
- The scheduler loop, which repeats a sweep and Create for every capability.
- Engine.Engine.Execute: a provider's writes of report rows are in Reports and Resume, not here.
- Connection outcomes (last success, data-through date, error codes) and pausing on errors: one-branch updates without an invariant.
- Metric conversion and the composition of row keys in the providers, which can merge keys.
- The console, the HTTP clients, authentication, scope checks, audit log, provider registry, configuration and start-up: interface and plumbing.
