# Pamie: a verified model

Pamie keeps durable memories in SQLite. This project models, in Dafny, the parts of it where
several pieces of state have to agree, and proves that they do:

- **The memory store and its derived indexes** (`Schema`, `Repository`, `Service`, `Operations`,
  `Words`, `Writes`, `Index`, `IndexUpdate`, `ServiceLaws`, `Requests`, `Backfill`, `Retry`,
  `History`, `Contents`). Tables are maps with their keys, foreign keys, cascades and triggers. Each
  service call is a function from the tables before to the tables after, and a method that carries
  it out step by step against a `Store` object and is proved to do exactly that. The embedder may
  fail at any call, and the index write is a transaction of its own.
- **The lifecycle engine** (`Lifecycle`, `LifecycleLaws`, `Decisions`, `LifecycleConvergence`,
  `Traces`, `Earned`): five tiers, first-match policies, promotion, protection, ageing, deletion by
  policy, over whole histories.
- **NDJSON export and import** (`Ndjson`, `Parser`, `Import`, `ImportApply`, `Importer`, `Refusals`,
  `Export`, `Listings`, `RoundTrip`, `Exportable`).
- **The token-bucket rate limiter** (`RateLimit`), **hybrid search and vector similarity**
  (`Ranking`, `Search`, `Ranked`, `Similarity`) and **the lifecycle worker** (`Worker`) as a state
  machine over its atomic steps.

Clock readings, random ids, the embedder's answers and the persistence of index writes are inputs,
so a theorem about all histories is about all of these too. `Prelude`, `Ordering` and `Keywords`
hold what the others share. `dafny verify dfyconfig.toml` checks everything.

Where the code turned out not to keep an expected property, the model follows the code and states
exactly when it fails: a lost index write can leave a stale `indexed` status
(IndexUpdate.LostWriteGoesStaleExactlyWhen), memories without title and keywords can stall backfill
(Backfill.BackfillStallsExactlyWhen), zero vectors are ranked differently by the two vector
backends (Similarity.BackendsAgreeExactlyWhen), an export can hold policies its own import refuses
(Export.ExportIsAcceptedExactlyWhen), and the validator's seen-maps can report a duplicate that is
none (Import.SeenMapsAcceptExactlyWhen). `Counterexamples` and the three counterexamples in `Similarity`
and `Import` show each failure at a concrete input.

Where the documentation says something else than the code, the model follows the code:

- docs/future-vector-search.md:92 promises a recorded `failed` status when an embedding fails. The
  code records one when the embedder fails, but a vector that cannot be stored is only reported and
  logged (internal/memory/service.go:774-803), and a lost status write is only logged
  (internal/memory/service.go:826-828).
- docs/future-vector-search.md:94 calls backfill resumable. Skipped memories stay candidates, so
  enough of them, older than the rest, stop it.
- docs/backup-and-restore.md:68 lists the exported records without keywords, which are exported and
  imported too (internal/db/export.go:520-525).

## Model

| member | source | states |
|---|---|---|
| History.IndexesAgreeOverEveryHistory | internal/memory/service.go:187-829 | Over every sequence of Save, Update, Get, Pin, Delete, Backfill, lifecycle runs and new policies, with an embedder that may fail at any call and any ids and clocks: all rows meet the schema, each memory has exactly one chunk holding its body, `memory_fts` is exactly the projection of the chunks, the `vec0` rows are exactly the (rowid, vector) pairs of the embeddings, and stored titles and keywords stay within bounds. If the index writes of updates persist, `indexed` always means an embedding of the current title and keywords, and `failed` that there is something to embed. |
| History.StepKeepsSound | internal/memory/service.go:187-696 | The same for one call, whichever it is. |
| History.EmptyIsSound | internal/db/migrations/0001_initial_schema.sql:1-95 | The freshly migrated, empty database satisfies all of these invariants. |
| Index.IndexOnWrites | internal/memory/service.go:725-829 | One index write touches nothing but the index. Reported `indexed`, it leaves the embedder's vector under the document's hash and a status that says so; otherwise the old embedding and `vec0` rows stay as they were. |
| Index.IndexKeepsSound | internal/memory/service.go:725-829 | An index write keeps all invariants whatever the embedder answers and whether or not it persists, including a rolled-back write. |
| Index.IndexSettles | internal/memory/service.go:725-803 | After an index write that persists, the chunk's status agrees with its current title and keywords, whatever it said before. |
| Index.ReembeddingSucceeds | internal/db/memory_repository.go:397-446 | A chunk that was embedded once can always be embedded again: its row id is still free for it. |
| Index.PersistMirrors | internal/db/memory_repository.go:1779-1802 | Upserting an embedding keeps the `vec0` rows exactly those of the embedding table. |
| Index.SaveKeepsIndexes | internal/memory/service.go:187-269 | Save keeps every index invariant and the truth of all statuses, even when its index write is lost. |
| IndexUpdate.UpdateKeepsIndexes | internal/memory/service.go:401-523 | Update keeps chunk, `memory_fts` and `vec0` exact whatever happens to the index write; when that write persists, statuses stay true. |
| IndexUpdate.LostWriteGoesStaleExactlyWhen | internal/memory/service.go:519-521 | When the index write of an update is lost, a status goes stale if and only if the body was not replaced and the stored status does not fit the new document: `indexed` under another hash, or `indexed`/`failed` with nothing left to embed. |
| Counterexamples.LostWriteExample | internal/memory/service.go:519-521 | Such a loss, from an empty store: a note titled `a` is saved and indexed, its title becomes `b`, the index write is lost, and the status still says `indexed`. |
| IndexUpdate.RewrittenIsSound | internal/memory/service.go:438-515 | The update transaction itself keeps all invariants: replacing the body swaps the chunk and drops its `memory_fts`, embedding, status and `vec0` rows. |
| IndexUpdate.ReplacedVecIsExact | internal/db/memory_repository.go:1804-1848 | Deleting a memory's `vec0` rows before its chunks leaves exactly the rows of the other embeddings. |
| ServiceLaws.UntouchedTextsKeepIndexes | internal/memory/service.go:271-330 | Calls that change neither titles, bodies nor keywords keep every index invariant and exactly the truth of all statuses. |
| Schema.InsertChunkKeepsSchema | internal/db/migrations/0001_initial_schema.sql:28-50 | Inserting a chunk keeps keys, foreign keys, uniqueness and the `memory_fts` projection. |
| Schema.DeleteChunksKeepsSchema | internal/db/migrations/0001_initial_schema.sql:52-54 | Deleting a memory's chunks with trigger and cascades keeps every constraint and frees its slot. |
| Repository.Store.InsertChunkRow | internal/db/migrations/0001_initial_schema.sql:28-50 | Inserting a chunk row and running its trigger does what `Schema.InsertChunk` says, or changes nothing. |
| Repository.Store.DeleteChunkRows | internal/db/migrations/0001_initial_schema.sql:52-54 | Deleting a memory's chunk rows one by one, each with its cascades and its trigger, does what `Schema.DeleteChunks` says, in any order of the rows. |
| Schema.NextRowidIsFree | internal/db/migrations/0001_initial_schema.sql:28-50 | The row id SQLite picks for a chunk is always free in `memory_fts`. |
| Schema.PutEmbeddingKeepsSchema | internal/db/memory_repository.go:397-446 | The embedding upsert keeps keys, foreign keys and the unique row ids. |
| Schema.PutStatusKeepsSchema | internal/db/memory_repository.go:570-604 | The status upsert keeps keys and foreign keys. |
| Index.AttemptsAddUp | internal/db/memory_repository.go:570-604 | Over any series of recorded outcomes for a chunk the attempts add up, the creation time stays that of the first, the rest of the row is the last outcome's, and no other row or table moves. |
| Retry.UnfitIsRecorded | internal/memory/service.go:725-829 | An index write without an embedding leaves one status row and nothing else, field by field: `skipped` without a title and keywords, else `failed` under the document's hash with one more attempt and the reason, of the embedder's own message the first 512 characters. |
| Retry.FitIsIndexed | internal/memory/service.go:774-803 | With a fitting embedding it stores the vector under the document's hash, keeping the time of the first embedding, and one `indexed` status row; it fails, changing nothing, if and only if the vector store is of an unknown kind or the row id belongs to another chunk. |
| Operations.MemoryService.Save | internal/memory/service.go:187-269 | The method leaves exactly the tables and result of `Service.SaveOn`, and returns the row that was asked for, with tier working if none was given. |
| Requests.SaveIsAcceptedExactlyWhen | internal/memory/service.go:187-269 | Save is accepted if and only if the body is not empty, tier, importance and metadata are in order, the keywords are, the document has at most 4096 characters, both ids are fresh and the clock is set. It then adds the one row asked for: tier working unless one was given, both times now, never read, archived or deleted; refused, it changes nothing. |
| Contents.SaveStoresTheTexts | internal/memory/service.go:239-262 | A save stores the body as the memory's one chunk and as that chunk's `memory_fts` row, and the keywords it returns, numbered, each with its trimmed lower-case form. |
| Writes.SaveSucceedsExactlyWhen | internal/memory/service.go:239-262 | A well-formed request is stored if and only if its ids are fresh and the clock is set; then exactly one item, one chunk, the keywords in order and one event are added and no other row changes. |
| Counterexamples.SaveSettles | internal/memory/service.go:187-269 | Saving a good request under fresh ids succeeds whatever becomes of its index write. A healthy write leaves the chunk indexed under the document's hash, or skipped if there is no document; a lost one leaves neither embedding nor status. |
| ServiceLaws.GetReadsBackWhatWasSaved | internal/memory/service.go:271-330 | Round trip: Get returns the title, body, source, metadata, tier (working if none), importance and pin that Save was given, one chunk with the body, and the normalized keywords in order. |
| Operations.MemoryService.Update | internal/memory/service.go:401-523 | The method leaves exactly the tables and result of `Service.UpdateOn`, and returns the row before with the fields the request names, field by field. |
| Requests.UpdateIsAcceptedExactlyWhen | internal/memory/service.go:401-523 | Update is accepted if and only if the memory is live and every named field, the resulting document and the new chunk id are in order. It then changes exactly the fields named (title, body, source, metadata, tier, importance, pin) and the update time of that one row and logs one event; refused, it changes nothing. |
| Contents.UpdateStoresTheTexts | internal/memory/service.go:484-501 | The chunk and its `memory_fts` row are replaced if the request names a body, the keyword rows if it names keywords, and left as they are otherwise; other memories keep theirs. |
| Contents.BodiesAreSearchableOverEveryHistory | internal/memory/service.go:187-696 | Over every history each memory has one chunk, holding its present body, and one `memory_fts` row, holding it too and naming both, and there are no others. |
| Writes.UpdateSucceedsExactlyWhen | internal/memory/service.go:438-515 | The update transaction succeeds if and only if the memory is live and the request admissible; then exactly the patched item, the replaced keywords and chunk, and one event differ. |
| Writes.BodyReplacedExactlyWhen | internal/db/memory_repository.go:219-238 | Replacing a memory's chunks by one succeeds if and only if the new chunk id is not another memory's, and keeps the schema. |
| Operations.MemoryService.Get | internal/memory/service.go:271-330 | The method leaves exactly the tables of `Service.GetOn` and returns item, chunks by index and keywords in display order. |
| ServiceLaws.GetSucceedsExactlyWhen | internal/memory/service.go:271-330 | Get succeeds if and only if the memory is live, the policies load and the promotion window is valid; it then adds one access, touches the row and promotes by at most one tier, with one event. |
| Decisions.GetPromotesExactlyWhen | internal/memory/service.go:271-330 | Reading moves a memory up one tier if and only if its own reads in the window, this one included, reach the count its policy asks for; the rest of the row stays but for the two times. Get returns the promoted row, or else the row before with the new time of reading. |
| Operations.MemoryService.Delete | internal/memory/service.go:525-569 | Without confirmation nothing happens; with it the tables are those of `Service.DeleteTxOn`, or unchanged on failure; on success only the deletion and update times of that one row differ. |
| ServiceLaws.DeleteSucceedsExactlyWhen | internal/memory/service.go:525-569 | Deleting succeeds if and only if the memory is live; it sets two times and logs one event; a second delete finds nothing. |
| Operations.MemoryService.Pin | internal/memory/service.go:571-612 | The tables are those of `Service.PinTxOn`, or unchanged on failure; on success only that row's pin, as asked, and its update time differ. |
| ServiceLaws.PinSucceedsExactlyWhen | internal/memory/service.go:571-612 | Pinning succeeds if and only if the memory is live; the row then has the pin asked for and its update time, nothing else differs but one event, and pinning back restores everything but the update time. |
| Operations.MemoryService.IndexMemoryEmbedding | internal/memory/service.go:725-803 | The method leaves exactly the tables and status of `Service.IndexOn`. |
| Operations.MemoryService.RecordStatus | internal/memory/service.go:805-829 | A failed or lost status write changes nothing. |
| Operations.MemoryService.BackfillEmbeddings | internal/memory/service.go:662-696 | Refused without vectors or with an invalid target; else exactly `Service.BackfillOn` over the candidates read at the start; Retry.ListIsExact and Retry.FailedUpdateIsMadeGood say which these are and what becomes of them. |
| Operations.MemoryService.ListCandidates | internal/db/memory_repository.go:495-567 | Refuses an invalid target or limit, else returns `Service.Candidates`, which Retry.ListIsExact describes. |
| Retry.ListIsExact | internal/db/memory_repository.go:495-567 | The list holds only chunks of live memories that have no embedding or whose last index write failed, or with `force` any chunk of a live memory; oldest first; one is left out only when the list is full of older ones. |
| Retry.WithRoomAllAreListed | internal/db/memory_repository.go:523-528 | With room for every chunk, all such chunks are listed, and with `force` all chunks of all live memories. |
| Retry.NothingLeftMeansIndexed | internal/db/memory_repository.go:523-528 | With true statuses, when nothing is left to list every chunk of a live memory has an embedding and none has failed; those called `indexed` have the embedding of the present title and keywords. |
| Retry.FailedUpdateWaits | internal/memory/service.go:519-521 | An update of the texts whose embedding fails, and whose failure is recorded, leaves the memory's chunk waiting for backfill. |
| Retry.RetryHeals | internal/memory/service.go:662-696 | A healthy backfill that lists a waiting chunk of a memory with a title or keywords leaves it `indexed` under the hash of the present document. |
| Retry.FailedUpdateIsMadeGood | internal/memory/service.go:662-696 | The two together: after such an update a healthy backfill with room for every chunk leaves the memory indexed under its new title and keywords. |
| Retry.BackfillScansUpToItsLimit | internal/memory/service.go:662-696 | A backfill scans at most its limit, 100 unless one is given, and fewer only if that is all there is. |
| Backfill.BackfillKeepsIndexes | internal/memory/service.go:662-696 | Backfill keeps every invariant and true statuses even when writes are lost, touches only the index, and scanned = indexed + skipped + failed. |
| Backfill.HealthyRunLowersCandidates | internal/memory/service.go:662-696 | With an embedder that answers properly and distinct row ids, a run removes exactly the documented candidates it listed: the candidate count falls by exactly the number reported as indexed. |
| Backfill.BackfillStallsExactlyWhen | internal/db/memory_repository.go:495-567 | Such a run leaves the candidates as they were if and only if none of those listed has a title or keyword. |
| Counterexamples.StuckBackfillExample | internal/db/memory_repository.go:495-567 | Such a standstill, from an empty store and for every limit: `limit` notes without title and keywords, then a titled one whose index write is lost. The titled note is a candidate with a document, and no healthy run takes it up. |
| Backfill.BackfillEmptiesTheCandidates | internal/memory/service.go:662-696 | If every candidate's memory has a title or keyword, k runs leave max(0, n - k * limit) of n candidates. |
| Backfill.BackfillEmptiesExactlyWhen | internal/memory/service.go:662-696 | Enough healthy runs empty the candidates if and only if every candidate's memory has a title or keyword; otherwise no number of runs does. |
| Backfill.DrainedBackfillScansNothing | internal/memory/service.go:662-696 | Once k * limit reaches n, a further run scans nothing and changes nothing. |
| Words.ReplacedWordsAreListed | internal/db/memory_repository.go:275-320 | Round trip: replacing a clean keyword list succeeds and listing returns it in order; other memories' rows stay. |
| Keywords.NormalizeAll | internal/memory/keywords.go:19-46 | The loop with its seen-map computes `Keywords.NormalizeKeywords`, including both refusals. |
| Keywords.NormalizedIsClean | internal/memory/keywords.go:19-46 | Normalized keywords are trimmed, not blank, short, printable and distinct ignoring case. |
| Keywords.NormalizeLosesNoWord | internal/memory/keywords.go:19-46 | Every keyword that is not blank survives up to case and spacing. |
| Keywords.NormalizeIsIdempotent | internal/memory/keywords.go:19-46 | Normalizing a normalized list changes nothing. |
| Keywords.KeywordsAcceptedExactlyWhen | internal/memory/keywords.go:19-46 | A list is accepted if and only if it has at most 64 keywords and each that is not blank has, trimmed, at most 128 characters and no control character. |
| Keywords.NormalizeKeepsFirstSpellings | internal/memory/keywords.go:19-46 | What is kept are the first spellings of the words, trimmed, in the order they came. |
| Keywords.BuildDocument | internal/memory/keywords.go:52-81 | The string builder writes `Keywords.Document`. |
| Keywords.DocumentCoversTheMemory | internal/memory/keywords.go:52-81 | There is no document if and only if title and keywords are blank; otherwise each keyword of a clean list has its own line. |
| Keywords.BulletsAreLines | internal/memory/keywords.go:72-79 | Each keyword of the document stands on a line of its own. |
| Repository.Store.ReplaceChunks | internal/db/memory_repository.go:219-238 | The loop does what `Repository.ReplaceChunksOn` says, and stops at the first failing chunk with its error. |
| Repository.Store.ReplaceKeywords | internal/db/memory_repository.go:275-303 | The loop does what `Repository.ReplaceKeywordsOn` says, and stops at the first failing keyword with its error. |
| Repository.Store.UpsertEmbedding | internal/db/memory_repository.go:397-446 | Validation, upsert keeping the creation time, and the mirrored `vec0` row. |
| Repository.Store.ListKeywords | internal/db/memory_repository.go:306-320 | Lists a memory's keywords by index. |
| Repository.Store.ListEnabled | internal/db/policy_repository.go:40-63 | Lists the enabled policies by creation time, then id. |
| Ordering.List | internal/db/policy_repository.go:40-46 | ORDER BY: every row once, ascending. |
| Ordering.ListingIsUnique | internal/db/export.go:293-300 | An ordered query's answer is determined by the rows alone. |
| Listings.TextLessIsLexicographic | internal/db/policy_repository.go:40-46 | Text is compared character by character from the front, a proper prefix first. |
| Listings.EnabledPoliciesInOrder | internal/db/policy_repository.go:40-63 | The policies loaded are exactly the enabled ones, oldest first, by id among those created together. |
| Listings.ChunksInOrder | internal/memory/service.go:271-330 | A memory's chunks are listed by index, and no other chunk is. |
| Operations.MemoryService.RunLifecycle | internal/memory/lifecycle.go:95-149 | Succeeds if and only if the policies load, the context is not cancelled within the batch, and `Lifecycle.RunOn` succeeds over a batch that ListActive may return; tables and report are then those of `RunOn`, and otherwise nothing changes. |
| Operations.MemoryService.ListActive | internal/db/memory_repository.go:1000-1029 | Up to `limit` live memories, oldest update first. |
| LifecycleLaws.RunIsPointwise | internal/memory/lifecycle.go:104-149 | The in-place loop equals a pointwise step on the batch from its state at the start: each member steps once, one event per change in batch order, nothing else moves. |
| LifecycleLaws.RunIgnoresBatchOrder | internal/memory/lifecycle.go:104-149 | Any order of the batch leaves the same memories. |
| LifecycleLaws.RunSucceedsExactlyWhen | internal/memory/lifecycle.go:104-149 | A run fails if and only if the clock reads zero on a change or a promotion window starts at the zero time. |
| Decisions.NoDecisionExactlyWhen | internal/memory/lifecycle.go:188-204 | No decision is made for a memory if and only if its reads would be counted and it has no id or the window starts at the zero time. |
| LifecycleLaws.ReportIsExact | internal/memory/lifecycle.go:104-277 | Every counter counts its decisions, the four change counters add up to the changes, and the changes are the events appended. |
| LifecycleLaws.StepMovesAtMostOneTier | internal/memory/lifecycle.go:151-263 | A step moves one tier at most, up only by promotion, and down or into the archive only a memory whose creation, update and last read all lie at least the threshold of its tier back; archiving is the only way into the archive; deletion keeps the tier. |
| Decisions.DecisionIsExact | internal/memory/lifecycle.go:151-186 | A memory is promoted, deleted, archived or demoted if and only if it is due: promotion by its own reads in the window, then nothing to a pinned or important memory, then deletion by its time in the archive and archiving and demotion by its idle time in its tier. |
| Decisions.RunFollowsTheTable | internal/memory/lifecycle.go:104-263 | A run leaves each row of its batch exactly as that table says, field by field, and every other row and the reads as they were. |
| Decisions.AccessesAreCounted | internal/db/access_repository.go:41-57 | What is counted are the reads of this memory at or after the start of the window, each once. |
| Decisions.ScopesAreRespected | internal/memory/lifecycle.go:347-372 | The policy consulted is the first that does not exclude the memory by tier, by source or because it is pinned. |
| Decisions.RulesAreInDays | internal/memory/lifecycle.go:279-345 | Every memory is judged by the thresholds, in days, that its policy names one by one, or by the defaults of 1, 7, 30 and 90 days, 3 reads in 7 days, guarded pins and importance 90, and no deletion. |
| Decisions.RunTakesTheOldest | internal/memory/lifecycle.go:423-431 | A run looks at 500 memories unless a limit is given and never at more than 5000; a live memory is passed over only for ones updated no later. |
| Decisions.PolicyIsStoredExactlyWhen | internal/db/policy_repository.go:16-36 | A policy is stored if and only if it is named, timed and new; missing JSON texts become `{}`. |
| Earned.EveryMoveIsEarned | internal/memory/lifecycle.go:95-277 | Over every history logged events stay as they are, and each lifecycle event was due in the very call that logged it: it names an enabled policy that does not exclude the memory, or the built-in one, and the memory had the reads, the idle time or the time in the archive that this policy asks for in the memory's tier, was live and, promotions aside, neither pinned nor important under it. |
| LifecycleLaws.SkipsAreMissedChanges | internal/memory/lifecycle.go:155-186 | A skip is counted if and only if the memory is protected, not promoted, and the rules without protection would change it; pinning is checked first. |
| LifecycleLaws.PinnedIsSafeOverRuns | internal/memory/lifecycle.go:151-186 | If every policy protects pinned memories, over any history of runs a pinned memory's tier never falls and it is never deleted. |
| LifecycleLaws.RunKeepsSchema | internal/memory/lifecycle.go:104-149 | A run keeps every schema constraint. |
| LifecycleConvergence.FixpointAfterFourRuns | internal/memory/lifecycle.go:95-226 | At a fixed clock with all live memories in the batch, only the first four runs can change anything, even when policies scoped by tier change hands. |
| LifecycleConvergence.LaterRunsOnlyPromote | internal/memory/lifecycle.go:151-186 | At a fixed clock no run after the first demotes, archives or deletes. |
| LifecycleConvergence.FourRunsArchiveTheForgotten | internal/memory/lifecycle.go:172-186 | Four runs whose batches hold every live memory leave an unprotected, unread memory archived or deleted if they are spaced beyond the threshold of each tier under the policy that applies to that memory there, the first from its last activity. |
| LifecycleConvergence.EachRunLowersTheForgotten | internal/memory/lifecycle.go:374-421 | Each such run lowers a memory outside the archive by exactly one tier. |
| LifecycleConvergence.SmallStoresAreCovered | internal/db/memory_repository.go:1000-1029 | With no more live memories than the limit, the batch holds them all. |
| Lifecycle.LoadLifecyclePolicies | internal/memory/lifecycle.go:279-314 | The loop parses every row in order, or fails. |
| Lifecycle.LoadedPoliciesArePositive | internal/memory/lifecycle.go:279-345 | Whatever a stored policy says, merged ageing thresholds are positive, and it deletes only if it sets a positive threshold itself. |
| Lifecycle.PolicyForItem | internal/memory/lifecycle.go:347-359 | The search loop returns `Lifecycle.PolicyFor`. |
| Lifecycle.PolicyForIsFirstMatch | internal/memory/lifecycle.go:347-372 | The first policy whose scope matches, else the built-in one. |
| Traces.EveryDeletionFollowsItsArchiving | internal/memory/lifecycle.go:151-263 | Over any history without tier-setting updates, every lifecycle deletion follows the memory's own archive event by at least the positive threshold of the enabled policy it names, with no change of tier in between. |
| Traces.HistoriesFromEmptyAreExplained | internal/memory/lifecycle.go:151-277 | So for a service that starts on an empty database: its log explains every tier and archive time, and every lifecycle deletion was preceded by the memory's own archiving. |
| Traces.NoThresholdNoDeletion | internal/memory/lifecycle.go:173-180 | If no enabled policy sets a delete threshold, whatever the disabled ones say, the lifecycle has never deleted anything. |
| Traces.LifecycleEventsChain | internal/memory/lifecycle.go:206-277 | Over any such history each lifecycle event of a memory starts from the tier the one before left, is one tier apart, and the last one leaves the current tier. |
| Traces.DeletedRowsNeverChange | internal/memory/service.go:271-612 | Once deleted, by the user or the lifecycle, a memory's row never changes again, in any history. |
| Traces.StepStaysTraced | internal/memory/lifecycle.go:188-277 | Every call keeps the log explaining tiers, archive times and deletions. |
| Worker.EvaluationsNeverOverlap | internal/lifecycle/worker.go:125-159 | In every interleaving of any number of Run loops, at most one lifecycle evaluation is in progress. |
| Worker.TriggersAreAccountedFor | internal/lifecycle/worker.go:125-159 | Every handled trigger is exactly one of started, skipped and ignored, and only a cancelled loop ignores. |
| Worker.TriggersFollowTheConfig | internal/lifecycle/worker.go:110-179 | Every loop has handled exactly the triggers it was sent: the ticks, the end of the startup delay and, with runOnStart, the call itself. The delay is waited for only without runOnStart, and a disabled worker never starts a run. |
| Worker.TriggerIsSkippedExactlyWhenBusy | internal/lifecycle/worker.go:123-140 | In every reachable state a trigger is ignored if and only if its loop is cancelled, and skipped if and only if another run is under way; otherwise it starts one. |
| Worker.ReturnsOnlyWhenRunsAreFinished | internal/lifecycle/worker.go:117-179 | A Run loop returns only when every run it started has finished. |
| Worker.InvariantHolds | internal/lifecycle/worker.go:117-179 | The flag has exactly one owner while set, and each wait group counts the unfinished runs of its loop, in every reachable state. |
| Worker.ShutdownNeverDeadlocks | internal/lifecycle/worker.go:161-179 | Once all contexts are cancelled, some step is enabled until everything is quiet. |
| Worker.ShutdownTerminates | internal/lifecycle/worker.go:161-179 | A shutdown is over within a bound computed from the state. |
| RateLimit.RateLimiter.Allow | internal/httpserver/ratelimit.go:87-111 | Decision and new buckets are `RateLimit.DecideFirst` for the calling client; every other client's bucket is unchanged. |
| RateLimit.TokensStayInTheBucket | internal/httpserver/ratelimit.go:98-110 | Tokens stay within zero and the burst, however the clock moves. |
| RateLimit.LimiterIsOptimal | internal/httpserver/ratelimit.go:87-111 | At every prefix the limiter has admitted at least as many calls as any schedule that fits the same bucket. |
| RateLimit.FitsExactlyWhenWindowsHold | internal/httpserver/ratelimit.go:87-111 | A schedule fits a full bucket if and only if every window of calls admits at most burst plus what the elapsed time earns. |
| RateLimit.LimiterIsTheBestWithinTheRate | internal/httpserver/ratelimit.go:87-111 | Of all schedules that keep the rate in every window, the limiter's admits the most at every prefix, and keeps it itself. |
| RateLimit.WindowBound | internal/httpserver/ratelimit.go:87-111 | Over any window, admitted calls cost at most the burst plus rate times the growth of `updated`, even when the clock steps back. |
| RateLimit.EveryMinuteKeepsTheRate | internal/httpserver/ratelimit.go:87-111 | In nanoseconds, under a clock that never steps back: a new client's window admits at most the burst and the requests per minute for each minute it lasts. |
| RateLimit.CallsAtTheRateAreAdmitted | internal/httpserver/ratelimit.go:87-111 | A new client that leaves a minute divided by the requests per minute between its calls has all of them admitted. |
| RateLimit.BurstIsExact | internal/httpserver/ratelimit.go:87-111 | Of any number of simultaneous calls of a new client exactly the first `burst` are admitted. |
| RateLimit.DeniedCallsLeaveNoTrace | internal/httpserver/ratelimit.go:87-111 | Deleting a denied call from a client's history changes no other decision. |
| RateLimit.WellSpacedIsNeverBlocked | internal/httpserver/ratelimit.go:98-110 | A client whose calls come at least one token's time apart, the first counted from its bucket's last update, is never blocked, whatever tokens it had. |
| RateLimit.FreshClientIsNeverBlocked | internal/httpserver/ratelimit.go:87-111 | A new client that keeps one token's time between its calls has all of them admitted, the first at any time, however the calls of others interleave. |
| RateLimit.ClientsDoNotInterfere | internal/httpserver/ratelimit.go:87-111 | However calls interleave, each client is served as if it were alone. |
| RateLimit.FirstCallMeetsAFullBucket | internal/httpserver/ratelimit.go:91-96 | The special case for a new client is a call on a full bucket. |
| Similarity.CosineSimilarity | internal/db/memory_repository.go:1874-1888 | The accumulating loop computes `Similarity.Cosine`. |
| Similarity.CauchySchwarz | internal/db/memory_repository.go:1874-1888 | dot squared is at most the product of the two norms. |
| Similarity.CosineIsBounded | internal/db/memory_repository.go:1874-1888 | Cosine similarity lies in [-1, 1]. |
| Similarity.SimilarityFallsWithDistance | internal/db/memory_repository.go:1890-1901 | Distance similarity is one over one plus the distance, in (0, 1], and exactly reverses the order of distances. |
| Similarity.BackendsRankUnitVectorsAlike | internal/db/memory_repository.go:1874-1901 | For unit vectors both backends order any two candidates alike. |
| Similarity.BackendsAgreeExactlyWhen | internal/db/memory_repository.go:1874-1901 | Over every query and pair of candidates that are unit vectors or zero, the backends agree both ways if and only if both candidates are unit or both zero, or the query is unit and the unit candidate's dot product with it lies outside [0, 1/2]. |
| Similarity.ZeroVectorCounterexample | internal/db/memory_repository.go:1882-1884 | A concrete disagreement on a zero candidate. |
| Similarity.ZeroQueryCounterexample | internal/db/memory_repository.go:1882-1884 | A concrete disagreement on a zero query. |
| Similarity.Normalize | internal/embedding/embedding.go:127-139 | The array is divided in place to `Similarity.Normalized`. |
| Similarity.NormalizedIsUnitOrZero | internal/embedding/embedding.go:127-139 | The result is a unit vector, unless the input is zero, which is left alone. |
| Similarity.Embed | internal/embedding/embedding.go:82-106 | The local provider's vector is the normalized signed token count. |
| Similarity.TallyCountsTokens | internal/embedding/embedding.go:88-103 | Each component counts the tokens hashed to it, those with the top bit set downwards. |
| Similarity.LocalEmbeddingsRankAlikeExactlyWhen | internal/embedding/embedding.go:82-139 | The same for embeddings of the local provider, as an if and only if on the token counts of the three texts. |
| Search.Merger.Merge | internal/db/memory_repository.go:916-924 | Slice and index stay in step; the result is `Search.Absorb`. |
| Search.MergeIsJoin | internal/db/memory_repository.go:916-961 | Each memory appears once, its keyword, vector and access scores are the maxima over exactly its rows, and its chunk is a best keyword row whenever one exists. |
| Search.CombineTakesMaxima | internal/db/memory_repository.go:926-946 | Combining takes the larger of each score and the chunk of the better keyword row. |
| Search.JoinDominatesItsRows | internal/db/memory_repository.go:926-961 | A merged total is never below the total of any of its rows. |
| Search.MergeIgnoresRowOrder | internal/db/memory_repository.go:916-961 | Reordering or repeating rows changes no memory's score. |
| Search.SearchMemories | internal/db/memory_repository.go:607-687 | Refuses a limit below one; else computes `Search.SearchOutcome` from the rows SQLite returned, which Ranked.AnswerIsRankedByScore describes. |
| Search.SearchVectorCandidates | internal/db/memory_repository.go:736-914 | Merged, sorted by similarity for the JSON backend, and cut to the candidate limit. |
| Search.StableSortSorts | internal/db/memory_repository.go:677-686 | The sort is a permutation in rank order. |
| Search.StableSortKeepsTies | internal/db/memory_repository.go:677-686 | The sort is stable: the results that tie with any given one come out in the order they went in. |
| Search.SearchReturnsTheBest | internal/db/memory_repository.go:656-687 | Each memory is answered once, as the join of its own candidates; the answer is the top of these, in the order that Ranked.AnswerIsRankedByScore gives in scores. |
| Ranked.AnswerIsRankedByScore | internal/db/memory_repository.go:677-686 | The totals never rise along the answer, equal totals come newest update first, the answer has as many results as the limit allows, and none left out has a greater total, or an equal one and a later update. |
| Ranked.NoBetterRowIsPassedOver | internal/db/memory_repository.go:656-687 | A memory with a candidate row is in the answer, or the answer is full of totals at least that row's. |
| Ranked.KeptAreTheClosest | internal/db/memory_repository.go:812-829 | The JSON backend keeps the most similar merged candidates, closest first, then newest, those without similarity last; sqlite-vec keeps those its query returned first. |
| Ranked.NoCloserRowIsPassedOver | internal/db/memory_repository.go:812-829 | No vector row is passed over for a less similar one by the JSON backend. |
| Ranked.MergeShowsItsRows | internal/db/memory_repository.go:916-946 | A merged result has the most reads and the greatest similarity of its rows, and without a keyword row the last snippet among them. |
| Search.AnswerTakesMaximaOverRawRows | internal/db/memory_repository.go:656-687 | Also over the raw rows before the vector candidates were merged and cut. |
| Ranking.ScoreIsBounded | internal/search/ranking.go:73-165 | Every component keeps to its cap. |
| Ranking.NoWorseScoresNoLower | internal/search/ranking.go:73-165 | The total rises with every signal: a match, a rank nearer to zero, similarity, recency, tier, pin, importance and reads. |
| Ranking.WhatASignalIsWorth | internal/search/ranking.go:73-165 | What one step of each signal is worth: each of 1, 7, 30 and 90 days since the last update or read costs a point, as does each tier below working; a pin gives 3, 25 of importance one, two of the first ten reads one, a full similarity 6, a rank r 10 / (1 + |r|). |
| Ranking.CandidatesCoverTheResult | internal/search/ranking.go:28-47 | The candidate limit covers the result limit if and only if that is at most 500. |
| Ranked.CandidatesByDepth | internal/search/ranking.go:28-47 | As many candidates as results at the shallow depth, three times as many by default, eight times at the deep one, and never more than 500. |
| Parser.LineReader.Next | internal/db/export.go:599-614 | Reads up to the newline, strips one LF and one CR, and refuses blank lines. |
| Ndjson.SplittingInvertsJoining | internal/db/export.go:599-614 | Splitting inverts joining under LF or CRLF line by line, with or without a final newline. |
| Ndjson.LinesSurviveExactlyWhen | internal/db/export.go:599-614 | Lines survive writing and reading if and only if none is blank, contains a newline or ends in a carriage return. |
| Ndjson.MarshalRecordLines | internal/db/export.go:497-545 | The six loops write the records type by type with their checksum. |
| Ndjson.ChecksumRecordLines | internal/db/export.go:547-554 | The hasher is fed each line and a newline. |
| Ndjson.AppendAcceptsExactlyEntries | internal/db/export.go:628-690 | A record is accepted if and only if its only payload is the one its type names. |
| Ndjson.GroupingInvertsListing | internal/db/export.go:497-545 | Grouping the records of an export by type gives the export back. |
| Listings.RecordsComeByType | internal/db/export.go:497-545 | The records of an export come type by type, memories first, so that every row comes after the memory it belongs to. |
| Listings.ExportInOrder | internal/db/export.go:293-495 | An export holds every row of the six tables: memories, events, policies and reads by time and then id, chunks and keywords by memory and then place. |
| Parser.ParseNDJSONExport | internal/db/export.go:556-614 | The reading loop computes `Parser.ParseOn`, with its error for each kind of bad file. |
| Parser.ParsesExactlyStrictFiles | internal/db/export.go:556-690 | A file parses if and only if it is a manifest line and strict record lines with the stated checksum, and then to the stable per-type grouping. |
| Parser.InterleavedStreamIsGrouped | internal/db/export.go:556-667 | Any interleaving of canonical records, under any line endings, parses to its stable grouping, or is refused for its checksum. |
| Parser.ParseInvertsExport | internal/db/export.go:497-667 | Parse after marshal is the identity on export data, also when line endings were changed in transit. |
| Import.ValidateImportData | internal/db/export.go:692-905 | The loops with their seen-maps accept if and only if manifest and rows are acceptable; a wrong manifest is reported as such. |
| Refusals.ManifestPassesExactlyWhen | internal/db/export.go:858-891 | A file of canonical records passes the parser and the manifest check if and only if its manifest has format `pamie.ndjson`, version 1 and this schema version, a date and a program version, and counts and checksums these very records. |
| Refusals.RowsPassExactlyWhen | internal/db/export.go:692-856 | The rows pass if and only if each is whole, belongs to a memory of the file and is distinct, field by field for the six types. |
| Import.SlotKeysNeverCollide | internal/db/export.go:750-775 | The seen-map keys of chunk and keyword indexes never collide. |
| Import.SeenMapsFindDuplicates | internal/db/export.go:757-781 | So no duplicate keyword passes, and with NUL-free memory ids nothing else is refused as a duplicate. |
| Import.SeenMapsAcceptExactlyWhen | internal/db/export.go:757-781 | The seen-maps let a list of keywords through if and only if its rows are valid and distinct and the id of none runs on past a NUL into the word of another. |
| Import.FalseDuplicateExample | internal/db/export.go:776-780 | Two valid, distinct keywords of the memories `a` and `a\0b` that validation refuses as duplicates. |
| ImportApply.EnsureNoImportConflicts | internal/db/export.go:907-946 | Accepts if and only if no row id of the file is in use. |
| ImportApply.ValidationSuffices | internal/db/export.go:948-1059 | If validation and the conflict check accept, applying violates no constraint in any map iteration order, and yields exactly the old rows and the file's rows. |
| ImportApply.KeywordsImported | internal/db/export.go:979-994 | Whatever the order of the memories, all keyword rows of the file are in. |
| Importer.NdjsonImport.ImportNDJSON | internal/db/export.go:221-255 | Succeeds if and only if the file parses, validates and conflicts with nothing; every refusal and every dry run leaves the store as it was; a committed import adds exactly the rows of the file. |
| Importer.NdjsonImport.ApplyKeywords | internal/db/export.go:979-994 | The map iteration, in any order it yields, does what `ImportApply.ImportKeywordsOn` says. |
| Export.Exporter.ExportNDJSON | internal/db/export.go:159-215 | The file is the manifest and the record lines of `Export.ExportOf`. |
| Export.Exporter.ReadExportData | internal/db/export.go:269-495 | The six ordered reads. |
| Listings.ManifestDescribesTheFile | internal/db/export.go:159-215 | The manifest of an export holds format and versions, the time, the program version or `unknown`, the number of rows of each type and the checksum of their lines. |
| Export.ExportIsAcceptedExactlyWhen | internal/db/export.go:692-905 | The export of a store of valid rows validates if and only if the JSON texts of its policies are objects. |
| Counterexamples.RefusedExportExample | internal/db/export.go:893-905 | From an empty store: a policy is created with the scope `[]`, and the export of that store is refused. |
| RoundTrip.RestoredStoreExportsTheSame | internal/db/export.go:293-495 | Importing an export into an empty store and exporting again gives the same rows in the same order. |
| RoundTrip.ExportRestores | internal/db/export.go:159-255 | Export, parse, validate, import, export: the same rows, record lines and checksum. |
| Exportable.EveryHistoryIsExportable | internal/memory/service.go:187-696 | Every store reached by service calls holds only rows that import validation accepts, policies aside. |
| Exportable.EveryHistoryCanBeMoved | internal/db/export.go:159-255 | So after any history of calls from an empty store, its export restores to a store with the same export. |

## Left out

- Integer width, float rounding and NaN: scores, similarities and vectors are reals, counts are unbounded; the limiter's tokens are integers scaled to nanoseconds per minute, with refill = elapsed time times requests per minute (internal/httpserver/ratelimit.go:99-106). Overflow of very large day counts is not modelled.
- Timestamps are integer instants, and 0 is Go's zero time. The store compares them as text, and its format trims trailing zeros of the fraction, so text order is time order only for equal widths (internal/db/types.go:274-276, section 5.1 of RFC 3339).
- One embedding target is configured throughout, so the embedding tables are keyed by chunk id alone; changing provider, model or scope between calls is not modelled.
- What SQLite itself does: SQL text, FTS5 matching, `bm25`, snippets and the nearest-neighbour search. Tables are maps, and the rows that searches return are inputs. The AFTER UPDATE trigger on chunks is not modelled, as no statement updates a chunk.
- JSON, SHA-256, FNV, `TrimSpace`, `ToLower`, random ids, the clock and the embedder are parameters, with only the laws stated in `Texts.Lawful` and `Codec.Faithful`. Decoding inverts encoding for canonical records, whose payload and tiers are the only ones for their JSON text, and for valid UTF-8 text, which Go's JSON presupposes.
- Error messages: only the kind of an error is modelled.
- Cancellation of a context is modelled for RunLifecycle and the worker only; concurrent writers, also between the six reads of an export, are not.
- `Repository.Store` methods leave the statements executed so far in place when they fail; the callers roll back, as WithinTx does (internal/db/store.go:215-236). Failing commits are modelled only for the index writes, where the source goes on after them.
- History.IndexesAgreeOverEveryHistory: true statuses need the index writes of updates to persist, because the source writes the memory first and ignores a failed index write; IndexUpdate.LostWriteGoesStaleExactlyWhen says exactly when that leaves a stale status.
- Traces.EveryDeletionFollowsItsArchiving: histories without tier-setting updates and imports, because those set or leave the archive tier without `archived_at`.
- LifecycleConvergence.FixpointAfterFourRuns: needs all live memories within the batch limit, because memories that never change can fill the oldest-first batch.
- Export.ExportIsAcceptedExactlyWhen: policies are stored without checking that their JSON is an object, so a store can hold policies whose export an import refuses; memory ids are assumed free of NUL, as newID makes them.
- Import into a store in use is not followed by index invariants: an imported chunk need not equal its memory's body.
- Search filters, Recent, Stats, ListEvents and ListEmbeddings: queries that would add only easy members.
- The daemon, CLI, HTTP routing, MCP, configuration, tokens and scopes, migrations as a process, backups, the Ollama provider, logging and audit.
