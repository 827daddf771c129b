# Verified model of the vault's indexing and embedding core

This project models the parts of the vault server that keep derived data in step with the notes, and proves what
they keep:

- **The embedding runtime.** Producers edit notes and submit upsert and remove intents stamped with generations; one
  coordinator takes batches, reads and chunks notes, embeds, commits under a lifecycle gate or requeues with backoff,
  tracks the first pass, decides when the store may be queried, and writes a cache behind a dirty flag.
  `RuntimeState` is the state behind the mutex and one function per critical section; `RuntimeWorld` the transition
  system (one step per critical section or read of shared data, so a run is an interleaving at lock granularity);
  `RuntimeInvariant` to `RuntimeRuns` the inductive invariant; `RuntimeEffects` what one step can do;
  `RuntimeTheorems` and `RuntimeGuarantees` the results; `RuntimeServing` when the first pass ends, the store opens and
  the cache has to be written; `RuntimeLaws` which work a take takes, how failed work waits and what the status reports,
  in the fields a caller sees; `RuntimeWitness` runs from spawning that show their exceptions
  are real; `RuntimeCell` the same critical sections as methods that update fields in place; `RuntimeDrain` how fast due
  work drains along a run; `RuntimeProgress` that the coordinator is never stuck and every batch ends; `ShutdownFence` the shutdown protocol at the
  granularity of single operations under the gate; `SubBatch` the bounded embedding requests; `EmbeddingStore` the
  rows of the store.
- **The vault index.** `LinkResolver` the two lookup tables of wikilink resolution, `VaultIndex` the index object and
  its operations, `IndexWitness` what sequences of operations lead to, `Orphans` the orphan report over it.
- **The chunker.** `Utf8` bytes, character boundaries and trimming; `Sections`, `SplitPoint`, `ChunkSpans`, `Chunker`
  the loops and the functions they compute; `HeadingText` which lines of the text are headings and what their trails are;
  `ChunkTheorems` and `ChunkPieces` what the pieces guarantee and where they come from.
- **The vault registry** (`VaultRegistry`), **frontmatter** (`Frontmatter`), **semantic over-fetch**
  (`SemanticSearch`) and **bounded multi-note reading** (`ReadMany`).

`Common` holds optional values, paths, their order, and sorting. `dafny verify dfyconfig.toml` checks everything.

History fields. The transition system records, beside the program's state, which paths were edited since their last
submission, the generation and kind last submitted for each path, the paths settled at least once, and the headings
and body each note's rows were computed from. They are never read by a step except to update themselves.

Where the code and its own comments disagree, the model follows the code:

- `chunk_note` is documented to cover every byte of the body; it trims pieces and skips blank ones, so every byte that
  is not white space is covered (`ChunkTheorems.EveryNoteIsWellChunked`).
- Committing a note's chunks is documented as atomic. It is all or nothing because all vectors of one validated batch
  have one dimension, so a refused insertion is the first one; but it then leaves the note without rows and reports
  nothing to persist (`EmbeddingStore.RewriteNote`, `RuntimeGuarantees.RefusedCommitAndCache`).
- The content hash covers the body and the chunk size, not the headings that the summary row embeds. A note whose
  headings and body were read at different moments can keep a summary of older headings until its body changes;
  `RuntimeGuarantees.QuietHeadings` gives the exact condition and `RuntimeWitness.StaleSummaryIsReached` a run.
- A removal submitted after a note was created again leaves an indexed note without rows;
  `RuntimeGuarantees.QuietAgreesWithIndex` gives the exact condition and `RuntimeWitness.LateRemovalIsReached` a run.
- The incremental backlink update is documented as safe whenever the file was already indexed. Two notes whose paths
  differ only in case or normal form share a lookup key, and then it can differ from a rebuild;
  `VaultIndex.Index.ReindexFile` gives the exact condition, `VaultIndex.SteadyPatchSuffices` the guard and
  `IndexWitness.PatchGoesWrong` the failing vaults.
- Opening a vault happens at most once per id unless a call is dropped between opening and registering
  (`VaultRegistry.OpensAreAccountedFor`).

## Model

| member | source | states |
|---|---|---|
| EmbeddingStore.ContentHashInjective | src/vault/embedding_runtime.rs:896-905 | For one path and configuration, equal content hashes mean equal bodies: the title is the file stem of the path, so nothing but the body can vary. |
| EmbeddingStore.MapOfRows | src/vault/embedding_runtime.rs:814-827 | Zipping the keys of a note (its chunks in order, then its summary) with vectors yields exactly one row per chunk plus one summary row, each with its own vector, under one hash. |
| EmbeddingStore.RewriteNote | src/vault/embedding_runtime.rs:1048-1059 | Removing a note's rows and inserting new ones under vectors of one dimension is all or nothing: exactly the new rows if that is the store's dimension, otherwise exactly the removal; other notes' rows stay. |
| EmbeddingStore.RowsOwnership | src/vault/embeddings.rs:462-467 | A rewritten note has exactly its new rows and every other note the rows it had. |
| EmbeddingStore.RemoveNoteOwnership | src/vault/embeddings.rs:462-467 | Removing a note drops exactly its rows, and changes the store exactly when it had any. |
| EmbeddingStore.RetainPathsOwnership | src/vault/embeddings.rs:518-523 | Retaining a set of paths keeps the rows of these notes as they are and drops all others. |
| EmbeddingStore.FreshDependsOnSummary | src/vault/embedding_runtime.rs:953-976 | Recomputing an unchanged body under other headings gives the same rows if and only if the summary text is the same; chunk rows never depend on the note's headings. |
| EmbeddingStore.FreshRowsAre | src/vault/embedding_runtime.rs:896-976 | A recomputation row by row: chunk `i` embeds prefix and chunk text, the summary embeds prefix and summary text, all under title, configuration and body as hash; there is no other row, and none at all for a body without chunks. |
| RuntimeRuns.Keeps | src/vault/embedding_runtime.rs:437-828 | The runtime invariant is inductive: every one of the 26 kinds of step keeps it. |
| RuntimeRuns.RunInv | src/vault/embedding_runtime.rs:437-640 | Every state of every run, from spawning on and in every interleaving of producers, coordinator and shutdown, satisfies the invariant. |
| RuntimeInvariant.InitInv | src/vault/embedding_runtime.rs:246-299 | A freshly spawned runtime, over any cache an earlier run left on disk, satisfies the invariant. |
| RuntimeGuarantees.QuiescentStore | src/vault/embedding_runtime.rs:712-828 | In every reachable attached state with nothing pending, in flight or unsubmitted, every note has exactly the rows of a recomputation of its current body (none if it is unindexed or yields no chunk), if and only if no indexed note with chunks was removed last; and these are the rows under the current headings too if and only if besides no summary text tells the recorded headings from the current ones. |
| RuntimeGuarantees.QuietAgreesWithIndex | src/vault/embedding_runtime.rs:907-1074 | For one path without outstanding work or unsubmitted edits: its rows are a recomputation of its current body if and only if it is not an indexed note with chunks whose last submitted intent was a removal. |
| RuntimeGuarantees.QuietRemovedHasNoRows | src/vault/embedding_runtime.rs:987-1014 | A quiet path that was last removed, or is not indexed, has no rows. |
| RuntimeGuarantees.QuietHeadings | src/vault/embedding_runtime.rs:748-761 | The rows of a quiet note equal the recomputation under its current headings if and only if the summary text does not tell the recorded headings from the current ones. |
| RuntimeGuarantees.QuietIsUpToDate | src/vault/embedding_runtime.rs:907-1074 | For one quiet path: its rows are exactly the recomputation under its current headings and body if and only if it was not removed too late and its summary stands. |
| RuntimeGuarantees.RowsAreCompleteOrAbsent | src/vault/embeddings.rs:453-460 | In every reachable state a note has chunk 0 exactly when it has its summary and exactly when it has any row, and its chunk ordinals are dense from 0, so the probe on chunk 0 stands for the note. |
| RuntimeWitness.LateRemovalDisagrees | src/vault/embedding_runtime.rs:987-1014 | From any running state in which a due removal for an indexed note with chunks is all that is queued, a few steps lead to a quiet state in which the note does not agree with the index. |
| RuntimeWitness.LateRemovalIsReached | src/vault/embedding_runtime.rs:987-1014 | The exception is real: for any note with chunks there is a run from spawning (create, submit the upsert, submit a late removal) to a state with nothing pending, in flight or unsubmitted whose store does not agree with the index. |
| RuntimeWitness.StaleSummaryStays | src/vault/embedding_runtime.rs:748-761 | A current upsert whose body is the stored one is marked done without touching the store, whatever headings it was read with; the rows then equal the recomputation under these headings if and only if the summary text does. |
| RuntimeWitness.StaleSummaryIsReached | src/vault/embedding_runtime.rs:748-761 | The other exception is real: a run from spawning, with one edit between indexing and reading, to a quiet store that agrees with the index but keeps the summary of older headings, whenever the summary text tells the two heading lists apart. |
| RuntimeBatchProofs.ProbeMeansSameBody | src/vault/embedding_runtime.rs:749-761 | The hash probe on chunk 0 succeeds if and only if the stored rows were computed from exactly this body. |
| RuntimeGuarantees.StoreFollowsLatestIntent | src/vault/embedding_runtime.rs:987-1074 | At every step of every run, a note's rows change only while the runtime lives and only when the item being carried out for that very note carries the last generation and kind submitted for it. |
| RuntimeTheorems.RowsFollowLatestIntent | src/vault/embedding_runtime.rs:1003-1007 | The same for a single step from any state of the invariant: no commit, mark-unchanged or requeue of an older generation changes the store. |
| RuntimeGuarantees.PendingIsNewest | src/vault/embedding_runtime.rs:1292-1306 | If a path is both pending and in flight the pending generation is strictly newer, and the pending intent is the last one submitted. |
| RuntimeGuarantees.IntentsSurvive | src/vault/embedding_runtime.rs:314-343 | At every step of every run a pending intent is kept unchanged, taken into a batch under its own generation, or replaced by a newer submission; it is never lost or overwritten by older work. |
| RuntimeLaws.TakesAreFirstDue | src/vault/embedding_runtime.rs:678-710 | At every take of every run the batch holds due pending work only, each path once, removals before upserts and by path within a kind; what is due and left behind comes after 32 others. |
| RuntimeLaws.FirstDueIsBatch | src/vault/embedding_runtime.rs:684-708 | Conversely any list with these properties is the batch. |
| RuntimeState.DelayDoubles | src/vault/embedding_runtime.rs:1308-1311 | The wait before a retry is one second at first and at most thirty, and doubles up to there. |
| RuntimeState.RetryIsLater | src/vault/embedding_runtime.rs:1096-1113 | A retried item keeps path, generation and kind, counts one attempt more up to 255, and is due one to thirty seconds later: one after a first failure, thirty from the sixth attempt on. |
| RuntimeLaws.PutBackComesBack | src/vault/embedding_runtime.rs:1096-1113 | At any step that puts the latest intent for a note back: it is pending again one attempt on, due exactly 1, 2, 4, 8, 16 or 30 seconds after the clock reading of that step, its failure is recorded with the reason of that step, and it has left the in-flight table and the first pass. |
| RuntimeLaws.NoEarlyRetry | src/vault/embedding_runtime.rs:678-687 | Over every run: the first take that takes a failed intent again happens no earlier than its wait after the failure, with the attempt counted. |
| RuntimeTheorems.PendingIntentKept | src/vault/embedding_runtime.rs:1096-1113 | The same for a single step, whatever becomes of older work for the path. |
| RuntimeTheorems.OutstandingUntilResolved | src/vault/embedding_runtime.rs:1076-1113 | A path that is pending or in flight stays so until a step in which its latest intent is carried out: in that step it leaves the queue and the in-flight table, is recorded as settled, its failure is cleared and it comes off the first pass. |
| RuntimeTheorems.OutstandingOverRun | src/vault/embedding_runtime.rs:712-828 | Over any stretch of a run, an outstanding path is still outstanding, or some step in between carried out its latest intent and took it out of the queue. |
| RuntimeEffects.StepEffect | src/vault/embedding_runtime.rs:712-828 | Every step has one of nine effects on queue and rows, each given in full: an intent filed under the next generation, a batch moved to in flight, rows adopted from the cache, a first pass started over the current paths, an item superseded, settled, queued for retry or refused, or nothing; rows change only for the item's own note. |
| RuntimeGuarantees.PublishedOnTime | src/vault/embedding_runtime.rs:535-564 | The store is open to queries only if the loaded cache was marked complete, or for every note of the first pass some earlier step of the run settled it, by success or by a recorded failure; once open it stays open. |
| RuntimeServing.StepServes | src/vault/embedding_runtime.rs:535-564 | For every step from any state of the invariant: the first pass ends exactly in a live finalization with nothing left to wait for; the store opens exactly when a complete cache with rows (or no note) is published, when the first pass ends with rows (or no note), or when a later commit succeeds; and the dirty flag is set exactly by dropped stray rows, the completion mark, a removal that had rows and a successful commit, and cleared exactly by a successful write. |
| RuntimeServing.ServedExactly | src/vault/embedding_runtime.rs:1115-1152 | In every state of every run the first pass is over if and only if some earlier step ended it, and the store is open if and only if some earlier step opened it, in the terms above. |
| RuntimeServing.RunServes | src/vault/embedding_runtime.rs:1134-1150 | In every state of every run: with the first pass over, a store with rows is open; the completion mark is set exactly if the loaded cache had it or the first pass is over; and a live runtime between batches that waits for no note has ended the first pass. |
| RuntimeServing.RestedRowsAreServed | src/vault/embedding_runtime.rs:1134-1150 | So a live runtime between batches whose first pass waits for no note serves queries as soon as it has any row. |
| RuntimeServing.DrainedIsComplete | src/vault/embedding_runtime.rs:1126-1150 | A live runtime between batches that has worked off its queue has completed the first pass, is marked complete, and serves queries if it has any row. |
| RuntimeServing.LoadKeeps | src/vault/embedding_runtime.rs:528-534 | Loading adopts exactly the cached rows of the notes that still exist, or none; dirty means that a stray row was dropped; publishable means an accepted cache marked complete. |
| RuntimeGuarantees.SettledBySomeStep | src/vault/embedding_runtime.rs:1089-1113 | A path recorded as settled was settled by a definite earlier step: its latest intent left the in-flight table in it, carried out with no failure on record or queued again with its failure recorded, and the first pass stopped waiting for it. |
| RuntimeGuarantees.FirstPassHasWork | src/vault/embedding_runtime.rs:1115-1136 | The notes the first pass still waits for all have pending or in-flight work, and every initial note is waited for or was settled: the first pass cannot get stuck. |
| RuntimeGuarantees.WorkConserved | src/vault/embedding_runtime.rs:1276-1290 | Between batches of a live runtime nothing is in flight; every failure has outstanding work; the reported count equals the number of distinct outstanding paths; readiness is reported only with nothing outstanding, no failure and a finished first pass. |
| RuntimeGuarantees.RunStatus | src/vault/embedding_runtime.rs:1190-1215 | The count and phase of the status are consistent with the queue in every reachable state, between refreshes too. |
| RuntimeLaws.RefreshReports | src/vault/embedding_runtime.rs:1187-1209 | A refresh reports the persistence error before any note's failure; the phase is degraded exactly with an error and ready exactly when without one the first pass is over and nothing is outstanding; queryable means attached and open; the counts are exact. |
| RuntimeLaws.CountReports | src/vault/embedding_runtime.rs:1276-1290 | Between refreshes the status changes in its count only, except that a ready runtime without an error turns to warming exactly when work is outstanding. |
| RuntimeLaws.LoaderFailureReports | src/vault/embedding_runtime.rs:441-466 | A loader that fails stops the runtime as degraded, with the error, nothing served and exact counts. |
| RuntimeLaws.PersistReports | src/vault/embedding_runtime.rs:651-672 | Writing the cache puts the store on disk and clears dirty flag and persistence error; failing to write records the error and leaves the rest. |
| RuntimeTheorems.RunAdvances | src/vault/embedding_runtime.rs:528-640 | Between any two states of a run attachment, publication and the end of the first pass never go back, and after the stop flag neither store nor disk changes. |
| RuntimeGuarantees.FrozenAfterStop | src/vault/embedding_runtime.rs:74-96 | From the first state in which the runtime was told to stop, store and cache on disk stay as they are, at lock granularity. |
| RuntimeGuarantees.CacheCoherent | src/vault/embedding_runtime.rs:643-676 | From the first successful persist, or from an accepted cache with nothing dropped, on: whenever the dirty flag is false the disk holds exactly the store, across all commits, removals, finalizations and failed writes, when model and store have one dimension. |
| RuntimeGuarantees.RefusedCommitAndCache | src/vault/embedding_runtime.rs:1060-1073 | With different dimensions a refused commit leaves the dirty flag false, and the disk then holds the store if and only if the note had no rows. |
| RuntimeSteps.CommitCases | src/vault/embedding_runtime.rs:814-827 | Committing one changed note: the vectors left always cover it, so the branch for too few vectors is unreachable; the outcome is decided by liveness, currency and the two dimensions. |
| RuntimeBatchProofs.NextSlice | src/vault/embedding_runtime.rs:777-827 | Slicing the flat list of vectors by per-note counts gives each note the embeddings of exactly its own texts, and leaves those of the notes after it. |
| RuntimeBatchProofs.CommitRowsResult | src/vault/embedding_runtime.rs:1048-1074 | A commit with the right vectors makes the note's rows exactly the recomputation of its body, finishes the item and opens the store after the first pass; or leaves only the removal. |
| RuntimeBatchProofs.BatchFinished | src/vault/embedding_runtime.rs:712-828 | When the loops over a batch have passed every item, nothing is left in flight of a live runtime: each taken item was settled. |
| RuntimeSteps.KeepsSettleItem | src/vault/embedding_runtime.rs:741-764 | Settling one prepared item (remove, fail, unchanged, or queue for embedding) keeps the invariant. |
| RuntimeSteps.KeepsCommit | src/vault/embedding_runtime.rs:814-827 | Each round of the commit loop keeps the invariant, the refused insertion included. |
| RuntimeSteps.KeepsRequeueNext | src/vault/embedding_runtime.rs:733-737 | Requeueing a whole batch after a failed task keeps the invariant. |
| RuntimeProofs.KeepsAttach | src/vault/embedding_runtime.rs:538-564 | Publishing model and store, with an upsert for every current path that has no pending work, keeps the invariant. |
| RuntimeProofs.KeepsLoadCache | src/vault/embedding_runtime.rs:528-534 | Adopting or rejecting the cache and dropping rows of paths that are gone keeps the invariant. |
| RuntimeDrain.BatchSettles | src/vault/embedding_runtime.rs:712-828 | From the taking of a batch to the next time the coordinator of a run is ready to take one, with nothing queued and nothing failing: nothing is left in flight, every item of the batch was settled, and exactly the batch's failures and first-pass entries are cleared. |
| RuntimeDrain.BatchesDrain | src/vault/embedding_runtime.rs:678-710 | Along any stretch of a run in which nothing is submitted, published or queued again: after k batches exactly 32 k of the due items have left the queue, or all of them, and the rest are untouched. |
| RuntimeDrain.DrainsInCeiling | src/vault/embedding_runtime.rs:698-708 | In such a stretch n due items have left the queue if and only if at least n/32 batches, rounded up, were taken. |
| RuntimeProgress.NeverStuck | src/vault/embedding_runtime.rs:437-640 | In every state of every run the coordinator has stopped or some step of its own is possible, a take of the first due work included. |
| RuntimeProgress.OwnStepGoesOn | src/vault/embedding_runtime.rs:712-828 | Within a batch every step of the coordinator goes on to finalizing or brings the end of the batch nearer, failures included. |
| RuntimeProgress.BatchEnds | src/vault/embedding_runtime.rs:712-828 | Over every run: whatever producers do meanwhile, the coordinator is out of a batch after at most five steps of its own for each of its at most 32 items, and seven more. |
| RuntimeCell.Runtime.constructor | src/vault/embedding_runtime.rs:246-299 | Spawning queues one upsert per indexed note, each under a generation of its own, with the state otherwise blank and warming. |
| RuntimeCell.Runtime.Submit | src/vault/embedding_runtime.rs:314-343 | Submitting files the intent under the next generation in place of an older pending one, and updates the count. |
| RuntimeCell.Runtime.AttachStore | src/vault/embedding_runtime.rs:538-564 | The whole new state after publication; each current path without pending work is queued exactly once. |
| RuntimeCell.Runtime.TakeDueBatch | src/vault/embedding_runtime.rs:678-710 | The batch is the first 32 due items, removals before upserts and by path; each moves from pending to in flight under its own generation; the earliest remaining retry time and emptiness are exact. |
| RuntimeCell.Runtime.MarkSuccess | src/vault/embedding_runtime.rs:1076-1094 | Finishes a current item: it alone leaves in-flight table, failures and first pass; an item with a newer intent pending only leaves the in-flight table. |
| RuntimeCell.Runtime.RequeueFailure | src/vault/embedding_runtime.rs:1096-1113 | A current failed item comes back to pending with path, generation and kind kept, one attempt more up to 255 and a due time one to thirty seconds later; its failure is recorded, it leaves in-flight table and first pass; a superseded one only leaves the in-flight table; no other path is touched. |
| RuntimeCell.Runtime.CommitRemove | src/vault/embedding_runtime.rs:987-1014 | Nothing happens after shutdown; a superseded item only leaves; otherwise exactly the note's rows go, and the result tells whether there were any. |
| RuntimeCell.Runtime.CommitUpsertChunks | src/vault/embedding_runtime.rs:1022-1074 | The same three cases for an upsert: the rows are those of removing the note and inserting row by row until a refusal; success finishes the item and may open the store, refusal requeues it. |
| RuntimeCell.Runtime.FinalizeReconciliation | src/vault/embedding_runtime.rs:1115-1152 | The first pass completes exactly while live, started, not yet complete and with nothing left to wait for; then the store is marked complete, and it is open exactly if it was, or there is no note, or it has rows; otherwise neither changes. |
| RuntimeCell.Runtime.RefreshStatus | src/vault/embedding_runtime.rs:1176-1215 | The refreshed status reports a persistence error before a note's failure, and counts indexed, total and outstanding notes exactly. |
| RuntimeCell.TakenIsBatch | src/vault/embedding_runtime.rs:684-708 | The first 32 of the sorted due list form the batch that the step relation asks for: no due item left out precedes one taken. |
| ShutdownFence.NothingAfterDrop | src/vault/embedding_runtime.rs:74-96 | In every interleaving of any number of gated operations with the drop, nothing changes the store or the cache once the drop has returned. |
| ShutdownFence.OnlyEarlierPassers | src/vault/embedding_runtime.rs:75-80 | After the flag is cleared an operation may still act only if it had passed its liveness check before. |
| ShutdownFence.ClearingAloneIsNotEnough | src/vault/embedding_runtime.rs:77-86 | Clearing the flag without passing the gate is not enough: a run in which an effect follows. |
| SubBatch.EmbedInSubBatches | src/vault/embedding_runtime.rs:835-877 | For any positive request size, success yields for every text the vector of that text alone, in order; failure occurs if and only if some request fails four times in a row, with the last error of the first such request. |
| SubBatch.EmbedGroup | src/vault/embedding_runtime.rs:844-869 | One request succeeds if and only if one of its four attempts answers with as many vectors as texts, all of the model's dimension; otherwise it reports the provider's last error, or which of the two checks failed last. |
| SubBatch.GroupsAre | src/vault/embedding_runtime.rs:835-844 | The requests hold the texts in order, none is empty, and all but the last have the full size. |
| Common.SortedList | src/vault/embedding_runtime.rs:690-697 | Collecting a set and sorting it lists each element once in ascending order. |
| Common.PathLeIsByComponents | src/vault/embedding_runtime.rs:690-697 | The order of paths is that of their components: the first component that differs decides, and a prefix comes first. |
| Common.TextLeIs | src/vault/embedding_runtime.rs:690-697 | The order of texts: a prefix comes first, and otherwise the first character that differs decides. |
| LinkResolver.StemResolvesToBearer | src/vault/wikilink.rs:40-54 | A target without a slash resolves to a note if and only if that note is the only indexed one with the target's stem. |
| LinkResolver.StemResolutionIsBySet | src/vault/wikilink.rs:104-110 | Resolution by stem depends on the set of indexed paths only, not on the order of insertion. |
| LinkResolver.ResolutionIsBySet | src/vault/wikilink.rs:40-76 | When the path table lists every indexed path, all resolution depends on the set of indexed paths only. |
| LinkResolver.ResolvesTo | src/vault/wikilink.rs:40-76 | When the path table lists every indexed path: an empty target resolves to nothing, one with a slash exactly to the note with that path key, any other exactly to the only note with that stem. |
| LinkResolver.DistinctKeysStaySteady | src/vault/wikilink.rs:84-110 | While path keys are distinct the path table stays complete under additions and removals. |
| LinkResolver.TouchedResolution | src/vault/wikilink.rs:84-110 | Removing and re-adding an indexed path changes the resolution of a target if and only if the target is that path's own key and the path table spoke for another note under it. |
| LinkResolver.RemoveKeepsInv | src/vault/wikilink.rs:84-97 | Removing a path keeps both tables exact for the remaining paths. |
| LinkResolver.InsertKeepsInv | src/vault/wikilink.rs:104-110 | Adding a new path keeps both tables exact. |
| LinkResolver.InsertTwiceIsAmbiguous | src/vault/wikilink.rs:99-110 | Inserting a path that is already listed makes its stem ambiguous, so stem links to it stop resolving. |
| LinkResolver.RemoveUndoesInsert | src/vault/wikilink.rs:84-97 | Removing a path drops every listing of it: after an insertion, even a double one, it leaves what removing it without the insertion leaves. |
| LinkResolver.RemovalKeepsStray | src/vault/wikilink.rs:82-95 | If only `q` is listed wrongly, removing any path leaves it so. |
| LinkResolver.InsertKeepsStray | src/vault/wikilink.rs:103-109 | If only `q` is listed wrongly, adding any other path leaves it so. |
| VaultIndex.BacklinksUnique | src/vault/index.rs:459-474 | A backlink map is exact for given notes and resolver if and only if it is the one computed from all notes at one go. |
| VaultIndex.SumsSplit | src/vault/index.rs:476-486 | The size and link totals do not depend on the order in which notes are visited. |
| VaultIndex.Index.constructor | src/vault/index.rs:58-146 | Building from a walk that meets each path once indexes exactly the parsed notes and excluded paths and counts and sums exactly the other files, with exact tags, resolver, backlinks and statistics. |
| VaultIndex.Index.ReindexFile | src/vault/index.rs:154-179 | From any state with exact tags: after success notes, tags and statistics are exact; backlinks are exact for a new file, and for a known one if and only if `PatchSuffices`, in particular whenever the path table spoke for the file; the resolver is exact if at most this file was listed wrongly, and another wrong listing stays the only one; a parse failure takes the note out and leaves backlinks and statistics as they were. |
| VaultIndex.Index.RemoveFile | src/vault/index.rs:182-190 | From any state with exact tags, backlinks and statistics are exact after removal whatever they were; the resolver is exact if and only if at most this file was listed wrongly. |
| VaultIndex.Index.RenameFile | src/vault/index.rs:193-211 | From any state with exact tags: after success backlinks and statistics are exact; tags are if and only if an overwritten note's tags are among the new ones; tags and resolver are, with at most the old path listed wrongly before, if and only if the new path was not indexed already; after a parse failure only the resolver lists the new path. |
| VaultIndex.Index.AddExcludedFile | src/vault/index.rs:303-310 | From any state with exact tags, backlinks and statistics are exact after excluding a file whatever they were; the resolver is exact if and only if at most this file was listed wrongly. |
| VaultIndex.Index.UpdateBacklinksForFile | src/vault/index.rs:427-457 | Patching takes out exactly the file's entries at its old targets and adds its new ones; emptied keys go. |
| VaultIndex.Index.RebuildBacklinks | src/vault/index.rs:459-474 | Rebuilding makes the backlinks exact whatever they held. |
| VaultIndex.Index.RemoveNoteContributions | src/vault/index.rs:406-421 | Taking a note out keeps the tag index the exact inverse of the remaining notes, without empty buckets. |
| VaultIndex.Index.RecomputeStats | src/vault/index.rs:476-486 | The statistics equal their definitions. |
| VaultIndex.Index.NotesWithTagPrefix | src/vault/index.rs:231-247 | Prefix search returns each note with the tag or a tag below it, exactly once. |
| VaultIndex.Index.BrokenLinks | src/vault/index.rs:263-276 | The list holds exactly the links with a non-empty target that resolves to nothing, under their notes, each as often as its note holds it. |
| VaultIndex.BacklinksAre | src/vault/index.rs:249-255 | With exact backlinks the backlinks of a note are exactly the indexed notes with a link that resolves to it. |
| VaultIndex.PatchIsRebuild | src/vault/index.rs:423-457 | Patching one file's backlinks gives the rebuilt map if and only if no other note's targets moved with the resolver and every old target the resolver no longer yields is a target again. |
| VaultIndex.SteadyPatchSuffices | src/vault/index.rs:423-426 | The guard for the incremental path: if the path table spoke for the file, or no slash target can reach it, patching is exact for all notes and all links. |
| VaultIndex.UnsteadyPatchFails | src/vault/index.rs:423-426 | Without the guard, any third note with just a link to the file's key makes patching differ from rebuilding. |
| IndexWitness.ClashBreaksPatch | src/vault/index.rs:423-426 | Whenever two indexed notes share a lookup key and a third one links to it, patching one of the two differs from rebuilding, whatever its own links. |
| IndexWitness.PatchGoesWrong | src/vault/index.rs:154-179 | From any walk with such a clash: the index is built right in every respect, and re-indexing one of the two notes with unchanged content leaves backlinks that differ from a rebuild. |
| IndexWitness.VaultClashes | src/vault/wikilink.rs:112-139 | Such a vault exists under the program's case-folding keys: A/x.md, a/x.md and a note that links to a/x. |
| IndexWitness.FailedRenameHeals | src/vault/index.rs:193-211 | After a rename whose new file did not parse, and the removal of any other file, re-indexing the new file makes the whole index exact again. |
| VaultIndex.TagsAfterOverwrite | src/vault/index.rs:199-206 | Overwriting a note keeps the tag index exact if and only if the old tags are among the new ones. |
| VaultIndex.CoreGivesCoreBut | src/vault/index.rs:154-211 | With exact tags and resolver no path is listed wrongly, so every operation on any path keeps both exact. |
| Orphans.WikilinksOrphans | src/tools/graph.rs:252-304 | The report lists each note without resolved edges exactly once, in path order, as having no links exactly when it has no non-empty target, and otherwise with exactly its broken targets, sorted and without repeats. |
| Orphans.IncomingIsBacklinks | src/tools/graph.rs:277-280 | A note has backlinks if and only if a resolved link leads to it. |
| Orphans.OutgoingIsResolved | src/tools/graph.rs:282-288 | A note has a resolved target if and only if an edge leads out of it. |
| Orphans.DisconnectedIsListed | src/tools/graph.rs:252-275 | A note without edges has either no target at all or a broken one, so one of the two sources of the report holds it. |
| Orphans.GroupBroken | src/tools/graph.rs:264-270 | Grouping the broken links gives each note exactly the set of its broken targets. |
| Utf8.SliceWellFormed | src/vault/chunker.rs:268-274 | A slice between character boundaries is well-formed text and has the same boundaries inside. |
| Utf8.BoundaryIsNear | src/vault/chunker.rs:219-222 | Backing up to a character boundary takes at most three bytes. |
| Utf8.TrimKeepsInk | src/vault/chunker.rs:283-290 | Trimming loses white space only. |
| Utf8.EncodedIsWellFormed | src/vault/chunker.rs:215-223 | What encoding any characters one after the other yields is well formed, so well-formed texts are all that the program can meet. |
| Utf8.BoundariesAreBetweenCharacters | src/vault/chunker.rs:219-222 | In encoded text the boundaries are exactly the places between characters. |
| Utf8.SpaceIsUnicode | src/vault/chunker.rs:283-290 | The byte patterns taken for white space are exactly the white-space characters of Unicode. |
| Utf8.TrimIs | src/vault/chunker.rs:283-290 | Trimming yields the text between the first and the last byte that is not white space. |
| Utf8.TrimIsUnique | src/vault/chunker.rs:283-290 | And nothing else does. |
| SplitPoint.FindSplit | src/vault/chunker.rs:215-248 | The loop returns the cut: all of a text within the limit; otherwise, with `cap` the last boundary within the limit, the end of the last occurrence of the first of the eight breaks that occurs beyond half of `cap`, and `cap` itself exactly when none does. |
| SplitPoint.SplitIsCut | src/vault/chunker.rs:215-248 | The split point is that cut, for every text and limit, the eight breaks given byte by byte. |
| SplitPoint.CutIsUnique | src/vault/chunker.rs:215-248 | No other place is. |
| SplitPoint.FindLast | src/vault/chunker.rs:226-246 | Searching backwards finds the last occurrence. |
| SplitPoint.FirstGoodIsBest | src/vault/chunker.rs:226-247 | The chosen cut follows the last occurrence of a break beyond half of the window, and no break preferred to it occurs there; with none at all, no break does. |
| SplitPoint.SplitLaws | src/vault/chunker.rs:212-248 | The cut lies on a character boundary, within the limit and beyond half of the window; from four bytes on it always makes progress. |
| Sections.FindSections | src/vault/chunker.rs:120-179 | One pass over the lines with a stack of headings and a fence computes exactly the sections; `HeadingText.SectionsAreHeaded` says in terms of the text where they are cut. |
| HeadingText.HeadingsAreThese | src/vault/chunker.rs:128-165 | A heading is found if and only if its line lies outside every fence, is no fence line, and after white space has one to six hashes and then white space; its level is the number of hashes and its text the trimmed rest. A line lies inside a fence exactly when some earlier fence line that itself lay outside opened one and no line of that mark in between closed it. |
| HeadingText.SectionsAreHeaded | src/vault/chunker.rs:148-179 | The sections of a non-empty body are cut exactly at these headings, after a preface with an empty trail unless the body starts with one, each under the trail of its heading. |
| HeadingText.ChainIsTrail | src/vault/chunker.rs:156-163 | The trail lists, in order, exactly the headings up to there whose level is strictly below that of every later one. |
| Sections.PopTo | src/vault/chunker.rs:158-160 | Popping a rising stack removes exactly the headings at the new level or deeper. |
| Sections.ChainSnoc | src/vault/chunker.rs:156-162 | A new heading hides the headings at its level and deeper and joins the trail: the stack refines the previous-smaller-level chain. |
| Sections.ChainMembers | src/vault/chunker.rs:156-162 | A heading is in the trail if and only if its level is strictly below that of every later heading up to there. |
| Sections.ChainInOrder | src/vault/chunker.rs:162-163 | The trail keeps document order. |
| Sections.SectionCount | src/vault/chunker.rs:148-178 | Sections correspond one to one to the headings outside fences, after a preface with an empty trail unless the body starts with a heading; each starts at its heading and carries its trail. |
| Sections.SectionsPartition | src/vault/chunker.rs:148-178 | The sections of a non-empty body are consecutive non-empty spans from its start to its end, each beginning at a line start. |
| Chunker.Pack | src/vault/chunker.rs:186-210 | Packing groups consecutive sections under the first one's trail, within the target unless a group is one section, and each group could not take in the next section. |
| Chunker.PackedCovers | src/vault/chunker.rs:181-210 | Packing loses no section. |
| Chunker.ChunkSection | src/vault/chunker.rs:264-304 | The cursor loop over one section computes exactly its pieces. |
| Chunker.TakePiece | src/vault/chunker.rs:271-281 | The piece length is the split point, or everything left, under the hard ceiling backed up to a character boundary. |
| Chunker.StepForward | src/vault/chunker.rs:295-303 | The next cursor is strictly later, at most the overlap back, and on a boundary or at the piece's end. |
| Chunker.ChunkNote | src/vault/chunker.rs:255-311 | The chunks are the pieces of the sections, or of the packed sections, in order, numbered densely; it succeeds exactly when no piece would end inside a character. |
| ChunkSpans.TakeLaws | src/vault/chunker.rs:271-281 | With a target of at least four bytes a piece is not empty, at most the target, ends on a boundary, and the hard ceiling is never reached. |
| ChunkSpans.TakeIs | src/vault/chunker.rs:271-281 | For every target: a piece is the cut; if that is empty it is all that is left, if that is at most twice the target, and else ends at the last boundary within twice the target, taking one byte if there is none. |
| ChunkSpans.FourIsTheSmallestTarget | src/vault/chunker.rs:271-281 | Pieces keep within the target and on boundaries for every text if and only if the target is at least four. |
| ChunkSpans.SmallTakeLaws | src/vault/chunker.rs:276-281 | With a target of two or three pieces still end on boundaries and keep to the hard ceiling. |
| ChunkSpans.SpanLaws | src/vault/chunker.rs:269-303 | The spans of a section walk from its start to its end: each ends at the cut of what is left, on boundaries and within the target; the next starts strictly later, without a gap, at the first boundary from the overlap before that end on. |
| ChunkSpans.WalkIsUnique | src/vault/chunker.rs:269-303 | These laws determine the spans: each ends at its cut, the next starts at the first boundary from the overlap before that end on but after the start of the one before, and only the last reaches the end. |
| ChunkSpans.NextFollows | src/vault/chunker.rs:295-303 | The next cursor is where the rewind should end. |
| ChunkSpans.WalkCovers | src/vault/chunker.rs:269-303 | Every position of a section lies in some span. |
| ChunkTheorems.SectionLaws | src/vault/chunker.rs:264-304 | One section yields only good pieces, which show every byte of it but white space. |
| ChunkTheorems.EveryNoteIsWellChunked | src/vault/chunker.rs:250-311 | For every well-formed body and every target of at least four bytes, packing on or off: chunking succeeds; every piece is the non-empty trimmed text of a span within the target between boundaries of one section, under its trail; every byte but white space is shown by some piece at its own place. |
| ChunkTheorems.ChunksShowTheBody | src/vault/chunker.rs:250-311 | For the chunks themselves: indices are dense from 0, texts are non-empty, well-formed and at most the target, the breadcrumb is that of the trail, and every byte but white space is part of some chunk's text at its own place, at or after the chunk's offset. |
| ChunkPieces.SectionPieces | src/vault/chunker.rs:264-304 | A blank section yields nothing; any other yields, in order and with rising offsets, exactly the trimmed texts of the spans of its walk that are not blank. |
| ChunkPieces.ChunksInOrder | src/vault/chunker.rs:250-311 | Chunks come in the order of the text: each starts strictly after the one before it. |
| ChunkPieces.PieceTrail | src/vault/chunker.rs:250-311 | Each chunk carries the trail of the headings shown where the section it was cut from starts, or with packing the first section of its group; without packing that is the trail shown at the chunk itself. |
| ChunkPieces.CrumbJoins | src/vault/chunker.rs:114-116 | The breadcrumb joins the trail with " > ". |
| ChunkTheorems.TrimIsWellFormed | src/vault/chunker.rs:283-290 | Trimming keeps characters whole. |
| VaultRegistry.Keeps | src/daemon/vault_registry.rs:82-135 | The registry invariant (one lock per id, one holder per lock, no context while one is being opened, accounted openings) is inductive over interleaved calls. |
| VaultRegistry.NeverReplaced | src/daemon/vault_registry.rs:131-134 | A registered context is never replaced in any interleaving. |
| VaultRegistry.OneContextPerVault | src/daemon/vault_registry.rs:82-149 | All calls that succeed for one id, whenever they return and whatever failed before, return the same context. |
| VaultRegistry.CallEnds | src/daemon/vault_registry.rs:82-149 | At every step of every run: a call that looks its vault up returns the registered context exactly if there is one and the watcher starts, and fails exactly if there is one and it does not; a registering call returns what it opened; failed or dropped calls fail; a call that has ended holds no lock; no other call is touched. |
| VaultRegistry.ContextStep | src/daemon/vault_registry.rs:131-134 | Only a registration adds a context, and it adds the one its call opened. |
| VaultRegistry.OpensAreAccountedFor | src/daemon/vault_registry.rs:105-134 | Successful openings of an id equal one if registered, plus one if an opening is about to be registered, plus those dropped in between; so at most one if none was dropped. |
| VaultRegistry.DroppedOpeningIsRepeated | src/daemon/vault_registry.rs:118-134 | A concrete run in which one vault is opened twice because each of two calls is dropped between opening and registering. |
| VaultRegistry.OneHolder | src/daemon/vault_registry.rs:105-109 | At most one call per id is past its init lock. |
| VaultRegistry.Tables.EnsureVault | src/daemon/vault_registry.rs:82-135 | A call on its own returns the registered context, registers a fresh one only if there was none, and changes nothing when opening fails. |
| Frontmatter.ExtractRaw | src/vault/frontmatter.rs:8-39 | The loop finds the first line that is a closing mark, up to carriage returns, and nothing if the block is not opened or not closed. |
| Frontmatter.ExtractIsBlock | src/vault/frontmatter.rs:8-39 | A file has exactly the block that its text shows: after "---" and a line feed, with or without a carriage return, at the very start, up to the first line of three hyphens and nothing but carriage returns; what follows that line is the body. |
| Frontmatter.ParseIs | src/vault/frontmatter.rs:55-85 | A file without a block parses to nothing, a blank block and one that is no mapping to no fields, a mapping to its fields, and a parse error is returned. |
| Frontmatter.BodyIs | src/vault/frontmatter.rs:43-48 | The body is what follows the block, and without a block the whole file. |
| Frontmatter.SetField | src/vault/frontmatter.rs:136-151 | Setting rebuilds the file as opening line, printed fields with the one added, closing line and body; under the assumed laws every other field and the body come back as they were; a parse error is returned. |
| Frontmatter.RemoveField | src/vault/frontmatter.rs:155-178 | Removing an absent field returns the file unchanged; removing the last one leaves the bare body; otherwise every other field and the body come back as they were; a parse error is returned. |
| Frontmatter.ClosesAfter | src/vault/frontmatter.rs:17-39 | A block without a closing line inside is closed by the line after it, whatever follows. |
| Frontmatter.RebuiltExtracts | src/vault/frontmatter.rs:181-194 | For any body, even one that starts like a block, and any non-empty mapping, extracting from the rebuilt file gives back exactly that mapping and body. |
| Frontmatter.SetAddsOneField | src/vault/frontmatter.rs:136-151 | Setting a field adds it and leaves every other field and the body as they were. |
| Frontmatter.RemoveDropsOneField | src/vault/frontmatter.rs:155-178 | Removing one of several fields leaves the others and the body as they were, and removing the only one leaves the bare body. |
| Frontmatter.SetThenRemove | src/vault/frontmatter.rs:136-178 | Setting a new field and removing it restores a file without frontmatter byte for byte, and mapping and body when the mapping was not empty; otherwise it leaves the bare body. |
| Frontmatter.BareBodySurvives | src/vault/frontmatter.rs:173-178 | For an empty mapping the body survives set-then-remove if and only if it does not itself read as starting with a block. |
| Frontmatter.EmptyBlockBeforeBlock | src/vault/frontmatter.rs:173-178 | A concrete family that fails it: a file whose empty block is followed by another block, whatever comes after. |
| SemanticSearch.LimitCovers | src/tools/search.rs:493-502 | The candidate limit lies between the wanted number and the cap, and is zero only for zero. |
| SemanticSearch.LimitIs | src/tools/search.rs:493-502 | The candidate limit is zero for zero, twenty more than wanted for up to six, four times as many below fifty, and two hundred from there on. |
| SemanticSearch.VisibleIs | src/tools/search.rs:705-749 | Filtering lists exactly the visible hits, once each and in the order of the ranking. |
| SemanticSearch.CollectVisible | src/tools/search.rs:705-749 | The loop with early exit returns the first wanted number of visible hits. |
| SemanticSearch.PrefixSuffices | src/tools/search.rs:542-593 | Filtering and taking from a prefix of the ranking equals doing so from the whole ranking if and only if the prefix holds enough visible hits or all of them. |
| SemanticSearch.OverfetchIsSound | src/tools/search.rs:542-593 | For every ranking and visibility, the over-fetched answer equals that of the fully filtered ranking when at most limit minus k fetched hits are hidden. |
| SemanticSearch.OverfetchBoundIsTight | src/tools/search.rs:493-502 | That bound is tight for every k: with one more hidden hit there is a ranking that is answered differently. |
| ReadMany.NoteReadMany | src/tools/notes.rs:167-324 | Limits default to 20 files and 65536 bytes and are capped at 100 and 262144; a zero limit is refused. Otherwise the call ends at the first inspected candidate whose answers hold an error that is not about one file; without one, an inspected candidate is returned, under its canonical path and with its content, if and only if canonical path, size and content are obtained and size and content are within the budget left by the notes before it, and is skipped for the byte limit, as missing or as unreadable exactly as its answers say; the rest are skipped for the file limit, and the first hundred skips are detailed in order. |
| ReadMany.FateIs | src/tools/notes.rs:244-303 | What becomes of one candidate under a given budget, case by case in terms of what the vault answers. |
| ReadMany.Inspect | src/tools/notes.rs:244-303 | The loop over the inspected candidates with its budget, list of notes and skip account. |
| ReadMany.RecordSkipped | src/tools/notes.rs:365-375 | Every skip is counted; details are kept for the first hundred. |
| ReadMany.Accounting | src/tools/notes.rs:238-324 | On success returned notes plus skipped count equal the candidates, the byte count is the exact sum and within the budget, and skip details number the smaller of the skipped count and one hundred. |
| ReadMany.BudgetHolds | src/tools/notes.rs:262-298 | The bytes taken never exceed the budget, so the subtraction for what remains cannot underflow. |
| ReadMany.NotesKeepOrder | src/tools/notes.rs:299-303 | Returned notes keep the order of the candidates, and no readable candidate within budget is missing. |
| ReadMany.LimitsInForce | src/tools/notes.rs:327-340 | Only an explicit zero is refused; otherwise the limit in force is the requested one or the default, cut at the cap. |

## Left out

- Generations are unbounded; the wrap-around of the 64-bit counter at src/vault/embedding_runtime.rs:1292-1298 is not modelled.
- Real time: clock readings are arbitrary inputs of steps; no fairness between paths is claimed, since due work is ordered by kind and path. Whether the coordinator persists or waits is a free choice.
- Atomics are sequentially consistent; lock poisoning and panics are left out, except that failed preparation and inference tasks requeue their batch.
- The chunk configuration, the packing switch, the embedding parameters and the text prefixes are fixed over a run and between a run and the cache it loads; the content hash covers neither packing nor prefixes.
- The steps of the transition system carry out a batch over values; the same critical sections with their fields updated in place are the methods of `RuntimeCell.Runtime`. `process_batch` itself, which is asynchronous, is modelled as steps only.
- The dirty flag is updated at each commit instead of once per batch; nothing reads it in between.
- Normalisation of submitted paths, relocation of old caches, the cache file format, and loading the model: a cache is accepted or rejected as a whole by a free choice.
- Vectors are opaque apart from the text they embed and their dimension; scores, ranking and provenance of hits are left out. Content hashing is taken as injective.
- RuntimeGuarantees.CacheCoherent: requires model and store to have one dimension; `RuntimeGuarantees.RefusedCommitAndCache` covers the other case.
- SubBatch.EmbedInSubBatches: requires a provider whose accepted answers depend on each text alone; the pauses between attempts are left out.
- The incremental index operations are proved for one operation at a time from any state that meets their precondition; event batching in the watcher is not part of this model.
- Note parsing (headings, links, tags) and Unicode normal forms: parsed notes and lookup keys are inputs of the index model. Full-text, regex and frontmatter searches of the index are left out.
- Frontmatter: the YAML library is a parameter whose assumed laws are written out in `Frontmatter.Lawful`; a printing failure, which drops the block, is not modelled.
- Chunker.ChunkNote: a slice inside a character, which stops the program, is modelled as an absent result; it cannot occur for targets of two bytes or more.
- ReadMany.NoteReadMany: the list of candidates, from explicit paths or a directory scan, is an input, and content is counted in the units its length is given in.
- VaultRegistry.OpensAreAccountedFor: loading the shared embedding model once is not modelled, nor are mismatched models and paths, which fail before anything shared is touched.
- `ChunkConfig::from_env`, the status texts, the daemon protocol, HTTP and tool handlers, manifests, process handling and the lexical index are left out; they would add only easy members.
