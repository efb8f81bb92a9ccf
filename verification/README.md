# Verified model of Codex session synchronisation

A Dafny model of the synchronisation server and of the client core that keeps a
local Codex home, a workspace and remote revisions together. `dafny verify
dfyconfig.toml` checks all of it.

**Server.** `Metadata` holds the tables as values and every transaction as a
function on them; `MetadataStore` is the store itself, a class whose methods run
the transactions step by step and are proved against those functions. `Catalog`
gives uploaded documents their content graphs, `Validation` the nested loops that
check one before a commit. `Server` is the state machine: uploads, the single
checks of concurrent commits, truncation, restore, purge and collection, the
effects of a sweep one by one, failures, crashes, restarts and the clock, with the
shared/exclusive gate as part of the state. `History` and `HistoryRuns` prove what
the revision forest and the commit token keep over every run, `HistoryAnswers` what
each history transaction answers and leaves, `PurgeLaws` what a purge destroys.
`GcSafety` and `GcRuns` prove what garbage collection keeps, `GcAges` what exactly it
takes, and `AppState` that the handlers' loops over the tables and the typed object
stores are runs of that machine. `ObjectGraph` is reachability, `ObjectStore` the store of
object files with its uploads, quarantine and removal.

**Checkout.** `Checkout` is a second state machine: directory and file swaps,
database backups, journal writes and the tracking update, one rename or write per
step, with failures and crashes anywhere, also inside rollback and recovery.
`CheckoutSafety` proves what every run keeps, `CheckoutCompletion` when an apply
completes, `CheckoutRecovery` from exactly which points recovery gets to an end,
`CheckoutHome` the loops of apply, rollback and recovery on a class,
`CheckoutJournals` the scan that blocks a second checkout, `Tracking` the table of
integrated heads. `Projects`, `ProjectLaws` and `ProjectState` are the assignment of
threads to projects.

**Merging and staging.** `Threads` is the part of a thread that two machines must
agree on. `Merge`, `Resolve` and `Staging` are the programs' loops over ordered
sets of threads, with `KeyedLists` for reading lists by id and `Blanks` for ids that
are empty after trimming; `StagingLaws` proves that the two independently written
algorithms agree.

**Bytes.** `CanonicalJson` and `Revision` are the text behind revision ids,
`RevisionReader` reads it back,
`JsonReader` a recursive-descent reader of JSON with the rules of serde_json,
`Provider` the rewrite of a rollout file line by line with any reader,
`JsonRollouts` what holds of it with that one, `SessionRecords` what it does to the
records that a reader sees, `SourceIndex` the cache of normalised
rollouts.

## Assumptions

- SHA-256 is injective: a digest is modelled by what was digested, or by a number.
- An immediate SQLite transaction, a rename and a journal write are atomic. A
  journal write in fact removes and then renames
  (crates/sync-core/src/local.rs:1821-1839), so this is an assumption.
- The server's clock never goes backwards. Request handlers run to their end or to
  an error, or the whole process stops; cancelling a handler is not modelled.
- Rust integers wrap in the one place where the program increments one unchecked
  (the generation in crates/sync-core/src/sync.rs:150-214).
- Strings are their UTF-8 bytes. A float is the text that prints it, so two floats
  are equal if they print alike.
- Reading a float and printing it again is a parameter of the reader, since
  serde_json without `float_roundtrip` (Cargo.toml:34) need not read back what it
  printed; everything else about reading JSON is in `JsonReader`.
- Two processes that begin a checkout of one home are not both between the scan and
  the writing of the journal: the program takes no lock there, and
  `CheckoutJournals.TwoScansTwoCheckouts` shows what happens otherwise.
- Normalising a rollout is a deterministic function of its bytes and the thread id.

## Where the code does other than its documentation or tests suggest

- Committing a revision some document of which refers twice to the same object
  (two equal chunks, say) always fails, on the primary key of the edge table:
  `Validation.TwinChunksAreRefused`, `Validation.ValidationIsExact`.
- Equal canonical bytes do not mean equal payloads: the local source paths are not
  serialised. `Revision.BytesIdentifyTheRevision` has the exact condition.
- Generations grow only below the largest 64-bit value:
  `Tracking.WriteLowersIffItWraps`.
- Applying project assignments twice reports a change, though it makes none, if
  two threads with one id spell their workspaces differently: `ProjectLaws.ApplyTwice`.
  That takes a direct call. A checkout cannot get there, since a snapshot with a
  repeated id is refused when it is loaded (crates/sync-core/src/local.rs:1426-1429),
  and for all others the second call is silent: `ProjectLaws.SecondCallIsSilent`.
- Recovery is refused for ever for a checkout that stopped inside its own rollback
  after the local changes had been applied: `CheckoutRecovery.RefusalHappens`,
  `CheckoutRecovery.InterruptedRollbackIsRefusedForEver`.
- Collection spares objects recorded less than an hour ago, but the sweep that a
  restart resumes looks at reachability only. An entry left pending by a failed
  collection takes its object then, however recently this was uploaded again:
  `GcAges.YoungIsMovedIffUploadedAgain`, `RestartExample.RestartMovesYoungObject`.
  Nor does uploading an object that still has its row begin another hour:
  `GcAges.UploadIsRecorded`.
- Rewriting a rollout in stages gives other bytes than rewriting it at once if a
  session record has a float that is not printed as it is read:
  `JsonRollouts.RewriteFusesExactly`, `JsonRollouts.UnstableFloatBreaksFusion`.

## Model

| member | source | states |
|---|---|---|
| `ObjectGraph.ReachIsPathReach` | apps/sync-server/src/metadata.rs:1372-1384 | the recursive query finds exactly the objects that a path of edges links to a root, on any edge table, cycles included |
| `ObjectGraph.ReachLeast` | apps/sync-server/src/metadata.rs:1372-1384 | the result of the query is the least set that holds the roots and is closed under edges |
| `ObjectGraph.SweepKeepsReach` | apps/sync-server/src/metadata.rs:1098-1121 | deleting every edge into and out of an unreachable object leaves the reachable set as it is |
| `ObjectGraph.RelinkKeepsReach` | apps/sync-server/src/metadata.rs:539-561 | replacing the edges of an unreachable owner leaves the reachable set as it is |
| `HistoryInvariant.ChainIsLinear` | apps/sync-server/src/metadata.rs:802-814 | of two revisions on one parent chain one is an ancestor of the other |
| `HistoryInvariant.CommitKeepsHistory` | apps/sync-server/src/metadata.rs:721-776 | a commit keeps the forest invariant: the active revisions of a namespace are the ancestors of its head, and every active trash operation owns exactly the segment it cut |
| `HistoryInvariant.TruncateKeepsHistory` | apps/sync-server/src/metadata.rs:802-835 | truncation keeps the forest invariant and tags exactly the segment from the old head down to, not including, the new head |
| `HistoryInvariant.RestoreKeepsHistory` | apps/sync-server/src/metadata.rs:884-901 | a restore keeps the forest invariant |
| `HistoryInvariant.PurgeKeepsHistory` | apps/sync-server/src/metadata.rs:938-955 | a permitted purge keeps the forest invariant, so the revisions that are not purged stay closed under parent |
| `HistoryInvariant.SurvivorKeepsParent` | apps/sync-server/src/metadata.rs:1241-1251 | no surviving revision loses its parent to a permitted purge |
| `HistoryInvariant.PurgeRefusedIffItOrphans` | apps/sync-server/src/metadata.rs:1241-1251 | the refusal is exact: a purge is refused if and only if it would orphan a revision that is not purged |
| `HistoryInvariant.ParentOfSegment` | apps/sync-server/src/metadata.rs:802-814 | the parent of a trashed revision is trashed with it or is the head the history was cut back to |
| `HistoryInvariant.RevisionCountsMatchTrash` | apps/sync-server/src/metadata.rs:819-831 | the revision counts of the active trash operations of a namespace add up to the number of its trashed revisions |
| `HistoryRuns.StepEvolves` | apps/sync-server/src/metadata.rs:748-769 | each step that moves a head strictly increases the pair (epoch, depth of head) |
| `HistoryRuns.CreatedMeansUntouched` | apps/sync-server/src/metadata.rs:695-720 | over every run, a commit answered Created proves that nobody moved the head since the client read (head, epoch) |
| `HistoryRuns.TokenNeverReturns` | apps/sync-server/src/metadata.rs:815-835 | once a commit token has been replaced it never comes back |
| `HistoryRuns.AtMostOneCreated` | apps/sync-server/src/metadata.rs:748-780 | of all commits against one (head, epoch), in any run, at most one is answered Created |
| `HistoryRuns.RestoreGivesBackTheChain` | apps/sync-server/src/metadata.rs:863-907 | a successful restore gives back exactly the chain that was active at truncation, whatever happened in between |
| `HistoryRuns.ActiveRevisionsAreStored` | apps/sync-server/src/metadata.rs:884-895 | in every reachable state every object of every active revision, restored ones included, is in the object store |
| `HistoryAnswers.CreatedExactly` | apps/sync-server/src/metadata.rs:695-780 | a commit is answered Created if and only if the namespace is at the head and epoch expected, the id is new and the parent is that head; the revision is then an active row with its root row and the new head, and nothing else changes |
| `HistoryAnswers.AlreadyCommittedExactly` | apps/sync-server/src/metadata.rs:701-720 | a commit is answered AlreadyCommitted if and only if this very revision, root row included, is the head at the epoch expected; nothing changes |
| `HistoryAnswers.CommitRefusesExactly` | apps/sync-server/src/metadata.rs:695-720 | a refused commit is told the present epoch, or for a new revision the present head, where these are not the expected ones |
| `HistoryAnswers.CommitCanBeRetried` | apps/sync-server/src/metadata.rs:701-716 | after any commit that went through, committing the same revision again with any expected head is answered AlreadyCommitted and changes nothing |
| `HistoryAnswers.TruncationAnswersExactly` | apps/sync-server/src/metadata.rs:785-841 | a truncation goes through if and only if the namespace is at the head and epoch expected, the new head is strictly below on its chain, at most 100,000 revisions are cut and the epoch can grow; every table after it is given, with thirty days to expiry |
| `HistoryAnswers.TruncationRefusesExactly` | apps/sync-server/src/metadata.rs:793-800 | which error a refused truncation gives, with the present head or epoch |
| `HistoryAnswers.RestoringAnswersExactly` | apps/sync-server/src/metadata.rs:871-907 | a restore goes through if and only if the operation is in the trash of the namespace, has not expired and was cut to the present head, which is the expected one; every table after it is given |
| `HistoryAnswers.RestoringRefusesExactly` | apps/sync-server/src/metadata.rs:871-895 | which error a refused restore gives |
| `HistoryAnswers.ProtectedWhileRestorable` | apps/sync-server/src/metadata.rs:1372-1377 | collection protects a trashed revision exactly as long as its operation could be restored if the namespace were back at the head it was cut to |
| `HistoryAnswers.CommitFinishesExactly` | apps/sync-server/src/api.rs:666-703 | a commit whose checks have passed changes the history exactly if its document has the announced namespace and parent and the namespace is still at the head and epoch expected; the revision of the document is then added |
| `HistoryAnswers.TruncateStepExactly` | apps/sync-server/src/metadata.rs:785-841 | a truncation that finds the gate free cuts the history as above or changes nothing at all |
| `HistoryAnswers.RestoreStepExactly` | apps/sync-server/src/metadata.rs:863-907 | a restore that finds the gate free brings the trash back as above or changes nothing at all |
| `HistoryAnswers.RestoredWithinThirtyDays` | apps/sync-server/src/metadata.rs:815-831 | over every run a restore comes less than thirty days after the truncation it undoes |
| `HistoryAnswers.RestorableForThirtyDays` | apps/sync-server/src/metadata.rs:884-890 | in every run, at any later free moment, restoring a truncation changes the history if and only if it is still in the trash, the request knows head and epoch, the head is the one cut to, and less than thirty days have passed |
| `HistoryAnswers.StoredAsCommitted` | apps/sync-server/src/metadata.rs:721-776 | over every run each stored revision was created by one commit, and its row and root row still say what its document says |
| `MetadataStores.MetadataStore.CommitRevisionRoot` | apps/sync-server/src/metadata.rs:676-783 | the commit transaction, branch by branch, leaves the tables that the specification of a commit gives, or an error and the old tables |
| `MetadataStores.MetadataStore.TruncateHistory` | apps/sync-server/src/metadata.rs:785-841 | the truncation with its cursor loop, depth limit and error cases leaves the tables of its specification |
| `MetadataStores.MetadataStore.WalkDown` | apps/sync-server/src/metadata.rs:802-814 | the cursor loop collects exactly the active segment between the two heads, and fails exactly if there is none or it is too long |
| `MetadataStores.MetadataStore.RestoreHistoryTrash` | apps/sync-server/src/metadata.rs:863-907 | the restore transaction with its epoch, head, state and expiry checks |
| `MetadataStores.MetadataStore.ReplaceObjectEdges` | apps/sync-server/src/metadata.rs:539-561 | the edges of one owner are replaced; a repeated target violates the primary key and rolls everything back |
| `MetadataStores.MetadataStore.ReachableObjects` | apps/sync-server/src/metadata.rs:1368-1388 | the worklist over the edge table returns exactly what the protected roots reach |
| `MetadataStores.MetadataStore.BuildGcPlan` | apps/sync-server/src/metadata.rs:1390-1434 | the accumulating loop plans exactly the unreachable objects that are old enough, or reports a byte overflow |
| `MetadataStores.MetadataStore.EnqueueGc` | apps/sync-server/src/metadata.rs:972-1012 | a plan is queued only while it is current, one pending entry per candidate |
| `MetadataStores.MetadataStore.CompleteGcEntry` | apps/sync-server/src/metadata.rs:1098-1121 | the object loses its row and all its edges and its pending entry becomes quarantined |
| `MetadataStores.MetadataStore.CancelGcEntry` | apps/sync-server/src/metadata.rs:1123-1136 | only a pending entry is cancelled |
| `MetadataStores.MetadataStore.MarkGcEntryPurged` | apps/sync-server/src/metadata.rs:1138-1148 | only a quarantined entry that is to be deleted is marked purged |
| `MetadataStores.MetadataStore.BuildHistoryTrashPurgePlan` | apps/sync-server/src/metadata.rs:1171-1307 | the selection checks, the refusal on dependent trash and the union of the stored graphs of the selected roots |
| `MetadataStores.MetadataStore.CommitHistoryTrashPurge` | apps/sync-server/src/metadata.rs:921-965 | replans, refuses a stale plan, purges operation by operation and queues what became unreachable |
| `MetadataStores.MetadataStore.EnqueueObjectsForPurge` | apps/sync-server/src/metadata.rs:1309-1366 | queues for deletion exactly the candidates that are stored and unreachable after the purge |
| `Catalog.ChecksCoverGraph` | apps/sync-server/src/api.rs:720-781 | the checks that validation performs reach every object of the content graph of a root |
| `Validation.ValidationIsExact` | apps/sync-server/src/api.rs:720-835 | a root passes validation if and only if every document parses and fits its reference, every object is stored with its length, and no document refers to one object twice |
| `Validation.FoundIsContentGraph` | apps/sync-server/src/api.rs:738-780 | what an accepting validation collects is the content graph of the root, no more and no less |
| `Validation.LinksPassIffNoRepeats` | apps/sync-server/src/metadata.rs:539-561 | when everything else about a revision is in order, writing the edges of its documents succeeds if and only if no document refers to one object twice |
| `Validation.RepeatedReferenceIsNeverCommitted` | apps/sync-server/src/metadata.rs:550-556 | over every run, a commit of a revision some document of which repeats a reference never gets through its checks |
| `Validation.TwinChunksAreRefused` | apps/sync-server/src/metadata.rs:550-556 | a revision that is in perfect order and completely stored, but whose manifest lists one chunk twice, is refused |
| `Validation.Validator.ValidateRevisionGraph` | apps/sync-server/src/api.rs:720-781 | the nested loops succeed exactly on committable roots, return exactly the content graph and link every owner to its targets |
| `Validation.Validator.ValidateContent` | apps/sync-server/src/api.rs:783-835 | one content reference: the whole object, or the manifest, its identity, its chunks and their edges |
| `Validation.Validator.ValidateContents` | apps/sync-server/src/api.rs:763-770 | the rollout and the attachments of one descriptor, in order, until one fails |
| `Validation.Validator.ValidateThreads` | apps/sync-server/src/api.rs:743-775 | the descriptors of a root, in order, until one fails |
| `GcSafety.StepKeeps` | apps/sync-server/src/api.rs:88-153 | every step of the server (upload, validation, commit, truncate, restore, purge, collection, one effect of a sweep, failure, crash, restart, clock) keeps the safety invariant |
| `GcSafety.GarbageCollectionIsSafe` | apps/sync-server/src/api.rs:121-153 | in every state of every run each object in the content graph of an active revision, or of a revision in unexpired trash, is in the object store |
| `GcSafety.CheckedGraphIsSolid` | apps/sync-server/src/api.rs:666-703 | when a commit has passed all its checks, holding the gate shared, its whole graph is stored and linked, and no sweep can have taken any of it |
| `GcSafety.RestoreProtectsNoMore` | apps/sync-server/src/metadata.rs:884-895 | a restore revives only revisions that collection was still protecting |
| `GcSafety.TruncateProtectsNoMore` | apps/sync-server/src/metadata.rs:815-835 | truncation protects nothing that was not protected |
| `GcSafety.PurgeProtectsNoMore` | apps/sync-server/src/metadata.rs:938-955 | a purge protects nothing that was not protected |
| `GcSafety.LaterProtectsLess` | apps/sync-server/src/metadata.rs:1376-1377 | as time passes, what is protected only shrinks |
| `GcRuns.OnlyGarbageIsMoved` | apps/sync-server/src/api.rs:127-149 | a file leaves the object store only by quarantine, and only if no protected revision reaches it at that moment |
| `GcRuns.ReachableIsRestorable` | apps/sync-server/src/metadata.rs:1368-1388 | in every state that satisfies the safety invariant the query over the stored edges finds exactly what the content graphs of the protected revisions hold |
| `GcRuns.PurgeCondemnsUnreachable` | apps/sync-server/src/metadata.rs:1309-1366 | a purge condemns exactly those objects of the purged graphs that are stored and unreachable after it |
| `GcRuns.PurgeQueuesTheRest` | apps/sync-server/src/metadata.rs:921-965 | of all a purge planned it queues exactly what is in the content graph of no revision that can still be restored |
| `GcRuns.RunKeepsQueue` | apps/sync-server/src/metadata.rs:1098-1148 | in every run the persistent queue, the quarantine and the sweep agree |
| `GcRuns.RestartDrainsTheQueue` | apps/sync-server/src/api.rs:88-96 | a server that serves after a restart has no pending and no undeleted entry left, and what is recorded as deleted is gone |
| `GcRuns.RunKeepsLengths` | apps/sync-server/src/metadata.rs:1309-1366 | in every run the rows of the store and of the queue record the length of the uploaded object |
| `GcRuns.PlanAfterSweepIsEmpty` | apps/sync-server/src/metadata.rs:1390-1434 | with the clock fixed, planning again right after a collection that met no failure finds nothing |
| `GcAges.ReachableIsHeld` | apps/sync-server/src/metadata.rs:1368-1388 | under the forest invariant the query finds an object if and only if a path of edges leads to it from the root document of an active revision or of one in trash that has not expired |
| `GcAges.CollectionQueuesGarbage` | apps/sync-server/src/metadata.rs:972-1012 | starting a collection queues exactly the objects recorded an hour ago or more that no such path reaches, with their lengths, provided the fingerprint lists exactly those; otherwise it changes nothing |
| `GcAges.QueuedAsGarbage` | apps/sync-server/src/metadata.rs:1390-1411 | over every run an entry that is not a deletion of trash was queued by a collection, when its object had been recorded for an hour or more and no such path reached it |
| `GcAges.UploadIsRecorded` | apps/sync-server/src/metadata.rs:515-537 | a finished upload leaves its object with the row it had, or with one of this moment and the length uploaded |
| `GcAges.OnlyOldFilesAreMoved` | apps/sync-server/src/api.rs:121-149 | over every run a collection that was requested moves no file whose object was recorded less than an hour ago |
| `GcAges.YoungIsMovedIffUploadedAgain` | apps/sync-server/src/api.rs:88-96 | a collection resumed by a restart moves such a file if and only if the object was uploaded again, within the last hour, after the entry had been queued |
| `GcAges.EntryTransactions` | apps/sync-server/src/metadata.rs:1098-1148 | completing and cancelling take a pending entry, marking a quarantined one that is to be deleted; completing takes also the row of the object and every edge from or to it; nothing else changes |
| `GcAges.EntriesAdvance` | apps/sync-server/src/metadata.rs:1098-1148 | over every run an entry keeps its length and its purpose, and its state only advances |
| `GcAges.SmoothSweepTakesExactlyGarbage` | apps/sync-server/src/api.rs:121-153 | a collection during which nothing fails takes the rows and the files of exactly the objects that were garbage when it began |
| `GcAges.SmoothSweepLeavesYoungOrHeld` | apps/sync-server/src/metadata.rs:1390-1434 | every row that such a collection leaves is less than an hour old or reached by a path from a revision that can come back |
| `RestartExample.RestartMovesYoungObject` | apps/sync-server/src/api.rs:88-96 | a run in which a resumed collection moves an object in the millisecond in which it was recorded |
| `PurgeLaws.PlannedIffAcceptable` | apps/sync-server/src/metadata.rs:1177-1252 | a purge is planned if and only if it asks for everything, or for distinct operations that are all in the trash of the namespace, there is something to purge, and no surviving revision loses its parent |
| `PurgeLaws.PlanMeans` | apps/sync-server/src/metadata.rs:1210-1307 | the plan names exactly the operations asked for, counts the revisions they hold and lists, with its length, every stored object that a path of edges links to one of them |
| `PurgeLaws.PurgeDestroysWhatWasAsked` | apps/sync-server/src/metadata.rs:921-965 | a request to purge changes nothing, or empties exactly the operations asked for, purges exactly their revisions and takes exactly their root rows; every other operation, revision and root row stays as it is |
| `PurgeLaws.AcceptablePurgeGoesThrough` | apps/sync-server/src/metadata.rs:921-965 | an acceptable request always goes through under an id that is new to the queue |
| `PurgeLaws.OnlyACurrentPlanIsCarriedOut` | apps/sync-server/src/metadata.rs:930-937 | a plan is carried out if and only if planning the same operations again gives that very plan |
| `PurgeLaws.TrashStaysUntilAskedFor` | apps/sync-server/src/metadata.rs:938-955 | over every run what an operation holds stays in the trash, each revision with its root row, until the operation itself is restored or its deletion is asked for |
| `AppStates.ProcessEntriesIsARun` | apps/sync-server/src/api.rs:121-153 | the loop over the entries, with whatever failures of the database and the files, is a sequence of steps of the state machine, ends in the state they lead to, and fails if and only if the sweep does |
| `AppStates.ProcessingContinuesARun` | apps/sync-server/src/api.rs:121-153 | whatever run of the server the loop begins in, its steps continue that run, also when it fails, and the state at its end is safe |
| `AppStates.LoopSucceedsInARun` | apps/sync-server/src/api.rs:112-149 | in any run the loop fails only if the database or the file system does: the length check of the removal never refuses a file |
| `AppStates.ProcessingKeepsReachable` | apps/sync-server/src/api.rs:127-141 | processing entries never changes what is reachable, so each recheck answers what it would have answered when the loop began |
| `AppStates.AppState.ProcessGcEntries` | apps/sync-server/src/api.rs:121-153 | the loop rechecks, moves, completes and deletes each entry in the typed stores, stops at the first failure, and otherwise returns the number and the saturated bytes of those that were unreachable |
| `AppStates.AppState.ProcessGcEntry` | apps/sync-server/src/api.rs:127-150 | one entry: cancelled if and only if its object is reachable again; after a failure of any of its effects the earlier ones stay |
| `AppStates.AppState.PurgeGcEntry` | apps/sync-server/src/api.rs:112-119 | a quarantined file of the queued length is removed and its entry marked; another length is refused |
| `ObjectStores.ObjectStore.PutStream` | apps/sync-server/src/object_store.rs:108-187 | an upload succeeds exactly if every chunk arrives with the announced length and digest and no other length is stored; it then adds exactly those bytes or finds the object there, and otherwise leaves the store as it is |
| `ObjectStores.ObjectStore.WriteVerifiedTemp` | apps/sync-server/src/object_store.rs:349-436 | the chunk loop with its length checks accepts exactly the streams that deliver what was announced |
| `ObjectStores.ObjectStore.Missing` | apps/sync-server/src/object_store.rs:228-259 | the loop returns exactly the absent digests in the order asked, or refuses a digest, a size or a stored length |
| `ObjectStores.AbsentExactly` | apps/sync-server/src/object_store.rs:228-259 | a digest is reported exactly if it was asked for and is not there, as often and in the order it was asked for |
| `ObjectStores.ObjectStore.Quarantine` | apps/sync-server/src/object_store.rs:292-319 | a file is moved whole to its place in quarantine; one that is there already counts as moved |
| `ObjectStores.ObjectStore.PurgeQuarantined` | apps/sync-server/src/object_store.rs:321-347 | a quarantined file of the expected length is removed; one that is gone is no failure |
| `ObjectStores.QuarantineRestarts` | apps/sync-server/src/object_store.rs:292-319 | a collection that stopped after moving a file can move it again: nothing moves and the quarantined bytes are those of the store |
| `ObjectStores.CollectionRestarts` | apps/sync-server/src/object_store.rs:292-347 | moving and removing, however often repeated, come to the same: the file is gone from both places and no other is touched |
| `ObjectStores.PresentMeansSameBytes` | apps/sync-server/src/object_store.rs:141-151 | an upload that finds its object present finds exactly the uploaded bytes |
| `Tracking.TrackingStore.CompareAndSet` | crates/sync-core/src/sync.rs:150-214 | the compare-and-set transaction: the expected generation or nothing, 64-bit widths included |
| `Tracking.TrackingStore.ReconcileCheckout` | crates/sync-core/src/sync.rs:216-343 | the reconciliation transaction with its repeat case and its activation |
| `Tracking.ReconcileEffect` | crates/sync-core/src/sync.rs:216-343 | success leaves the record at the next generation with the head and its old epoch, active if asked, and no other record or binding touched; failure writes nothing |
| `Tracking.ReconcilesExactly` | crates/sync-core/src/sync.rs:228-300 | a reconciliation goes through if and only if the next generation fits its column and the record is at the expected one, or already at the next one with this head and, if asked, its binding active |
| `Tracking.CompareAndSetEffect` | crates/sync-core/src/sync.rs:171-203 | a compare-and-set goes through exactly at the generation expected, or where no record is and none is expected; it stores the new head one generation on and keeps the epoch, every other record and the active bindings |
| `Tracking.SetEpochEffect` | crates/sync-core/src/sync.rs:345-365 | setting the epoch goes through exactly at the generation expected and changes the epoch of that record only |
| `Tracking.ReconcileIsIdempotent` | crates/sync-core/src/sync.rs:260-293 | repeating a successful reconciliation succeeds and writes nothing |
| `Tracking.ReconciledOnce` | crates/sync-core/src/sync.rs:216-343 | over any interleaving with other writers and any number of retries a reconciliation is applied at most once, while the generation of its own key stays below the largest 64-bit value |
| `Tracking.GenerationsGrow` | crates/sync-core/src/sync.rs:150-343 | over any sequence of writes the generation of a key never decreases, while it stays below the largest 64-bit value |
| `Tracking.WriteLowersIffItWraps` | crates/sync-core/src/sync.rs:175-203 | the exact exception: a write lowers a generation if and only if an unchecked increment wraps at the largest 64-bit value |
| `CheckoutSafety.StepKeeps` | crates/sync-core/src/checkout.rs:386-479 | every rename, backup, journal write, tracking write, failure and crash, in apply, in-process rollback and recovery, keeps the crash invariant |
| `CheckoutSafety.RolledBackMeansUnchanged` | crates/sync-core/src/checkout.rs:1564-1586 | after any number of crashes, a journal reads RolledBack only if both session directories, the global state and every database are what they were, and the tracking update was never committed |
| `CheckoutSafety.CompletedMeansApplied` | crates/sync-core/src/checkout.rs:451-475 | a journal reads Completed only if the live home passed the expected-hash check and the tracking update is committed |
| `CheckoutSafety.ReconciledWasCommitted` | crates/sync-core/src/checkout.rs:1461-1477 | the tracking update is committed only by a step taken while the live home matched |
| `CheckoutSafety.OriginalIsInOnePlace` | crates/sync-core/src/checkout.rs:765-789 | from every state reached by any prefix of apply and of rollbacks, the original of each swap sits in exactly one of its live and its backup place |
| `CheckoutSafety.RenamesLoseNothing` | crates/sync-core/src/checkout.rs:1501-1563 | on any files whatever, moving out refuses a taken backup place, setting aside a taken place for failed trees, and putting back waits for a free live place: each rename moves one tree to a free place and loses none |
| `CheckoutSafety.EveryCrashIsRecoverable` | crates/sync-core/src/checkout.rs:492-541 | every state a run can reach, crashed anywhere, satisfies what recovery asks for |
| `CheckoutRecovery.RecoveryOfARun` | crates/sync-core/src/checkout.rs:492-541 | at every point of every run, after any number of crashes, failures and refused recoveries, recovery ends in a terminal status if and only if the journal does not read LocalApplied, or the home is the promised one and the tracking update goes through |
| `CheckoutRecovery.RollbackEnds` | crates/sync-core/src/checkout.rs:1479-1595 | a rollback, fresh or interrupted at any point without a failure so far, ends RolledBack when it is left alone |
| `CheckoutRecovery.LocalAppliedHomeMatches` | crates/sync-core/src/checkout.rs:454-460 | in every state of every run, crashed and recovering ones included, a journal that reads LocalApplied has the promised home, unless a rollback was under way while it read so |
| `CheckoutRecovery.UpdateStillGoes` | crates/sync-core/src/checkout.rs:1461-1477 | a tracking update that was committed, or could be when the operation began, goes through whenever it is tried again, unless somebody else writes the same record |
| `CheckoutRecovery.RecoveryEndsOutsideRollback` | crates/sync-core/src/checkout.rs:492-541 | so recovery ends in a terminal status from every crash point, if the tracking update was committed or could be when the operation began, except after a rollback that began at LocalApplied or an interfering tracking write |
| `CheckoutRecovery.InterruptedRollbackIsRefusedForEver` | crates/sync-core/src/checkout.rs:464-471 | the exception: if an in-process rollback that began at LocalApplied ends without writing its status, by a crash or by a failing write, where the home is not the promised one, every later recovery refuses and the journal never becomes terminal |
| `CheckoutRecovery.RollbackPastFileIsRefused` | crates/sync-core/src/checkout.rs:1498-1563 | such are all points at which rollback has come, without failure, past a file swap whose promised content was not the original one |
| `CheckoutRecovery.UndoneHomeIsRefused` | crates/sync-core/src/checkout.rs:1564-1586 | and the last point, where everything is undone and only the status is unwritten, unless the original home already was the promised one |
| `CheckoutRecovery.RefusalHappens` | crates/sync-core/src/checkout.rs:464-471 | a run in which it happens: the tracking update is refused, the rollback is interrupted after its first rename, and recovery refuses |
| `CheckoutCompletion.ApplyCompletesExactly` | crates/sync-core/src/checkout.rs:386-479 | an apply that has staged everything and meets no failure, whatever it writes to the databases, completes if and only if the new home is the promised one and the tracking update goes through; the home is then the staged trees with those databases |
| `CheckoutCompletion.GoReachesEditing` | crates/sync-core/src/checkout.rs:386-437 | from any of its earlier steps an apply that is left alone gets to the databases, with every staged tree live |
| `CheckoutCompletion.EditedEndsExactly` | crates/sync-core/src/checkout.rs:438-475 | from there it ends Completed if and only if the home is the promised one and the tracking update goes through |
| `CheckoutHomes.CheckoutHome.ApplySwaps` | crates/sync-core/src/checkout.rs:765-789 | the two renaming loops are steps of the checkout machine: they put every staged tree live and every original into its backup, or stop at the first swap without staged tree, where the invariant still holds |
| `CheckoutHomes.CheckoutHome.UndoSwap` | crates/sync-core/src/checkout.rs:1531-1563 | undoing one swap restores its original from wherever a crash left it |
| `CheckoutHomes.CheckoutHome.RollbackCheckout` | crates/sync-core/src/checkout.rs:1479-1595 | one uninterrupted rollback restores the home from everything a crash can leave, by steps of the checkout machine |
| `CheckoutHomes.CheckoutHome.RecoverCheckoutOperation` | crates/sync-core/src/checkout.rs:492-541 | recovery ends in a terminal status exactly if the journal was terminal, was not LocalApplied, or was LocalApplied with a matching home and a tracking update that goes through; otherwise it changes nothing; where it ends, the machine left alone ends |
| `CheckoutJournals.EnsureNoIncomplete` | crates/sync-core/src/checkout.rs:543-583 | the scan succeeds if and only if every journal can be read and none for this home is unfinished |
| `CheckoutJournals.StepsAreWrites` | crates/sync-core/src/checkout.rs:1564-1586 | whatever a checkout or a recovery does to its journal is creating it as Preparing or writing one that is not terminal |
| `CheckoutJournals.BrokenExactlyBy` | crates/sync-core/src/checkout.rs:306-386 | a step gives a home a second unfinished journal if and only if it creates a journal for a home that has got one since the scan |
| `CheckoutJournals.AtMostOneUnfinishedCheckout` | crates/sync-core/src/checkout.rs:306-386 | over every run of scans, creations, writes and damages a home has at most one unfinished journal, provided no two processes are between scan and creation at once |
| `CheckoutJournals.TwoScansTwoCheckouts` | crates/sync-core/src/checkout.rs:306-386 | without that it fails: two processes that both scan first give one home two unfinished journals |
| `Projects.ApplyProjectAssignments` | crates/sync-core/src/checkout.rs:870-1067 | the loops over roots, threads and the global state compute what the specification gives, errors included |
| `ProjectLaws.RootsMean` | crates/sync-core/src/checkout.rs:885-927 | the roots are exactly the mapped paths and the workspaces that several threads share or no mapping covers |
| `ProjectState.FirstSpellingCounts` | crates/sync-core/src/checkout.rs:904-922 | of equal roots the first candidate counts, mapped paths before workspaces |
| `ProjectLaws.EveryWorkspaceIsAssigned` | crates/sync-core/src/checkout.rs:945-962 | a thread is assigned if and only if its workspace path is not empty after normalisation, and to the strictly deepest root that contains it on a path boundary |
| `ProjectLaws.MatchesIsComponentPrefix` | crates/sync-core/src/checkout.rs:1124-1129 | a root contains a path exactly if its components are the first components of the path |
| `ProjectLaws.SuccessRecordsEveryThread` | crates/sync-core/src/checkout.rs:966-1065 | after success every such thread is recorded under that root in a project that has the root and is listed, the root is saved and the thread no longer projectless, unless a thread with the same id has another home |
| `ProjectLaws.ApplyTwice` | crates/sync-core/src/checkout.rs:870-1067 | a second call on the result leaves the state as it is, and reports a change if and only if two threads share an id but not the spelling of their workspace |
| `ProjectLaws.SecondCallIsSilent` | crates/sync-core/src/local.rs:1424-1431 | on the threads of a snapshot, which validation never lets repeat an id, a second call changes nothing and reports no change |
| `ProjectLaws.SecondCallReports` | crates/sync-core/src/checkout.rs:1038-1050 | a direct call with a repeated id, which a checkout refuses earlier, shows the exception: at a path and at the same path with a slash after it the first call succeeds and the second, which changes nothing, reports a change |
| `ProjectLaws.AmbiguousMeansTwoHomes` | crates/sync-core/src/checkout.rs:1038-1050 | assignments of one thread id differ exactly if two threads with it spell their workspaces differently |
| `ProjectLaws.SameProjectAgain` | crates/sync-core/src/checkout.rs:929-943 | a root that a run used finds the same project in the next run |
| `ProjectState.StateRecordsEveryThread` | crates/sync-core/src/checkout.rs:966-1065 | key by key, what the global state then says of each such thread: its entry, the project and its root, the order, the saved root, and that it is no longer projectless |
| `ProjectState.RestIsKept` | crates/sync-core/src/checkout.rs:966-1065 | a call keeps every other key, every project, the order, the saved roots and the entries of other threads; a new project is named after the last component of its root, under an id made from the path |
| `ProjectState.ChangesAreReported` | crates/sync-core/src/checkout.rs:966-1067 | a call that reports no change has made none, and one that reports a change has made one unless a thread id occurs with two homes |
| `Threads.RemoteViewIdempotent` | crates/sync-core/src/sync.rs:703-747 | taking the view of a thread twice is taking it once, through the rules for missing columns and defaults |
| `Threads.RemoteThreadView` | crates/sync-core/src/sync.rs:703-747 | the loops that overwrite the parts of a copied thread compute its view |
| `Threads.ViewShowsExactly` | crates/sync-core/src/sync.rs:703-747 | two threads have the same view if and only if they agree in schema version, id, title, archive flag, both times, logical workspace, digest, length, media type and logical path of rollout and attachments, and, row by row, in every column that has a value, does not name the machine and is no default |
| `Threads.RowShows` | crates/sync-core/src/sync.rs:714-743 | the view of a row consists of exactly those columns, with their values |
| `Threads.ViewLooksLikeTheThread` | crates/sync-core/src/sync.rs:703-713 | the view agrees with its thread in all of that and names nothing of the machine |
| `Threads.ViewRowsShowAll` | crates/sync-core/src/sync.rs:714-743 | no row of a view has a column that would not show |
| `Threads.ExtraColumnsDoNotShow` | crates/sync-core/src/sync.rs:716-726 | adding a column of this machine, or a column without value that the other schema lacks, does not change the view of a row |
| `Threads.DefaultsDoNotShow` | crates/sync-core/src/sync.rs:727-742 | nor does adding a column with the default that a newer schema materialises: no recency, the update time as recency, the legacy mode |
| `ThreadSets.SortThreads` | crates/sync-core/src/sync.rs:602-602 | sorting a list of threads with distinct ids gives the one list of those threads in strictly increasing order of id |
| `ThreadSets.SameViewsLineUp` | crates/sync-core/src/sync.rs:749-757 | sets with the same views are listed with the same ids in the same order and the same view at each place |
| `Merge.ThreadMap` | crates/sync-core/src/sync.rs:759-767 | reading a list by id fails exactly if an id occurs twice |
| `Merge.MergeThreadSets` | crates/sync-core/src/sync.rs:542-604 | the loop over the ids in order returns the merged threads and the conflicts of the specification |
| `Merge.ThreeWayRule` | crates/sync-core/src/sync.rs:559-597 | a thread is in conflict if and only if both sides changed it, differently; otherwise the result is the side that changed it |
| `Merge.EveryIdLandsOnce` | crates/sync-core/src/sync.rs:559-601 | every id lands in exactly one of the output, the conflicts and the agreed deletions |
| `Merge.ConflictShows` | crates/sync-core/src/sync.rs:572-596 | a conflict is labelled as a deletion exactly of the side that has no thread, which then was in the base; it shows the title of the local thread or else of the remote one, and all three versions field by field |
| `Merge.KeepsWholeBundles` | crates/sync-core/src/sync.rs:566-571 | what is kept is one of the two bundles as it is, and the local one whenever that has the view that is kept |
| `Merge.MergeWithUnchangedRemote` | crates/sync-core/src/sync.rs:566-570 | merging with an unchanged remote gives the local set, bundle for bundle, without conflict |
| `Merge.MergeWithUnchangedLocal` | crates/sync-core/src/sync.rs:566-570 | merging an unchanged local set gives the remote set, up to the view, without conflict |
| `Merge.MergeOfEqualSides` | crates/sync-core/src/sync.rs:566-570 | merging two sides with the same views gives the local set, bundle for bundle, without conflict |
| `Merge.MergeIsSymmetric` | crates/sync-core/src/sync.rs:566-577 | swapping the sides keeps the output up to the view and mirrors the kinds of the conflicts |
| `Merge.MergeSeesOnlyViews` | crates/sync-core/src/sync.rs:677-695 | output views, conflicts and fingerprints depend on nothing but the views of the three sets |
| `Merge.MergeWithStoredViews` | crates/sync-core/src/sync.rs:496-529 | merging with revisions, which hold only views, is merging with the sets they were made from |
| `Merge.MergeIsStable` | crates/sync-core/src/sync.rs:542-604 | merging a conflict-free result with the same remote again changes nothing |
| `Merge.OutcomeIsSorted` | crates/sync-core/src/sync.rs:550-603 | threads and conflicts are listed in strictly increasing order of id |
| `Resolve.ResolveThreadSets` | crates/sync-core/src/sync.rs:606-660 | resolution succeeds if and only if there is exactly one answer per current conflict, given to that conflict; the returned list is sorted and has, for each answer, what the chosen side has of the thread, and elsewhere what the merge took |
| `Resolve.SettlesIffMatched` | crates/sync-core/src/sync.rs:615-647 | the test that is made, a count and a lookup per conflict, is exact |
| `Resolve.ResolvedMeans` | crates/sync-core/src/sync.rs:648-658 | a thread in conflict ends up as the local side has it after the answer Local and as the remote side has it after Remote, its deletion included; every other thread as the merge has it |
| `Resolve.AnswersAreFollowed` | crates/sync-core/src/sync.rs:633-660 | the same on the list that is returned, read by id |
| `Resolve.StaleAnswersFail` | crates/sync-core/src/sync.rs:642-647 | answers accepted in two states prove that the conflicting threads and all three views of each are the same: a stale answer fails |
| `Resolve.AnswersOutliveInvisibleChanges` | crates/sync-core/src/sync.rs:677-701 | answers stay good, and do the same, as long as the views stay |
| `Resolve.DisplayedConflictsCanBeSettled` | crates/sync-core/src/sync.rs:627-647 | one answer for each displayed conflict, with any choices, is accepted |
| `Staging.BuildChangePlan` | crates/sync-core/src/staging.rs:98-147 | planning fails exactly on a repeated or blank id and otherwise gives one candidate per id, in order |
| `Staging.FromSelected` | crates/sync-core/src/staging.rs:75-94 | a selection is accepted if and only if every id is in the plan and changed |
| `Staging.ComposeStagedThreadSet` | crates/sync-core/src/staging.rs:153-180 | composition succeeds if and only if the baseline is the same, the remote is readable and every selected id can be staged, and gives the remote with those threads replaced or removed |
| `Staging.ComposeStagedThreadRefs` | crates/sync-core/src/staging.rs:185-231 | the same over references: a deleted thread must have no descriptor and any other must have one |
| `StagingLaws.PlanOffersChanges` | crates/sync-core/src/staging.rs:112-142 | what a plan offers is exactly what changed up to the view, and staging it means what the workspace has |
| `StagingLaws.PlanShows` | crates/sync-core/src/staging.rs:98-147 | a plan has a candidate for exactly the threads of baseline and workspace, with both bundles, both views, and the one kind of change it is: added, deleted, unchanged in all that shows, changed in the archive flag alone, or modified |
| `Blanks.BlankExactly` | crates/sync-core/src/staging.rs:234-240 | an id counts as empty if and only if it is the UTF-8 text of white space and nothing else |
| `StagingLaws.ArchiveChangeMeans` | crates/sync-core/src/staging.rs:121-126 | an archive change is a change of the archive flag and of nothing else |
| `StagingLaws.SelectionTouchesNothingElse` | crates/sync-core/src/staging.rs:149-152 | a selection changes no thread outside it |
| `StagingLaws.SelectionsAdd` | crates/sync-core/src/staging.rs:161-179 | composing one selection and then another, in either order, is composing both |
| `StagingLaws.AllChangesGiveTheWorkspace` | crates/sync-core/src/staging.rs:149-180 | all changes composed onto the baseline are the workspace, up to the view |
| `StagingLaws.RestRemainsStaged` | crates/sync-core/src/staging.rs:98-180 | after a selection has been published exactly the unselected changes remain |
| `StagingLaws.StagingEverythingIsLocalResolution` | crates/sync-core/src/staging.rs:98-180 | staging every change onto the remote is, thread by thread and up to the view, the merge with Local chosen for every conflict |
| `StagingLaws.AgreementOfLists` | crates/sync-core/src/sync.rs:606-660 | the lists agree too: same length, same ids in the same sorted order without repetition, same views |
| `StagingLaws.StagingEverythingIsTheMerge` | crates/sync-core/src/sync.rs:542-604 | without conflicts staging everything is the merge |
| `StagingLaws.StagingPartIsMergingThatPart` | crates/sync-core/src/staging.rs:149-180 | staging part of the changes is the merge on that part and the remote, bundle for bundle, elsewhere |
| `StagingLaws.RefsFollowThreads` | crates/sync-core/src/staging.rs:182-231 | the composition over references accepts what the full composition accepts and gives its projection |
| `StagingLaws.RefsStageableExactly` | crates/sync-core/src/staging.rs:196-226 | a reference can be staged if and only if its thread has changed, and there is a descriptor for it if and only if the workspace still has the thread |
| `StagingLaws.RefListsFollowThreadLists` | crates/sync-core/src/staging.rs:182-231 | the lists agree too: the references come out in the order of the threads, each describing the thread at its place |
| `CanonicalJson.WriteCanonicalJson` | crates/sync-core/src/protocol.rs:703-742 | the recursive writer with its loops appends exactly the canonical text, keys in order |
| `CanonicalJson.TextPrefix` | crates/sync-core/src/protocol.rs:703-742 | texts of nested values are prefix-free: where two texts with something after them agree, the values and the rests agree |
| `CanonicalJson.StringPrefix` | crates/sync-core/src/protocol.rs:708-711 | quoted strings, escaped as in section 7 of RFC 8259, are prefix-free |
| `CanonicalJson.CanonicalJsonIsInjective` | crates/sync-core/src/protocol.rs:703-742 | equal canonical text means equal values, up to the order of object keys |
| `CanonicalJson.TextIsOneLine` | crates/sync-core/src/protocol.rs:703-742 | canonical text contains no control character, so no line feed |
| `CanonicalJson.FieldsAreSorted` | crates/sync-core/src/protocol.rs:721-739 | the fields of an object come in strictly increasing order of their keys, each once |
| `JsonReader.EscapeIsShortest` | crates/sync-core/src/protocol.rs:708-711 | each character is written as the shortest text that is read as it, hexadecimal digits small |
| `JsonReader.QuoteReadsBack` | crates/sync-core/src/protocol.rs:708-711 | reading a written string, escapes included, gives the string and what follows it |
| `JsonReader.DecimalReadsBack` | crates/sync-core/src/protocol.rs:707-707 | the digits written for an integer spell it |
| `JsonReader.ReadIsReadable` | crates/sync-core/src/provider.rs:306-308 | whatever is read has integers of 64 bits, UTF-8 strings and a nesting below the limit |
| `JsonReader.TextReads` | crates/sync-core/src/protocol.rs:703-742 | reading the canonical text of such a value, nested at will, gives the value and what follows it, with every float read and printed once more |
| `JsonReader.ReadsBackExactly` | crates/sync-core/src/protocol.rs:703-742 | canonical text reads back as the same value if and only if every float in it is the one its text is read as |
| `Revision.Validate` | crates/sync-core/src/protocol.rs:341-369 | validation with its loop over the threads accepts exactly the valid payloads, and names the first thing that is wrong with the header of any other |
| `Revision.CanonicalRevisionJson` | crates/sync-core/src/protocol.rs:650-659 | succeeds exactly on valid payloads and gives the canonical text of the payload with its threads sorted |
| `Revision.BytesIdentifyTheRevision` | crates/sync-core/src/protocol.rs:650-665 | two payloads have the same bytes if and only if they are the same up to the order of the threads and the paths that are not serialised |
| `Revision.OrderDoesNotMatter` | crates/sync-core/src/protocol.rs:332-339 | the order in which a valid payload lists its threads does not change its bytes |
| `Revision.LocalPathsDoNotShow` | crates/sync-core/src/models.rs:10-21 | a payload whose thread lies at another local path has the same bytes |
| `Revision.ThreadInjective` | crates/sync-core/src/models.rs:46-60 | two threads serialise alike if and only if they differ in nothing but the paths that are not serialised |
| `Revision.ViewsSerialiseFaithfully` | crates/sync-core/src/sync.rs:697-701 | equal serialised views mean equal views, so the semantic hash decides equality of views |
| `RevisionReader.ThreadRoundTrip` | crates/sync-core/src/models.rs:46-60 | a written thread, read back by the names of its fields, is the thread without the paths that are not serialised |
| `RevisionReader.RevisionReadsBack` | crates/sync-core/src/protocol.rs:320-339 | reading the canonical bytes of a revision and then its fields gives the payload, threads in order and without those paths, within the limits of the reader and where its floats hold |
| `Provider.TransformRolloutFile` | crates/sync-core/src/provider.rs:246-290 | the read loop writes what the specification gives, with the length of what was written, or fails as it does |
| `Provider.TransformJsonlLine` | crates/sync-core/src/provider.rs:293-326 | one line: kept, rewritten with its own ending, or refused |
| `Provider.LinesOfConcat` | crates/sync-core/src/provider.rs:265-281 | splitting the written file again gives the lines that were written |
| `Provider.ConcatOfLines` | crates/sync-core/src/provider.rs:265-281 | splitting a file into lines loses nothing |
| `JsonRollouts.RewriteFuses` | crates/sync-core/src/provider.rs:246-326 | if the floats of the session records hold, rewriting to one provider and then to another is rewriting to the second directly: same bytes, same inputs refused for the same reason |
| `JsonRollouts.RewriteFusesExactly` | crates/sync-core/src/provider.rs:246-326 | the condition is exact: going through another provider gives what going directly gives if and only if every float of every session record is printed as it would be once read again |
| `JsonRollouts.RewriteIsIdempotent` | crates/sync-core/src/provider.rs:246-290 | under that condition a rewritten file is a fixed point of the rewrite |
| `JsonRollouts.ProvidersCanonicaliseAlike` | crates/sync-core/src/provider.rs:165-213 | under that condition rollouts materialised for two providers are accepted alike and canonicalise to the same bytes |
| `Provider.OtherLinesKeepTheirBytes` | crates/sync-core/src/provider.rs:293-326 | the number of lines stays, a line that is not session metadata keeps every byte, and one that is keeps its ending |
| `SessionRecords.AcceptedExactly` | crates/sync-core/src/provider.rs:254-318 | a rollout is accepted if and only if some line reads as an object whose type is the string session_meta, each such line has an object as payload, and the payload of the first has the id of the thread |
| `SessionRecords.RefusedBecause` | crates/sync-core/src/provider.rs:282-318 | which error a refused rollout gives |
| `SessionRecords.OtherLinesStay` | crates/sync-core/src/provider.rs:306-311 | every other line of an accepted rollout keeps every byte |
| `SessionRecords.SessionLinesTakeTheProvider` | crates/sync-core/src/provider.rs:312-326 | each such line keeps its ending and reads back as the same record with the target as the provider in its payload and every other field unchanged, if and only if its floats hold |
| `JsonRollouts.UnstableFloatBreaksFusion` | crates/sync-core/src/provider.rs:306-322 | the condition is needed: for any float whose printed form is read as another float there is a rollout on which the two ways differ |
| `SourceIndex.Repository.PrepareWorkspaceSnapshot` | crates/sync-core/src/local.rs:507-602 | the loop over the threads leaves the index, the store and the result of its specification; a failure keeps the old index but also the objects already installed |
| `SourceIndex.IndexAgreesWithRecomputation` | crates/sync-core/src/local.rs:534-563 | with an index that tells the truth one preparation returns the threads, contents and failures of recomputing everything, leaves the same objects, and keeps the index true |
| `SourceIndex.PreparationNormalises` | crates/sync-core/src/local.rs:507-602 | with an index that tells the truth a preparation succeeds if and only if every rollout is there and can be normalised; it returns the threads in order, each with digest, size and storage of its normalised rollout, lists exactly their contents and counts their different digests |
| `SourceIndex.TotalAddsUp` | crates/sync-core/src/local.rs:585-602 | the total size is the sum of the sizes of the threads |
| `SourceIndex.PreparationRecords` | crates/sync-core/src/local.rs:564-586 | after a success with distinct rollouts the index has an entry for each, with size and time of its file, what was normalised, and the provider and workspace seen |
| `SourceIndex.EveryRunAgrees` | crates/sync-core/src/local.rs:507-602 | over every run of edits, losses of objects and preparations the indexed program answers as the program without index does, if contents of one path never share length and time |
| `SourceIndex.SecondRunOpensNothing` | crates/sync-core/src/local.rs:503-506 | preparing again right after a success, with distinct rollouts, reads none of them and reports no normalisation warning |
| `SourceIndex.SameStampGoesUnnoticed` | crates/sync-core/src/local.rs:537-554 | the assumption is needed: an edit that keeps length and time goes unnoticed and the old digest is kept |

## Left out

- The front end, routing, authentication, configuration, HTTP error texts, streaming of bodies, fsync barriers and metrics: an upload is the step that makes an object present with matching digest and length.
- The v3 and legacy paths: `commit_revision`, `commit_revision_root` and `validate_revision_graph` in the request handlers, and `store_snapshot_object`.
- Importing a snapshot in `local.rs` and its rollback, and `provider_sync.rs` beyond its use of the rewrite.
- Scanning of Codex homes, discovery of database schemas, insertion of rows and process detection: what a scan finds is an input.
- Job leases, schema migrations, normalisation of display names, formatting of timestamps (times are integers), retries of renames on Windows, progress and cancellation.
- Listing of revisions, trash and namespaces: reads that would add only easy members.
- Limits on the number of objects and references of one revision, and the fields of revision metadata that no other operation reads, are one opaque value.
- The order in which sets of objects and queue entries are gone through: the tables are sets and maps, and the results do not depend on it.
- MetadataStores.MetadataStore.EnqueueGc: does not model the failure of converting a length above the largest 64-bit signed value, because SQLite stored that length before.
- MetadataStores.MetadataStore.RestoreHistoryTrash: does not model an expiry text that is no date, because the server writes that text itself.
- Provider.TransformRolloutFile: does not model the overflow of the length counter at 2^64 bytes.
- Projects.ApplyProjectAssignments: models the paths of systems other than Windows, where paths keep their case and use forward slashes; the digest that names a new project and the last component of a path are parameters.
- SourceIndex.Repository.PrepareWorkspaceSnapshot: does not model two spellings of one path that the file system resolves differently over time; a path stands for its canonical form.
- CheckoutJournals.EnsureNoIncomplete: does not model how two spellings of a home path are compared, nor the failure of resolving one; a home is what its path resolves to.
- Revision.Validate: the date parser is a parameter.
- `set_thread_provider` and the metadata rewrites of `provider.rs` other than the rollout rewrite: field by field edits that would add only easy members.
- Detailed error texts; errors are modelled by kind where a caller can tell them apart.
