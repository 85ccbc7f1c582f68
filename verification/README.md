# Incremental indexing, modelled and proved

A Dafny model of the incremental-indexing pipeline of the Rust indexer (`indexer-rs`).  The
pipeline records what a repository contains (a manifest), plans what to re-index against the last
READY manifest, builds a code graph, renders it as NGQL statements, hands those to a queue and
finally activates the manifest.  The main results are about whole runs of that pipeline.

`dafny verify dfyconfig.toml` checks everything.

## What is modelled

| file | what it holds |
|---|---|
| `Basics.dfy`, `Text.dfy` | options and results, sequences, the byte order of `BTreeMap<String, _>`, decimal numbers, trimming, UTF-8 lengths |
| `Json.dfy` | JSON trees, `sort_json`, `stable_json_equal` |
| `DeltaPlan.dfy` | manifests, path normal form, the delta planner and its loops |
| `Reindex.dfy` | what executing a plan does to an index, and when that equals a rebuild |
| `ManifestStore.dfy` | the manifest table as rows, its statements as atomic steps, the manager object |
| `IndexRuns.dfy` | runs of table steps and plan executions with the index an engine maintains, for each of the four engines |
| `BulkInsert.dfy` | the multi-row insert of a manifest's files, and loading them back |
| `GraphModel.dfy` | graph scopes, vertex ids, edge keys, token normalization |
| `Facts.dfy`, `Accumulator.dfy`, `AccumulatorLaws.dfy`, `AccumulatorOrigins.dfy`, `AccumulatorVertices.dfy` | facts, the accumulator as a value, what every producer keeps and records, where every edge and vertex comes from and what its columns say |
| `VertexIdentity.dfy` | which facts, rows and declarations share a vertex |
| `Reconcile.dfy`, `Anchors.dfy`, `AnchorNames.dfy` | reconciling provenance; anchors and ANCHOR_LINK edges; what an anchor says of its fact or symbol |
| `GraphBuilder.dfy`, `GraphSnapshot.dfy`, `BatchTriples.dfy` | the mutable accumulator; what holds of every graph it builds; the triples the batches ask for |
| `Ngql.dfy`, `NgqlReader.dfy`, `GraphStore.dfy`, `BuiltStore.dfy` | the statement printer, a reader for it, a store that executes the text, and what of a built graph it stores |
| `Walker.dfy`, `WalkerLaws.dfy`, `WalkerScan.dfy` | the two tree walks, what one owes the other, and their loops |
| `Visitor.dfy`, `VisitorFacts.dfy` | the TypeScript and JavaScript visitor with its scope stack, a pure reference, and every fact of a file told field by field |
| `ProjectRoots.dfy` | project-root detection |
| `Worker.dfy`, `WorkerLaws.dfy`, `WorkerHandler.dfy` | the job handler as fallible steps, what holds over every run, the handler object |
| `WorkerShards.dfy` | the handler as a run of `IndexRuns`: when the Zoekt shards are those of the READY manifest |
| `WorkerOutcomes.dfy` | the job's status, the activation and the rows told from the first stage that does not work |
| `WorkerScip.dfy` | when READY manifests have SCIP rows under their own commit |
| `WorkerRedelivery.dfy` | what a second delivery does |

Code that computes a value is a function; code that loops or updates state is a method or a class
proved against such a function, and the laws are proved about the function.

## The main results

* **Incremental is rebuild, exactly when** (`IndexRuns.RunIsExact`).  Executing a plan is a step of
  its own, which activation, failure or nothing may follow.  Over every run, for the graph, Zoekt,
  semantic and SCIP engines, the index is at every point the rebuild of the manifest last executed
  in its scope if and only if every executed plan fits what the index held at that moment.  What
  "fits" means is a condition on file maps for each engine (`GraphEngineIsExact`,
  `ZoektEngineIsExact`, `SemanticEngineIsExact`, `ScipEngineIsExact`): for the graph, that
  everything that differs from what the index holds also differs from the base.
  `IncrementalIsRebuild` draws the conclusion for READY manifests, and `CyclesRebuild` shows that
  serial cycles (each executed plan is activated before the next in its scope, and no other
  manifest became READY since it was planned) always meet the condition.
* **The handler's shards** (`WorkerShards.ShardLaw`, `DeliveriesServe`).  The handler is shown to be
  a run of those steps (`HandleIsRun`, `HandleAllIsRun`), and over every sequence of deliveries,
  failures and crashes the Zoekt shards are those of the READY manifests throughout if and only if
  every run finishes what it rewrote, which the answers tell beforehand.
* **The handler's SCIP rows** (`WorkerScip.ScipLaw`, `DeliveriesNavigable`).  They are kept per commit,
  so a run that stops never takes them from a READY manifest; over every sequence of deliveries each
  READY manifest has rows under its own commit if and only if every activating run lists only
  manifests with SCIP work or with commits that have rows.
* **The run's fate** (`WorkerOutcomes.RunIsTold`, `JobStatusIsExact`, `ActivationIsTold`,
  `EndingIsTold`): the status of the job, whether the activation takes effect, the manifest rows and
  how the run ends are functions of the first stage that does not work.
* **One READY row** (`ManifestTable.RunKeepsOneReady`, `ActivationIsLastListed`,
  `ActivationKeepsOtherScopes`); what a batch makes of each row (`ActivationRowByRow`), and which step
  of a run gave a row its status (`StepGivesStatus`, `RunGivesStatus`).
* **What was inserted loads back** (`BulkInsert.InsertedFilesLoadBack`): the rows of the numbered
  placeholders, read by column, are the manifest's files, and no other manifest's change.
* **READY only after the queue accepted the graph** (`WorkerLaws.ReadyOnlyAfterAccepted`), over
  every sequence of deliveries, failures and crashes; and redelivery is idle exactly when the
  fingerprint's version fits its column (`WorkerLaws.RedeliveryIsIdle`), in which case the whole
  second run calls no engine and sends nothing (`WorkerRedelivery.RedeliveryRunsNothing`).
* **Every built graph is sound** (`GraphSnapshot.BuiltIsSound`) and has, besides links, exactly the
  triples its facts, symbols and set flags ask for (`BatchTriples.BuiltIsWhatWasAsked`);
  reconciling and anchor linking do exactly what they are for.
* **Facts share a vertex exactly when they should** (`VertexIdentity.SourceVidIdentifies`,
  `TargetVidIdentifies`, `RelatedVidIdentifies`), each vertex shows the columns of the fact or row that
  made it (`AccumulatorVertices.AddAstFactsVertex`, `AddScipRowsVertex`), and no vid is shared across
  tenants even if digests collide (`GraphModel.VidSeparatesTenants`).
* **The rendered text can be read back** and survives at-least-once delivery
  (`NgqlReader.VertexInsertReads`, `GraphStore.DeliveredSnapshotIsExact`,
  `BuiltStore.BuiltIsStoredWhole`).
* **One walk serves all languages** (`WalkerLaws.SharedWalkServesEach`), and a walk of a tree within
  the limits finds exactly the facts of the tree, counts exactly its readable and its other files, and
  warns once of each that does not extract (`WalkerLaws.UnlimitedWalkIsComplete`, `SharedWalkIsComplete`).
* **The facts of a file, both ways** (`VisitorFacts.EmittedTell`, `Extraction.ExtractTreeSitterFacts`): a
  fact is emitted if and only if a node outside import statements tells it from the nearest declaration
  above it (`ScopeIsNearestDeclaration`), in every field (`NodeTells`).  The scope stack is a recursion
  (`Visitor.TsVisitor.VisitTsNode`, `VisitorSpec.VisitsEachNodeOnce`).

## Where a promise is false, and its exact condition

* A READY manifest is meant to be served from an index of its own contents.  The handler rewrites
  the Zoekt shards long before it activates, and plans against the READY manifest, not against what
  the shards hold.  A run that rewrites a READY branch and stops short of activation leaves shards
  that no later plan accounts for: if the branch then goes back to its READY contents, the plan is
  a NOOP, Zoekt is skipped, and the manifest becomes READY over the shards of the abandoned run
  (`WorkerShards.RevertedBranchIsStale`, on two deliveries given by their contents and answers; for
  the planner and any engine, `IndexRuns.AbandonedRunLeavesStaleShards` and `AbandonedRunIsExact`).  It
  holds exactly when the answers of every run lead to activation, or stop it before Zoekt, or it
  rewrote only branches with nothing READY or nothing planned (`WorkerShards.DeliveriesServe`); and the
  next run of the branch that activates repairs it exactly when some revision of the job has Zoekt
  work (`WorkerShards.NextRunRepairs`).
* SCIP rows are kept under the commit they were made from, and a manifest whose SCIP plan is a NOOP
  gets none.  A new commit with the contents of the READY one becomes READY without SCIP rows of its
  own: `WorkerScip.RepeatedContentHasNoScipRows`; the exact condition is that of
  `WorkerScip.DeliveriesNavigable`.
* A changed semantic fingerprint is meant to re-run the semantic chunks, and an unchanged one not
  to.  The version is stored in a 32-bit column, so one outside that range comes back changed
  (`IndexRuns.LoadedFingerprintIsExact`), and a change that wraps to the stored value is planned as
  a NOOP that keeps stale chunks (`IndexRuns.WrappedVersionHidesChange`, `VersionsWrap`).  The exact
  condition is that of `SemanticEngineIsExact`.  Only a caller of the manager can pass such a
  version: the handler always passes 1.
* Re-extracting only the planned SCIP roots misses a file that moved between roots without
  changing, and leaves a wrong index: `Reindex.MovedFileEscapesScipPlan`.  It is a full run exactly
  when the toolchains differ or every file that moves has both its roots planned:
  `Reindex.ScipPlanIsExact`.
* The first graph and semantic plans of a scope delete nothing, so on an index with leftovers they
  are wrong: `Reindex.FirstGraphPlanIsExact`, `Reindex.FirstSemanticPlanIsExact`,
  `IndexRuns.LateFullPlanIsStale`.
* A failed job is meant to be retried by the queue.  A failure that marks the job FAILED makes it
  terminal, and the retry does nothing: exactly when the first stage that does not work fails, is
  the checkout, the revision list, preparing, Zoekt, SCIP, building a payload or the activation, and
  marking the job takes effect (`WorkerOutcomes.FailureIsFinalExactly`; the smallest case,
  `FailedCheckoutIsFinal`).  A failed required handoff, enqueue, stamp, record or completion leaves
  the job to be retried, and a failed refresh leaves it COMPLETED
  (`WorkerOutcomes.OtherFailuresAreRetried`).
* The store keys edges by ends and rank, without the kind the accumulator keeps.  After its
  statements are executed a built graph is stored whole exactly when no two of its edges with the
  same ends share a rank (`BuiltStore.BuiltIsStoredWhole`); one relationship with two flags set and
  equal ranks loses an edge (`BuiltStore.CollidingRanksLoseAnEdge`).

* What a declaration contains is meant to hang from the declaration's vertex.  Source and target kinds
  are mapped to vertex kinds differently, so it does exactly for classes, methods and functions; the
  contents of an interface, a type alias or a nested module start at another vertex than the one its
  definition made (`ScopeVertices.ScopeIsItsDefinition`, `VertexIdentity.SourceMeetsTarget`).

## Assumptions

* Every SQL statement or transaction is one atomic step, and a call that reports failure has had
  no effect.  A call that took effect without its answer arriving is the case of a process that
  dies right after it.
* Deliveries of the handler are sequential.
* A Zoekt run that takes effect leaves, for each branch it was given, the shards of that branch's
  manifest; one that does not leaves the shards as they were.  An engine's index is a function of
  each file's path and content hash (and fingerprint, or project root).
* SHA-256, the rank hash, the number format, the extractors, the keyword test and the upper-case
  test are parameters.  Where two digests must differ, the lemma asks for that pair only
  (`NoCollision`).  That an edge is recorded under its own key is stated for digests and a
  repository vid free of `|`, as hexadecimal digests and the vids made of them are.
* Floating-point numbers are reals or non-finite.
* File rows come back from the database in any order; paths within a manifest are distinct after
  normalization.
* The renderer takes the tag, the edge type and the column lists as a parameter, so its laws hold
  for any of them; `Ngql.CODE_GRAPH` is the one in the code.
* The walkers take the table of extensions as a parameter; `Walker.Extensions` is the one in the
  code, and `WalkerScan.ExtensionsTableOk` shows it lists no extension twice for one language.

## Model

| member | source | states |
|---|---|---|
| Json.StableJsonEqualIsSame | indexer-rs/src/delta_plan.rs:592-612 | for trees of any depth with unique keys, `stable_json_equal` holds exactly when the trees agree up to the order of object keys at every level |
| Json.SortJsonIsCanonical | indexer-rs/src/delta_plan.rs:596-612 | `sort_json` is idempotent, has unique keys, and equals its input up to key order |
| Manifests.NormalizePathNormalizes | indexer-rs/src/delta_plan.rs:565-569 | the result has no backslash and no leading slash, and a path is unchanged exactly when it already was so |
| Manifests.NormalizePathKeeps | indexer-rs/src/delta_plan.rs:565-569 | only leading slashes and backslashes go; every other backslash becomes a slash and every other character is kept |
| Manifests.NormalizedFileMap | indexer-rs/src/delta_plan.rs:550-560 | the loop leaves each normalized path with the last file listed for it |
| Manifests.FileMapIgnoresOrder | indexer-rs/src/delta_plan.rs:550-560 | with distinct paths the order of the list does not matter |
| DeltaPlan.ScopeMismatch | indexer-rs/src/delta_plan.rs:520-544 | a mismatch is reported exactly when two manifests differ in organisation, workspace, repository, provider or branch |
| DeltaPlan.ToolchainsJsonDecides | indexer-rs/src/delta_plan.rs:614-625 | comparing toolchain maps as JSON compares them as maps, a missing map being empty |
| DeltaPlan.FingerprintJsonDecides | indexer-rs/src/delta_plan.rs:627-633 | comparing fingerprints as JSON compares them as records |
| DeltaPlan.ClassifyCurrent | indexer-rs/src/delta_plan.rs:296-309 | the loop lists exactly the added, changed and unchanged paths, each sorted |
| DeltaPlan.ListDeleted | indexer-rs/src/delta_plan.rs:310-314 | the loop lists exactly the deleted paths, sorted |
| DeltaPlan.UniqueProjectRoots | indexer-rs/src/delta_plan.rs:571-577 | the set of the files' roots, "." for a missing one |
| DeltaPlan.ChangedProjectRoots | indexer-rs/src/delta_plan.rs:383-392 | the current roots of added and changed files and the previous roots of deleted ones |
| DeltaPlan.BuildDeltaReindexPlan | indexer-rs/src/delta_plan.rs:249-518 | the plan is the one its specification gives, and the early NOOP return is what the general path would build |
| Reindex.PlanPartitionsFiles | indexer-rs/src/delta_plan.rs:294-400 | added, changed and unchanged partition the current files, deleted, changed and unchanged the previous ones, all sorted and duplicate-free |
| Reindex.PlanListsFiles | indexer-rs/src/delta_plan.rs:294-400 | path by path: added is new, deleted is gone, changed is in both with different hashes, unchanged in both with equal ones; the mode is NOOP exactly when none is touched, and never FULL |
| Reindex.PlanListsScip | indexer-rs/src/delta_plan.rs:448-471 | SCIP's files and roots: all of them when the toolchains differ, otherwise the touched files and the roots of new, changed and gone ones |
| Reindex.TouchedComposes | indexer-rs/src/delta_plan.rs:301-326 | the files touched from A to C lie within those touched from A to B or B to C |
| Reindex.PlanIsIdle | indexer-rs/src/delta_plan.rs:346-505 | all four engines are NOOP exactly when no file is touched and neither toolchains nor fingerprint differ |
| Reindex.GraphPlanIsExact | indexer-rs/src/delta_plan.rs:473-485 | a graph plan made against one base and executed on the index of another state rebuilds the current state exactly when every difference from that state is also a difference from the base |
| Reindex.GraphPlanRebuilds | indexer-rs/src/delta_plan.rs:473-485 | in particular it rebuilds when executed on the index it was planned against |
| Reindex.FirstGraphPlanIsExact | indexer-rs/src/delta_plan.rs:256-289 | the first graph plan of a scope rebuilds exactly when the index holds nothing for files that are gone |
| Reindex.ZoektPlanRebuilds | indexer-rs/src/delta_plan.rs:426-446 | a Zoekt plan rebuilds, with or without file-level deltas |
| Reindex.ZoektPlanIsExact | indexer-rs/src/delta_plan.rs:426-446 | on the shards of another state it rebuilds exactly when it is a full rewrite or every difference from that state is also one from the base |
| Reindex.FirstZoektPlanRebuilds | indexer-rs/src/delta_plan.rs:256-289 | the first Zoekt plan rebuilds whatever the index held |
| Reindex.SemanticPlanRebuilds | indexer-rs/src/delta_plan.rs:487-505 | a semantic plan, deletions dropped, rebuilds when the index was made with the fingerprint the plan compared |
| Reindex.SemanticPlanIsExact | indexer-rs/src/delta_plan.rs:487-505 | on the chunks of another state it rebuilds exactly when, re-extracting everything, nothing stale is left over, or otherwise every difference is planned and the chunks it keeps carry the current fingerprint |
| Reindex.FirstSemanticPlanIsExact | indexer-rs/src/delta_plan.rs:256-289 | the first semantic plan of a scope rebuilds exactly when the index holds nothing for files that are gone |
| Reindex.UnplannedRootsAreUnchanged | indexer-rs/src/delta_plan.rs:383-392 | every root outside the plan keeps its files and hashes exactly when each file that moves between roots has both of them planned |
| Reindex.ScipPlanOnIsExact | indexer-rs/src/delta_plan.rs:448-471 | on the index of another state a SCIP plan rebuilds exactly when it is a full run or re-extracts every root whose files differ from that state |
| Reindex.ScipPlanIsExact | indexer-rs/src/delta_plan.rs:448-471 | on the index of its own base it rebuilds exactly when the toolchains differ or every file that moves between roots has both of them planned |
| Reindex.ScipPlanRebuilds | indexer-rs/src/delta_plan.rs:448-471 | in that case for every extractor |
| Reindex.MovedFileEscapesScipPlan | indexer-rs/src/delta_plan.rs:383-392 | a file that only moves to another root gives a NOOP plan and a SCIP index that is not the rebuild |
| ManifestTable.LoadBackKeepsContents | indexer-rs/src/manifest_store.rs:406-460 | in whatever order the rows come back, the planner sees the hashes and roots that were written |
| ManifestTable.AsI32IsExact | indexer-rs/src/manifest_store.rs:488 | the cast to 32 bits is exact exactly for the numbers that fit |
| ManifestTable.Previous | indexer-rs/src/manifest_store.rs:336-404 | a READY row of the scope, and none exactly when the scope has none |
| ManifestTable.ActivationIsLastListed | indexer-rs/src/manifest_store.rs:196-292 | after any batch, repeated, unknown and foreign ids included, the READY rows of a touched scope are exactly its last listed id |
| ManifestTable.ActivationKeepsOtherScopes | indexer-rs/src/manifest_store.rs:196-292 | a scope in which no listed row of the organisation lies keeps all its rows |
| ManifestTable.ActivateAllKeepsManifests | indexer-rs/src/manifest_store.rs:196-292 | activation changes nothing but status and error message |
| ManifestTable.ActivationRowByRow | indexer-rs/src/manifest_store.rs:224-289 | row by row: the last listed row of a scope becomes READY, every other row there that was READY or listed becomes SUPERSEDED, every other row keeps its status; exactly the listed rows lose their error message |
| ManifestTable.StepGivesStatus | indexer-rs/src/manifest_store.rs:105-330 | only a new row becomes PENDING, only a listed PENDING one FAILED, with the message, only the last listed of its scope READY, only a READY or listed one SUPERSEDED |
| ManifestTable.RunGivesStatus | indexer-rs/src/manifest_store.rs:105-330 | over every run a status a row did not have at the start was given to it by one of those steps |
| ManifestTable.RunKeepsOneReady | indexer-rs/src/manifest_store.rs:105-330 | in every state reached by prepare, activate, fail and delete steps there is at most one READY row per scope |
| ManifestTable.OnlyActivationMovesReady | indexer-rs/src/manifest_store.rs:105-318 | preparing, failing and activating elsewhere never change which row of a scope is READY |
| ManifestTable.PrepareAllExtends | indexer-rs/src/manifest_store.rs:105-190 | preparing leaves existing rows alone and adds only PENDING rows, each planned against the READY row its scope had at the start |
| ManifestTable.InsertedRowTells | indexer-rs/src/manifest_store.rs:105-190 | the row of a revision has the job's organisation, repository, workspace and provider, the revision's branch, commit and files, and as base a READY row of its scope if there is one |
| ManifestTable.IndexManifestManager.PrepareRevisionManifests | indexer-rs/src/manifest_store.rs:105-190 | the rows and the result are those of the revisions taken in turn, error exits included |
| ManifestTable.IndexManifestManager.ActivateManifests | indexer-rs/src/manifest_store.rs:196-292 | the loop over the ids leaves the rows of the batch taken id by id, each row as `ActivationRowByRow` says |
| ManifestTable.IndexManifestManager.MarkManifestsFailed | indexer-rs/src/manifest_store.rs:296-318 | no row appears or goes; exactly the listed PENDING rows become FAILED with the message, keeping manifest, plan and base; every other row is unchanged, and no scope's READY row moves |
| ManifestTable.IndexManifestManager.DeleteRepoManifests | indexer-rs/src/manifest_store.rs:322-330 | a row remains exactly when it is of another repository, and then unchanged; the repository has nothing READY and every other scope what it had |
| IndexRuns.LoadedFingerprintIsExact | indexer-rs/src/manifest_store.rs:488 | a fingerprint survives storing exactly when its version fits 32 bits |
| IndexRuns.WrappedVersionHidesChange | indexer-rs/src/manifest_store.rs:488 | when the stored version wraps to the current one and no file changed, the semantic plan is a NOOP and the chunks extracted differently under the old version stay, so the index is not the rebuild |
| IndexRuns.VersionsWrap | indexer-rs/src/manifest_store.rs:488 | there are two such versions |
| IndexRuns.GraphEngineIsExact | indexer-rs/src/delta_plan.rs:256-485 | a graph plan against a stored base, executed on the index of any state, is right exactly when every difference from that state is one from the base (without a base, when nothing stale is left) |
| IndexRuns.ZoektEngineIsExact | indexer-rs/src/delta_plan.rs:256-446 | the same for Zoekt, where a full run or rewrite is always right |
| IndexRuns.SemanticEngineIsExact | indexer-rs/src/delta_plan.rs:256-505 | the same for the semantic engine, with the fingerprint as it was loaded back |
| IndexRuns.ScipEngineIsExact | indexer-rs/src/delta_plan.rs:256-471 | the same for SCIP, where every root whose files differ must be planned |
| IndexRuns.TabulateIsApply | indexer-rs/src/manifest_store.rs:105-330 | the table steps of these runs are those of the manifest table |
| IndexRuns.LateFullPlanIsStale | indexer-rs/src/delta_plan.rs:256-289 | a full plan made before another manifest became READY never rebuilds when that one had a file the new one lacks |
| IndexRuns.ExecuteIsExact | indexer-rs/src/delta_plan.rs:249-518 | executing a row's plan gives the rebuild of its manifest exactly when the plan fits what the index held |
| IndexRuns.RunIsExact | indexer-rs/src/manifest_store.rs:105-330 | over every run, abandoned executions included, the index is throughout the rebuild of the manifest last executed, if and only if every executed plan fits |
| IndexRuns.IncrementalIsRebuild | indexer-rs/src/manifest_store.rs:105-292 | after any such run from an empty database the index of a READY manifest whose plan was the last executed in its scope is the rebuild of it |
| IndexRuns.GraphAndZoektServe | indexer-rs/src/delta_plan.rs:249-485 | a graph or Zoekt plan always fits the index of its own base, and once more its own result |
| IndexRuns.SemanticServes | indexer-rs/src/delta_plan.rs:487-505 | so does a semantic plan whose base has a version that fits its column |
| IndexRuns.ScipServes | indexer-rs/src/delta_plan.rs:448-471 | and a SCIP plan when every file that moves has both its roots planned |
| IndexRuns.CyclesRebuild | indexer-rs/src/manifest_store.rs:105-292 | when every executed plan is activated before the next and none became READY since it was planned, the index is always that of a rebuild of READY |
| IndexRuns.AbandonedRunIsExact | indexer-rs/src/worker.rs:510-1192 | after an execution that is given up, the next manifest becomes READY with a right index exactly when its plan fits the abandoned one |
| IndexRuns.AbandonedRunLeavesStaleShards | indexer-rs/src/worker.rs:510-1192 | when it has the contents that were READY before, its Zoekt plan is a NOOP and its shards are not the rebuild |
| BulkInsert.RowBinds | indexer-rs/src/manifest_store.rs:570-605 | a row's placeholders name the parameters pushed for that row and column, the last one the manifest's id |
| BulkInsert.RowStores | indexer-rs/src/manifest_store.rs:558-603 | with the columns in the statement's order, a table row takes a file's parameters exactly when it holds that file's path, hash, language, root, flags and artifacts under its id and the manifest's |
| BulkInsert.InsertChunk | indexer-rs/src/manifest_store.rs:555-612 | executing one statement stores exactly the chunk's rows, column by column; all rows share the final parameter |
| BulkInsert.BulkInsertFiles | indexer-rs/src/manifest_store.rs:542-614 | executing the statements stores exactly every file once, in order, with its own columns; no statement binds more than 59,995 parameters |
| BulkInsert.InsertIsDetermined | indexer-rs/src/manifest_store.rs:542-614 | the statements can be executed, and only one sequence of rows comes of it |
| BulkInsert.LoadManifestFiles | indexer-rs/src/manifest_store.rs:406-460 | the loop reads the table's rows of one manifest by column |
| BulkInsert.InsertedFilesLoadBack | indexer-rs/src/manifest_store.rs:406-614 | inserting a new manifest's files and loading them gives those files row by row as the table keeps them, the set the plans are made from, and every other manifest loads as before |
| GraphModel.VidIdentifies | indexer-rs/src/code_graph_model.rs:153-233 | vids are equal exactly for equal organisation, workspace, repository, commit, effective versions, kind and key |
| GraphModel.VidSeparatesTenants | indexer-rs/src/code_graph_model.rs:153-233 | even when digests collide, vids of different organisations, repositories, schema versions or twelve-digit commits differ |
| GraphModel.EdgeKeyIdentifies | indexer-rs/src/fact_to_snapshot.rs:254-257 | with no bar in ends and kinds, edge keys are equal exactly when ends, kind and rank are |
| GraphModel.VidHasNoBar | indexer-rs/src/code_graph_model.rs:153-196 | vids of valid scopes contain no bar |
| GraphModel.ComputeNormalizeToken | indexer-rs/src/code_graph_model.rs:245-262 | the character loop computes the collapse of the trimmed text |
| GraphModel.NormalizeTokenIsCanonical | indexer-rs/src/code_graph_model.rs:245-262 | the result has only token characters in lower case, and normalizing again changes nothing |
| GraphModel.NormalizeTokenKeepsTokens | indexer-rs/src/code_graph_model.rs:245-262 | a text of token characters keeps its length and each character up to case |
| AccumulatorLaws.AddVertexKeeps | indexer-rs/src/fact_to_snapshot.rs:164-231 | adding a vertex keeps the accumulator well formed, overwrites nothing, and the vertex is stored |
| AccumulatorLaws.AddEdgeKeeps | indexer-rs/src/fact_to_snapshot.rs:245-375 | adding an edge between stored ends keeps the accumulator well formed and overwrites nothing |
| AccumulatorLaws.AddEdgeRecords | indexer-rs/src/fact_to_snapshot.rs:254-260 | an edge is dropped only when an edge with the same ends, kind and rank is stored |
| AccumulatorLaws.AddFileVertexKeeps | indexer-rs/src/fact_to_snapshot.rs:381-415 | a file vertex and its CONTAINS edge keep the accumulator well formed |
| AccumulatorLaws.AddAstFactsKeeps | indexer-rs/src/fact_to_snapshot.rs:449-631 | an AST batch keeps the accumulator well formed and overwrites nothing |
| AccumulatorLaws.AddAstFactsRecords | indexer-rs/src/fact_to_snapshot.rs:449-631 | every fact has its edge from its source vertex to its target vertex with its kind, and the repository contains its file |
| AccumulatorLaws.AddScipRowsKeeps | indexer-rs/src/fact_to_snapshot.rs:949-1130 | a SCIP batch keeps the accumulator well formed and overwrites nothing |
| AccumulatorLaws.AddScipRowsRecords | indexer-rs/src/fact_to_snapshot.rs:1055-1127 | every set flag of every relationship has its edge from source symbol to target symbol |
| AccumulatorLaws.AddBatchesKeeps | indexer-rs/src/fact_to_snapshot.rs:449-1130 | every sequence of batches keeps edges anchored at stored vertices or the repository, rows stamped, keys exact |
| AccumulatorOrigins.NewEdgeSays | indexer-rs/src/fact_to_snapshot.rs:261-374 | an edge's columns read back the confidence, tier, evidence, lines, source, provenance and context it was given, or their defaults, the context's by its kind |
| AccumulatorOrigins.AddAstFactsOrigin | indexer-rs/src/fact_to_snapshot.rs:449-631 | every edge an AST batch adds runs from a fact's source to its target with that fact's kind, confidence, file and lines, or contains that fact's file; none is invented |
| AccumulatorOrigins.AstBatchTier | indexer-rs/src/fact_to_snapshot.rs:458-465 | an edge of an AST batch contains a file or has the tier that the confidence of the batch's first fact decides |
| AccumulatorVertices.AddAstFactsVertex | indexer-rs/src/fact_to_snapshot.rs:449-631 | every vertex an AST batch adds is that of a fact's file, source or target, and its key, label, path, language, source, confidence, tier and evidence are that end's own |
| AccumulatorVertices.AddAstFactsStoresEnds | indexer-rs/src/fact_to_snapshot.rs:449-631 | both ends of every fact are stored |
| AccumulatorVertices.EndsShowTheirSymbols | indexer-rs/src/fact_to_snapshot.rs:449-631 | whichever fact wrote it first, a vertex the batch added has as its key the symbol of every fact that ends or starts there |
| AccumulatorVertices.AddScipRowsVertex | indexer-rs/src/fact_to_snapshot.rs:949-1186 | every vertex a SCIP batch adds is a symbol's file, a symbol with its own display name, language, file and lines, or a bare end of a relationship no row describes |
| AccumulatorVertices.ScipKindIsNamed | indexer-rs/src/fact_to_snapshot.rs:897-920 | a SCIP kind counts in any case, a kind named as a vertex kind is that kind, and there are five |
| VertexIdentity.FileVidIdentifies | indexer-rs/src/fact_to_snapshot.rs:381-415 | file vertices are equal exactly for equal paths |
| VertexIdentity.SourceVidIdentifies | indexer-rs/src/fact_to_snapshot.rs:480-541 | two facts start at one vertex exactly when both sources are modules of one file, or neither is and they agree on vertex kind and symbol |
| VertexIdentity.TargetVidIdentifies | indexer-rs/src/fact_to_snapshot.rs:543-604 | two facts end at one vertex exactly when they agree on vertex kind and symbol |
| VertexIdentity.SourceMeetsTarget | indexer-rs/src/fact_to_snapshot.rs:480-604 | a fact starts where another ends exactly when they agree on the symbol and are class and class or interface, method and method, or neither and function |
| VertexIdentity.FileIsNoTarget | indexer-rs/src/fact_to_snapshot.rs:381-604 | no fact ends at a file vertex, not even an import of a module |
| VertexIdentity.SymbolIndexHolds | indexer-rs/src/fact_to_snapshot.rs:949-1054 | the symbol table holds the last row of each symbol |
| VertexIdentity.RelatedVidIdentifies | indexer-rs/src/fact_to_snapshot.rs:1137-1186 | two ends of relationships, of one batch or two, are one vertex exactly for one symbol of one kind |
| VertexIdentity.ScipIsNoFact | indexer-rs/src/fact_to_snapshot.rs:449-1186 | a SCIP symbol is never the vertex of a syntactic fact |
| ScopeVertices.ScopeIsItsDefinition | indexer-rs/src/fact_to_snapshot.rs:480-604 | what a declaration contains starts at the vertex of its definition exactly for classes, methods and functions |
| AccumulatorOrigins.AddRelationshipsOrigin | indexer-rs/src/fact_to_snapshot.rs:1055-1127 | every edge the relationships add is that of a set flag of one of them, with the SCIP columns |
| AccumulatorOrigins.AddScipRowsOrigin | indexer-rs/src/fact_to_snapshot.rs:949-1130 | every edge a SCIP batch adds contains a symbol's file, contains a symbol in its file, or stands for a set flag of a relationship with the SCIP columns |
| GraphBuilder.GraphAccumulator.AddVertex | indexer-rs/src/fact_to_snapshot.rs:164-231 | a bad scope is reported and changes nothing; otherwise first write wins |
| GraphBuilder.GraphAccumulator.AddEdge | indexer-rs/src/fact_to_snapshot.rs:245-375 | first write wins |
| GraphBuilder.GraphAccumulator.AddFileVertex | indexer-rs/src/fact_to_snapshot.rs:381-415 | the file vertex and its edge, or an error and no change |
| GraphBuilder.GraphAccumulator.EnsureFile | indexer-rs/src/fact_to_snapshot.rs:467-478 | going through the file cache has the effect of adding the file every time |
| GraphBuilder.GraphAccumulator.AddSyntacticLanguageAstFacts | indexer-rs/src/fact_to_snapshot.rs:449-631 | the cached loop does what adding each fact in turn without a cache does; with a bad scope nothing changes |
| GraphBuilder.GraphAccumulator.EnsureScipSymbolVid | indexer-rs/src/fact_to_snapshot.rs:1137-1186 | a symbol's vid through the cache, a bare vertex for an unknown one |
| GraphBuilder.GraphAccumulator.AddScipSemanticFacts | indexer-rs/src/fact_to_snapshot.rs:949-1130 | the three cached loops do what the uncached specification says; with a bad scope nothing changes |
| GraphBuilder.GraphAccumulator.ReconcileEdgeProvenance | indexer-rs/src/fact_to_snapshot.rs:1209-1241 | the edges become the reconciled ones, vertices and anchors are kept |
| GraphBuilder.GraphAccumulator.CollectAnchors | indexer-rs/src/fact_to_snapshot.rs:662-711 | the first loop leaves the anchors and the primary names of the vertices in key order |
| GraphBuilder.GraphAccumulator.MaterializeGraphAnchors | indexer-rs/src/fact_to_snapshot.rs:661-768 | both loops together leave the materialized graph |
| Triples.RetainWinners | indexer-rs/src/fact_to_snapshot.rs:1209-1241 | the three passes keep exactly the edges ahead of all others of their triple, for any score |
| Reconcile.ScoreOrder | indexer-rs/src/fact_to_snapshot.rs:1250-1262 | the combined score orders edges by per-mille confidence, then bonus |
| Reconcile.ReconcileEdges | indexer-rs/src/fact_to_snapshot.rs:1209-1241 | the passes keep exactly the edges that outrank every rival by confidence, then bonus, then smaller key |
| Reconcile.ReconciledTriples | indexer-rs/src/fact_to_snapshot.rs:1209-1241 | no (from, to, kind) triple is lost and none occurs twice |
| Reconcile.DroppedIsOutranked | indexer-rs/src/fact_to_snapshot.rs:1209-1241 | survivors are unchanged; an edge is dropped exactly when the survivor of its triple outranks it |
| Reconcile.ReconciledIsIdempotent | indexer-rs/src/fact_to_snapshot.rs:1209-1241 | reconciling twice is reconciling once |
| Reconcile.SurvivorIsBest | indexer-rs/src/fact_to_snapshot.rs:1209-1262 | by their columns: a survivor is as confident as every edge of its triple to a thousandth, and at equal confidence scip beats tree-sitter and tree-sitter beats heuristic |
| Linking.LinkAll | indexer-rs/src/fact_to_snapshot.rs:713-767 | the loop links the first qualifying edges in key order and stops at the limit |
| Linking.LinkingTwice | indexer-rs/src/fact_to_snapshot.rs:713-767 | linking again adds nothing when links do not qualify themselves |
| Anchors.PrimaryIsOwnName | indexer-rs/src/fact_to_snapshot.rs:662-711 | with vertices stored under their vids, a vid's primary name is its own vertex's, or none when that is not anchored |
| Anchors.AddAnchorsHas | indexer-rs/src/fact_to_snapshot.rs:770-776 | every vertex with a telling name has its anchor |
| Anchors.AddAnchorsOrigin | indexer-rs/src/fact_to_snapshot.rs:770-776 | every stored anchor was there before or is that of a vertex |
| AnchorNames.AnchoredExactly | indexer-rs/src/fact_to_snapshot.rs:662-711 | a vertex with a display name is anchored under it exactly when its kind is anchored and the normalized name is neither empty nor low-signal |
| AnchorNames.AnchorTellsFact | indexer-rs/src/fact_to_snapshot.rs:662-711 | the anchor of an end of a fact has that fact's display name, file, confidence and tier, and no lines |
| AnchorNames.AnchorTellsSymbol | indexer-rs/src/fact_to_snapshot.rs:662-711 | the anchor of a SCIP symbol has its display name, file and lines |
| AnchorNames.AnchorKeyIdentifies | indexer-rs/src/fact_to_snapshot.rs:770-776 | two vertices share an anchor exactly when they agree on anchor kind, normalized name and vid |
| AnchorNames.LinksFollowUses | indexer-rs/src/fact_to_snapshot.rs:800-816 | of the edges of facts all but definitions can be linked, and containment and links never |
| AnchorNames.LinksFollowFlags | indexer-rs/src/fact_to_snapshot.rs:800-816 | of the edges of relationships all but definitions |
| Anchors.ScopeFromStamped | indexer-rs/src/fact_to_snapshot.rs:861-871 | an edge stamped with a valid scope gives that scope back, defaulted versions made explicit |
| GraphSnapshot.MaterializedKeeps | indexer-rs/src/fact_to_snapshot.rs:661-768 | vertices and existing edges are unchanged and at most 10,000 edges are added |
| GraphSnapshot.NewLinkParallels | indexer-rs/src/fact_to_snapshot.rs:713-767 | every added edge is an ANCHOR_LINK parallel to an eligible edge whose ends have different names, with that edge's scope, evidence and context, a confidence capped at 0.9 and both names in its key |
| GraphSnapshot.OneNewLinkPerPair | indexer-rs/src/fact_to_snapshot.rs:748-765 | at most one link is added per vertex pair |
| GraphSnapshot.LinksAreBounded | indexer-rs/src/fact_to_snapshot.rs:715-718 | from a graph without links there are at most 10,000 |
| GraphSnapshot.EveryLinkableEdgeIsLinked | indexer-rs/src/fact_to_snapshot.rs:713-767 | with at most 10,000 linkable edges each has its link |
| GraphSnapshot.MaterializedIsIdempotent | indexer-rs/src/fact_to_snapshot.rs:661-768 | materializing twice is materializing once, for every graph |
| GraphSnapshot.BuiltIsSound | indexer-rs/src/fact_to_snapshot.rs:164-1241 | after any batches under a valid scope, reconciling and linking: edges end at stored vertices and start at one or at the repository, every row carries the scope's stamps, no triple occurs twice |
| GraphSnapshot.BuiltTriples | indexer-rs/src/fact_to_snapshot.rs:661-1241 | reconciling and linking neither lose nor invent a triple other than links |
| BatchTriples.AccumulatedIsAsked | indexer-rs/src/fact_to_snapshot.rs:449-1130 | every accumulated edge is asked for by a fact, a symbol or a set flag of one of the batches |
| BatchTriples.AskedIsAccumulated | indexer-rs/src/fact_to_snapshot.rs:449-1130 | whatever a batch asks for is there at the end |
| BatchTriples.BuiltIsWhatWasAsked | indexer-rs/src/fact_to_snapshot.rs:449-1241 | a built graph has exactly the triples its facts, symbols and set flags ask for, besides links |
| GraphSnapshot.BuildBranchGraph | indexer-rs/src/worker.rs:953-1060 | the accumulator's methods in the handler's order build that graph; an error means a bad scope |
| Ngql.PushChunks | indexer-rs/src/nebula_ngql.rs:344-353 | the chunk loop pushes the rendering of each chunk |
| Ngql.RenderSnapshotStatements | indexer-rs/src/nebula_ngql.rs:344-353 | schema, then vertex chunks, then edge chunks |
| Ngql.RenderDeleteVerticesStatements | indexer-rs/src/nebula_ngql.rs:412-423 | one statement per chunk of vids |
| NgqlReader.StringReads | indexer-rs/src/nebula_ngql.rs:538-544 | a quoted literal reads back as its string, for all strings, following the escapes of section 7 of RFC 8259 |
| NgqlReader.CellReads | indexer-rs/src/nebula_ngql.rs:520-546 | every value reads back, non-finite doubles as NULL and finite ones as their token |
| NgqlReader.VertexInsertReads | indexer-rs/src/nebula_ngql.rs:426-461 | reading an INSERT VERTEX statement recovers vid and every column in order, missing ones as NULL |
| NgqlReader.EdgeInsertReads | indexer-rs/src/nebula_ngql.rs:464-501 | reading an INSERT EDGE statement recovers ends, rank and every column in order |
| NgqlReader.DeleteReads | indexer-rs/src/nebula_ngql.rs:412-423 | reading a DELETE VERTEX statement recovers the vids |
| NgqlReader.SchemaReads | indexer-rs/src/nebula_ngql.rs:212-309 | schema statements are read as such and as nothing else |
| GraphStore.RetriesAreIdempotent | indexer-rs/src/queue.rs:115-118 | any number of partial deliveries and then the whole list give the store of the whole list alone |
| GraphStore.SnapshotTextHolds | indexer-rs/src/nebula_ngql.rs:344-353 | the rows in the text of a snapshot are exactly its rows, however they fall into chunks |
| GraphStore.DeliveredSnapshotIsExact | indexer-rs/src/nebula_ngql.rs:344-353 | from an empty store, with distinct vids and (from, to, rank) triples, the store is exactly the snapshot |
| GraphStore.DeliveredRows | indexer-rs/src/nebula_ngql.rs:344-353 | after any abandoned deliveries the store is what storing the snapshot's rows one after the other gives |
| GraphStore.StoredCount | indexer-rs/src/nebula_ngql.rs:426-501 | storing rows keeps one for each exactly when their keys are distinct |
| GraphStore.DeletionsRemove | indexer-rs/src/nebula_ngql.rs:412-423 | executing the rendered deletions removes exactly the listed vertices and their edges |
| BuiltStore.BuiltKeysAreDistinct | indexer-rs/src/fact_to_snapshot.rs:637-659 | the rows of a built graph have distinct store keys exactly when no two edges with the same ends share a rank |
| BuiltStore.BuiltIsStoredExactly | indexer-rs/src/fact_to_snapshot.rs:637-659 | then delivering its statements, after any abandoned deliveries, stores exactly its rows |
| BuiltStore.BuiltIsStoredWhole | indexer-rs/src/fact_to_snapshot.rs:637-659 | after executing the delivered statements, abandoned deliveries included, the store has a row for every vertex and edge exactly then |
| BuiltStore.CollidingRanksLoseAnEdge | indexer-rs/src/fact_to_snapshot.rs:1055-1127 | one relationship that is an implementation and a reference, with equal ranks, builds two edges that share a store key |
| Walker.NextQueue | indexer-rs/src/ast_extractor.rs:2664-2714 | listing a directory makes the queue one directory lighter, by which both walks end |
| WalkerScan.ScanSyntacticAstFacts | indexer-rs/src/ast_extractor.rs:2618-2799 | the single-language loops compute the walk of the specification, and within the limits exactly what the tree yields in all four fields |
| WalkerScan.ScanSyntacticAstFactsMulti | indexer-rs/src/ast_extractor.rs:2808-3016 | the shared loops, with their index tables, compute the shared walk of the specification, early return included |
| WalkerScan.SetUp | indexer-rs/src/ast_extractor.rs:2812-2847 | the set-up loop lists each language once, with the active indexes and the extension table |
| WalkerScan.ExtensionsTableOk | indexer-rs/src/ast_extractor.rs:2508-2521 | no language lists an extension twice |
| WalkerLaws.StartNames | indexer-rs/src/ast_extractor.rs:2817-2847 | each trimmed non-blank name has exactly one place |
| WalkerLaws.SharedWalkFollows | indexer-rs/src/ast_extractor.rs:2876-3013 | from any point of the walk, the single-language walk records a prefix, and the same unless it stops on the file limit |
| WalkerLaws.SharedWalkServesEach | indexer-rs/src/ast_extractor.rs:2808-3016 | for every tree and list of names each language's own result is a prefix of its shared one, and all four fields agree unless its own walk stops on the file limit |
| WalkerLaws.WalkScansListing | indexer-rs/src/ast_extractor.rs:2664-2796 | a walk scans a prefix of the breadth-first listing of the tree, all of it if neither limit is met, and stops on files only with that many scanned |
| WalkerLaws.IgnoredFolderYieldsNothing | indexer-rs/src/ast_extractor.rs:2576-2593 | nothing below a dotted folder, or one of dependencies or build output, is reached |
| WalkerLaws.UnlimitedWalkIsComplete | indexer-rs/src/ast_extractor.rs:2664-2796 | with no more directories and fewer extractable files than the limits the walk finds exactly the facts of the tree and counts it exactly, however many links and other files there are |
| WalkerLaws.SharedWalkIsComplete | indexer-rs/src/ast_extractor.rs:2808-3016 | so does the shared walk for every listed language within the limits |
| WalkerLaws.EveryFileIsCountedOnce | indexer-rs/src/ast_extractor.rs:2664-2796 | scanned and skipped never exceed their files; a walk that meets neither limit scans exactly the files of the language that can be read, fit and extract, skips exactly the links and its other files, and has one ParseFailed warning for each that fails to extract |
| Visitor.TsVisitor.VisitTsNode | indexer-rs/src/ast_extractor.rs:2103-2423 | the visit emits what the pure recursion emits, restores the stack, and visits the nodes in preorder |
| Visitor.TsVisitor.VisitNamedChildren | indexer-rs/src/ast_extractor.rs:2425-2437 | the same for a list of children under the current scope |
| Visitor.TsVisitor.VisitClass | indexer-rs/src/ast_extractor.rs:2139-2185 | a named class defines, extends, implements and is descended into under its own scope; an unnamed one is left to its parent's |
| Visitor.TsVisitor.VisitInterface | indexer-rs/src/ast_extractor.rs:2186-2222 | a named interface defines, extends and is descended into |
| Visitor.TsVisitor.VisitNamed | indexer-rs/src/ast_extractor.rs:2223-2251 | aliases, enums and inner modules |
| Visitor.TsVisitor.VisitFunction | indexer-rs/src/ast_extractor.rs:2252-2275 | functions and generators |
| Visitor.TsVisitor.VisitMember | indexer-rs/src/ast_extractor.rs:2276-2336 | methods always, pairs and fields only with a function value |
| Visitor.TsVisitor.VisitVariable | indexer-rs/src/ast_extractor.rs:2337-2375 | a variable opens a scope exactly when it is named and its value is a function |
| Visitor.TsVisitor.VisitUse | indexer-rs/src/ast_extractor.rs:2376-2419 | re-exports, calls, constructor calls and elements, from the current scope |
| VisitorSpec.VisitsEachNodeOnce | indexer-rs/src/ast_extractor.rs:2103-2437 | the visited nodes are exactly those not inside an import statement, each once |
| VisitorSpec.EmittedByNode | indexer-rs/src/ast_extractor.rs:2103-2437 | the facts are those of the visited nodes in order, each told from its innermost enclosing declaration |
| VisitorFacts.NodeTells | indexer-rs/src/ast_extractor.rs:1795-2423 | a fact is among a node's exactly when every field fits: calls and definitions from the enclosing scope, imports from the module, bases and interfaces from the declared class or interface, each with its own kind and target |
| VisitorFacts.NodeTellsOnce | indexer-rs/src/ast_extractor.rs:2103-2423 | how many facts a node tells: one definition, and one for each base and interface listed |
| VisitorFacts.ScopeIsNearestDeclaration | indexer-rs/src/ast_extractor.rs:2088-2100 | the scope of a node is the declaration of its nearest ancestor that declares, with that node's name, kind and symbol, or the module |
| VisitorFacts.EmittedTell | indexer-rs/src/ast_extractor.rs:2103-2437 | a fact is emitted exactly when a node outside import statements tells it from its scope |
| VisitorFacts.MembersOfClassesApart | indexer-rs/src/ast_extractor.rs:2276-2336 | members of one name in two classes have one symbol exactly when the classes have one name |
| VisitorFacts.FirstSegmentEndsAtDot | indexer-rs/src/ast_extractor.rs:2378 | the first segment is the callee up to its first dot or colon |
| Extraction.ExtractTreeSitterFacts | indexer-rs/src/ast_extractor.rs:2450-2482 | parsing fails as the parser does; otherwise the facts are exactly those the nodes tell |
| ProjectRoots.DirnameSplits | indexer-rs/src/manifest_files.rs:325-330 | a directory and a plain name come back apart, and a bare name is in "." |
| ProjectRoots.SortedStably | indexer-rs/src/manifest_files.rs:310-313 | the sort descends by byte length, permutes, and keeps equal lengths in order |
| ProjectRoots.DetectProjectRoots | indexer-rs/src/manifest_files.rs:289-314 | the search list holds "." and every marker's directory once, longest first, with "." before every other root of at most one byte |
| ProjectRoots.NearestProjectRoot | indexer-rs/src/manifest_files.rs:316-323 | the first root of the list that matches |
| ProjectRoots.RootOf | indexer-rs/src/manifest_files.rs:289-330 | for every file list and path, the unique longest detected root of at least two bytes at or above the path, and "." when there is none |
| WorkerHandler.IndexWorker.HandleIndex | indexer-rs/src/worker.rs:165-1245 | the handler's effect and ending are those of the step protocol, for every choice of answers; it keeps READY manifests backed by accepted payloads, moves no READY row unless it activates, and does nothing for a terminal job |
| WorkerHandler.IndexWorker.PrepareAndIndex | indexer-rs/src/worker.rs:383-403 | preparing, its error exit, and a preparation cut off after any revision |
| WorkerHandler.IndexWorker.RunEngines | indexer-rs/src/worker.rs:431-854 | the plan handoff, Zoekt and SCIP with their different ways of giving up |
| WorkerHandler.IndexWorker.BuildPayloads | indexer-rs/src/worker.rs:888-1118 | a payload for each revision that needs one; an invalid scope skips the revision |
| WorkerHandler.IndexWorker.EnqueuePayloads | indexer-rs/src/worker.rs:1120-1134 | payloads are accepted in order up to the first failure |
| WorkerHandler.IndexWorker.StampAndActivate | indexer-rs/src/worker.rs:1155-1216 | stamping and recording come before activation, and only activation failures mark anything |
| WorkerLaws.StatementsRenderRows | indexer-rs/src/worker.rs:1089-1092 | a snapshot with rows always renders to statements, so that skip never happens |
| WorkerLaws.ReadyOnlyAfterAccepted | indexer-rs/src/worker.rs:890-1201 | over every sequence of deliveries with the graph enabled, a READY manifest with a valid scope and a non-NOOP graph plan has had its payload accepted |
| WorkerLaws.StoppedRunKeepsReady | indexer-rs/src/worker.rs:194-1201 | a run that stops before its activation takes effect leaves every scope's READY row as it was |
| WorkerLaws.TerminalDeliveryChangesNothing | indexer-rs/src/worker.rs:194-211 | a delivery for a terminal or unknown job changes nothing |
| WorkerOutcomes.RunIsTold | indexer-rs/src/worker.rs:194-1215 | for every started delivery the job row, whether the activation takes effect, the manifest rows and the ending are decided by the first stage that does not work |
| WorkerOutcomes.ActivationIsTold | indexer-rs/src/worker.rs:194-1201 | the activation takes effect exactly when the job is not terminal, marking it works, and no stage up to the activation fails to work |
| WorkerOutcomes.JobStatusIsExact | indexer-rs/src/worker.rs:194-1215 | the job's status afterwards, from that stage alone |
| WorkerOutcomes.EndingIsTold | indexer-rs/src/worker.rs:194-1245 | how a run ends: done exactly when no stage gives trouble, dead when a stage or a marking dies, otherwise an error |
| WorkerOutcomes.FailureIsFinalExactly | indexer-rs/src/worker.rs:1693-1715 | the job ends FAILED exactly when that stage fails, marks the job, and marking takes effect; then redelivery changes nothing, and otherwise an uncompleted job starts again |
| WorkerOutcomes.OtherFailuresAreRetried | indexer-rs/src/worker.rs:431-1215 | a failed handoff, enqueue, stamp, record or completion, or dying before completing, leaves the job IN_PROGRESS; it is COMPLETED exactly when completing took effect |
| WorkerOutcomes.FailedCheckoutIsFinal | indexer-rs/src/worker.rs:230-290 | one failed checkout, marked, and the job is FAILED with nothing indexed, and never runs again |
| WorkerRedelivery.RedeliveryRunsNothing | indexer-rs/src/worker.rs:194-1215 | a whole second run on unchanged refs adds only idle rows, calls no engine and gives the queue nothing, whatever fails in it |
| WorkerShards.HandleEnds | indexer-rs/src/worker.rs:383-1201 | whatever fails, a delivery leaves the rows as they were, prepared, prepared and marked failed, or prepared and activated, and its answers tell which |
| WorkerShards.HandleIsRun | indexer-rs/src/worker.rs:383-1201 | a delivery is the run of the moves its answers tell: same rows, and at each scope the index of the last manifest listed there if Zoekt took effect, otherwise the old index |
| WorkerShards.HandleAllIsRun | indexer-rs/src/worker.rs:383-1201 | so are deliveries one after the other: same rows, and at every scope the index they reach one by one |
| WorkerShards.ShardLaw | indexer-rs/src/worker.rs:486-1201 | scope by scope, from the answers, the plans and the shards before, exactly when a delivery leaves the shards of the READY manifest equal to its rebuild |
| WorkerShards.DeliveriesServe | indexer-rs/src/worker.rs:486-1201 | over every sequence of deliveries the shards are those of the READY manifests throughout if and only if the answers of every run let it finish what it rewrote |
| WorkerShards.RevertedBranchIsStale | indexer-rs/src/worker.rs:510-1201 | one READY manifest, a delivery with other contents in which only stamping fails, and a delivery with the READY contents in which everything works leave a READY manifest over the shards of the first |
| WorkerShards.NextRunRepairs | indexer-rs/src/worker.rs:510-1201 | stale shards are repaired by an activating run exactly when some revision of it has Zoekt work |
| WorkerScip.NewKeysArePlanned | indexer-rs/src/worker.rs:638-812 | a run gives SCIP rows only to commits it prepared with SCIP work planned |
| WorkerScip.StoppedRunKeepsScip | indexer-rs/src/worker.rs:638-1201 | a run stopped before its activation leaves every READY manifest its SCIP rows, whatever it persisted |
| WorkerScip.ScipLaw | indexer-rs/src/scip.rs:905-1065 | exactly when, after a delivery, the READY manifest of a scope has SCIP rows under its own commit |
| WorkerScip.DeliveriesNavigable | indexer-rs/src/worker.rs:638-1201 | over every sequence of deliveries each READY manifest has SCIP rows throughout if and only if every activating run lists only manifests with SCIP work or with commits that have rows |
| WorkerScip.RepeatedContentHasNoScipRows | indexer-rs/src/worker.rs:642-645 | a new commit with the READY contents becomes READY without SCIP rows |
| WorkerLaws.OnlyDeliverablesAreAccepted | indexer-rs/src/worker.rs:890-1134 | the queue accepts from a run only payloads of manifests the run prepared, with a valid scope, a non-NOOP graph plan, a snapshot with rows and a size within the budget |
| WorkerLaws.PayloadScopeIsManifests | indexer-rs/src/worker.rs:888-950 | the graph of a revision carries the organisation, repository, workspace, branch and commit of the manifest prepared for it |
| WorkerLaws.JobTellsOutcome | indexer-rs/src/worker.rs:194-1215 | a job is COMPLETED only by a run whose activation took effect, FAILED only by one whose did not, and a run that ends well completes its job |
| WorkerLaws.ActivatedIsPrepared | indexer-rs/src/worker.rs:383-1201 | an activation that took effect is that of the manifests the same run prepared |
| WorkerLaws.ActivatedBranchIsReady | indexer-rs/src/worker.rs:1191-1201 | after it the READY row of each branch is the one just prepared for it |
| WorkerLaws.RedeliveryIsIdle | indexer-rs/src/worker.rs:194-403 | redelivery after activation on unchanged refs and fingerprint plans NOOP for every engine, exactly when the fingerprint's version fits its column |

## Left out

- Regular expressions, tree-sitter parsing and the per-language line extractors: a file's facts and a node's attributes are inputs.
- The digits of `format_js_number`: a finite double is printed as an opaque token of number characters.
- Timestamps, UUID generation, reason strings, log messages and serialized names: constants or inputs with nothing to prove.
- Overflow of 64-bit integers and rounding of doubles: integers are unbounded and confidences are reals.  `edge_score` saturates only for confidences beyond 9.2e15.
- Postgres isolation anomalies: statements and transactions are atomic.
- The text of the bulk insert: a statement is its column list, its rows of parameter numbers and its parameters, not the SQL string.
- The index cleanup that goes with deleting a repository: `IndexRuns` pairs it with the row deletion.
- NgqlReader.SchemaReads: reads a schema statement as one that creates schema; the columns and indexes in it are not read back.
- Shards beyond a branch's own: one repository prefix holds all branches of all workspaces, and what a Zoekt run does to branches it was not given is not modelled.
- What a SCIP run extracts: `WorkerScip` follows which commits have rows, not missing indexer binaries, the project cap or partial results.
- The handler's graph rows across deliveries: vids carry the commit, and `WorkerLaws.ReadyOnlyAfterAccepted` follows the payloads; what graph plans do over a run is in `IndexRuns`.
- A Zoekt run that fails or dies half way: it either takes effect or leaves the shards as they were.
- `Repo.metadata` and `Repo.indexedAt`: stamping and recording are steps that can fail, without a modelled effect.
- A manifest row whose files were not all inserted when the process died: it stays PENDING and is never read, and is modelled with its files.
- Git access, cloning, process spawning, gRPC, the Redis and Postgres clients: calls that answer.
- `safe_materialized_path`, `infer_language` and the path classifiers: easy members.
- The ALTER, DESCRIBE and LOOKUP statements: easy members of the renderer.
- Go packages, the admin UI and the legacy TypeScript: outside the indexer.
