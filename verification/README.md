# c-val verification

A Dafny model of the parts of c-val where a mistake would lose evidence, create a Job twice, or accept a run that was
not recorded, with proofs of what those parts keep. c-val validates GPU nodes: it submits one validation Job per node,
tracks it through its log, records metrics and status rows in seven SQLite stores, and rearranges and backs up the
volume that holds the evidence. Python objects that change in place are classes with `modifies` clauses, loops are
loops with invariants, and crashes, lost replies and concurrent changes are nondeterministic choices.

`dafny verify dfyconfig.toml` checks everything.

| Part | Modules |
|---|---|
| Evidence volume: consolidation and rollback | EvidencePaths, TreeEdits, LayoutPlan, LayoutPlanner, LayoutState, LayoutSteps, LayoutFacts, LayoutTransaction, LayoutRun, LayoutRollback, LayoutOutcome |
| Job admission: the submission journal against an adversarial cluster | Journal, Admission, RequestedFields |
| Verification: bounded evidence reads, source states, releasing reports | EvidenceReader, Verification |
| DL metrics: generations, batched rebuild, flat payloads | Generations, MetricRows, StoreUpdates, Rebuild, FlatPayload, FlatRegrouping, FlatNormalizer, FlatRowCounts |
| Tracking a running Job through its log | Tracking, Polling |
| One run: result schema, strict parser, runner, supervisor, ingestion | Identifiers, ResultSchema, ResultParser, Runner, Supervisor, RunStores, Ingestion |
| Backup | BackupRecords, BackupCreation, BackupDirectories, BackupOutcome |
| Coverage, priority, status snapshot, capacity | Priority, Coverage, StatusSnapshot, PodRequest |
| Shared | Wrappers, Sets |

## Main results

- **Consolidation** (`LayoutRollback.ApplyThenRecover`, `LayoutOutcome`). Plan any well-formed tree, apply, crash after any
  durable step, roll back through any number of further crashes: no rollback refuses, and the first that is not cut short
  restores every path, content and merged directory's mode, owner and time. A completed consolidation is the
  right-biased union of the trees, keeps all content, and every old evidence path still resolves to the same content.
- **Admission** (`Admission.RunSession`). Over every schedule of submissions and reconciliations, with crashes and lost
  replies anywhere: each name and run id has at most one create attempt, at most one unfinished intent per node and at
  most `limit` in all, and a finished intent's Job was never created or is terminal under the one uid its events carry.
- **Generations** (`Generations.AcceptedReadIsOneSnapshot`) and **evidence reads** (`EvidenceReader.ReadTogether`). What
  an accepted reader saw existed together at one moment.
- **Rebuild** (`Rebuild.Databases.IngestResults`). Whatever the batch size and wherever it stops, a published generation
  holds exactly the deduplicated discovered evidence in scope and leaves other runs alone.
- **Flat payloads** (`FlatNormalizer.NormalizeFlatRankPayload`, `FlatRowCounts.RegroupingIsBijective`). The count checks
  accept exactly the complete 6 by 8 products.
- **Tracking** (`Polling.Follow`). Overlapping polls from a truncated cursor report what one read of everything would.
- **Runner and supervisor** (`Runner.RunValidationTests`, `Supervisor.SuperviseValidationRun`). Every written state is
  accepted by the strict parser; a complete recording means a requested ingestion and a zero exit, and conversely under
  a stated condition.
- **Ingestion** (`Ingestion.Recorder.IngestRuns`, `Ingestion.Recorder.IngestUntilFinished`). Over any schedule of attempts
  for any runs, no run's status rows outrun its raw stores; re-running after any failure reaches the contents of one
  uninterrupted run.
- **Backup** (`BackupOutcome.RunBackup`). Every backup the command creates passes its own verification, files, links,
  contents and directories alike, and shares inodes exactly as its source did.

## Where the code does less than one might expect

Each of these is proved, with the condition under which it happens.

- *Hidden reservation.* `check_active_jobs` keeps one node per name, and a live Job overrides the journal's node. So a
  foreign validation Job that still holds another node under the name of an unfinished intent hides that intent's
  reservation, and nothing else does (`Admission.ReservationHiddenIff`, `Admission.ImpostorAdmitsSecondIntent`). The
  one-per-node result assumes there is none, neither for an unfinished intent nor for the one being submitted
  (`Journal.NoImpostor`, `Journal.Placed`).
- *Truncated poll.* A read cut short before the point reached before can drop a retained acknowledgement until the next
  complete poll; a read changes nothing for any log exactly when it is empty, or reaches that point without starting
  before the first line ever read, which a replay of a whole second may do and then adds what stands there
  (`Polling.CutIsSafeIff`).
- *Late loss of evidence.* Evidence that disappears between the supervisor's two file checks leaves a zero exit with an
  incomplete recording (`Supervisor.LateLossIsNotRecorded`). A failing directory sync after publication leaves a complete
  recording behind a raised error.
- *A file named logs.* The planner reports no conflict when a regular file stands where the directory `logs` is needed.
  With enough steps consolidation then fails, recoverably, exactly if some retired root other than `archive` exists, and
  completes otherwise (`LayoutRun.Apply`, `LayoutFacts.BlockedIffHeld`; `LayoutOutcome.BlockedTreeIsPlanned` is a tree on
  which it fails).
- *Reports without a uid.* A releasing report releases on its own only if some event already carries the uid
  (`Verification.ReportAloneReleasesIff`); retained together with the uid it always does.
- *Reports on top of an observation.* `cval/orchestrator/validate.py:408` keeps the observation's state. So a releasing
  report finishes an intent only if there was no observation or the observation itself releases
  (`Verification.ReleasingReportFinishesTruly`).
- *Unrequired resources.* The capacity bound holds for every node exactly when some of the resource is required, because
  unrequired resources are skipped (`PodRequest.BoundIffRequired`); its slack is real
  (`PodRequest.RoundingCanOvercommit`).

## Model

| member | source | states |
|---|---|---|
| EvidencePaths.OriginInvertsRelocated | cval/storage/paths.py:8-15 | the relocation table is injective: exactly one retired path, given by an explicit inverse, relocates to a current path |
| EvidencePaths.RelocatedPreservesNesting | cval/storage/paths.py:8-15 | relocation keeps and reflects nesting, so whole subtrees move without overlapping |
| TreeEdits.RenamedSubtrees | scripts/cval-pvc-layout.py:218-252 | a no-replace rename empties the source, gives the destination exactly the old subtree, and leaves every unrelated subtree as it was |
| LayoutPlan.JoinWalks | scripts/cval-pvc-layout.py:181-182 | walks over different entries of a directory combine: operations stay pairwise unnested, merged directories stay in post-order, every path stays accounted for exactly as recorded |
| LayoutPlan.CloseDirectory | scripts/cval-pvc-layout.py:183 | recording a directory after its entries closes the walk over its whole subtree |
| LayoutPlanner.Planner.NoteMissingParents | scripts/cval-pvc-layout.py:169-172 | exactly the missing directories above a destination are noted |
| LayoutPlanner.Planner.Visit | scripts/cval-pvc-layout.py:160-195 | what one visit appends is exactly a walk over the visited entry; missing parents are noted only for a missing destination, which gives a single move |
| LayoutPlanner.Planner.RecordPair | scripts/cval-pvc-layout.py:184-195 | equal regular files become duplicates, everything else that is not two directories becomes a conflict, and nothing else is recorded |
| LayoutPlanner.Planner.VisitEntries | scripts/cval-pvc-layout.py:175-182 | the listing loop covers all entries of the directory and adds no missing parents |
| LayoutPlanner.ConsolidationPlan | scripts/cval-pvc-layout.py:149-207 | for every well-formed tree the plan accounts for every path below a retired root, its operations do not nest, merged directories are in post-order, and the only directory it ever creates is logs, when a move needs it |
| LayoutState.PlanStarts | scripts/cval-pvc-layout.py:380-385 | the untouched tree is the first state of the transaction |
| LayoutState.StepStaysBetween | scripts/cval-pvc-layout.py:386-420 | any edit local to one operation or one directory keeps the tree in a state of the transaction |
| LayoutFacts.MergedEmptyInTurn | scripts/cval-pvc-layout.py:411-420 | after all operations a merged directory is empty when its turn to be removed comes |
| LayoutFacts.CreatedEmptyAtEnd | scripts/cval-pvc-layout.py:492-495 | once everything is moved back, a directory the plan created is empty |
| LayoutFacts.BlockedIffHeld | scripts/cval-pvc-layout.py:164-173 | some planned move goes into a file named logs exactly if such a file and a retired root other than archive both exist |
| LayoutTransaction.Volume.Transfer | scripts/cval-pvc-layout.py:393-408 | a forward operation happens exactly if the recorded fingerprints still hold and nothing would be replaced; otherwise nothing changes |
| LayoutTransaction.Volume.Return | scripts/cval-pvc-layout.py:479-485 | a backward operation happens exactly if its source place is free and the moved entry is there; otherwise nothing changes |
| LayoutTransaction.Volume.Mkdir | scripts/cval-pvc-layout.py:386-392 | a directory is added and its parent's time stamped, nothing else |
| LayoutTransaction.Volume.Rmdir | scripts/cval-pvc-layout.py:411-420 | succeeds exactly on an empty directory and changes nothing otherwise |
| LayoutTransaction.RestoredAtEnd | scripts/cval-pvc-layout.py:486-495 | with no operation moved, merged directories described and created ones gone, the original tree is restored |
| LayoutRun.ForwardStep | scripts/cval-pvc-layout.py:393-408 | operation i takes the state after i operations to the state after i + 1 |
| LayoutRun.BackwardStep | scripts/cval-pvc-layout.py:479-485 | undoing any moved operation, in any order, takes exactly it out of the moved ones |
| LayoutRun.DirectoryStep | scripts/cval-pvc-layout.py:468-495 | making, describing or removing a merged or created directory stays within the transaction |
| LayoutRun.MoveForward | scripts/cval-pvc-layout.py:393-410 | the move loop finishes with every operation done exactly if no file named logs is in the way, fails over such a file only, and otherwise stops in a state of the transaction |
| LayoutRun.RemoveMerged | scripts/cval-pvc-layout.py:411-420 | the removal loop never meets a full or replaced directory and ends in the consolidated state |
| LayoutRun.Apply | scripts/cval-pvc-layout.py:386-424 | whatever durable step apply stops after, the volume is in a state of the transaction; with enough steps it fails exactly if a file is named logs and a retired root other than archive exists, and is consolidated otherwise |
| LayoutRollback.CollectRestore | scripts/cval-pvc-layout.py:453-467 | the scan accepts exactly when every operation's entry is intact in exactly one of its two places, and collects exactly the moved ones in order |
| LayoutRollback.AlwaysRecoverable | scripts/cval-pvc-layout.py:453-467 | no state of the transaction makes rollback refuse |
| LayoutRollback.RemakeMerged | scripts/cval-pvc-layout.py:468-478 | parents first, every missing merged directory is made again, from any interruption |
| LayoutRollback.MoveBack | scripts/cval-pvc-layout.py:479-485 | every collected operation is undone, or the volume stays in the transaction |
| LayoutRollback.DescribeMerged | scripts/cval-pvc-layout.py:486-491 | every merged directory ends with its recorded mode, owner and time, which no later description disturbs |
| LayoutRollback.RemoveCreated | scripts/cval-pvc-layout.py:492-495 | removing the created directory completes the restoration |
| LayoutRollback.Rollback | scripts/cval-pvc-layout.py:453-498 | from every state of the transaction rollback is accepted, stays in the transaction when cut short, and restores the original tree when finished |
| LayoutRollback.ApplyThenRecover | scripts/cval-pvc-layout.py:326-500 | plan, apply, crash anywhere, roll back through any crashes: the first rollback given enough steps restores the planned tree |
| LayoutOutcome.ConsolidationIsUnion | scripts/cval-pvc-layout.py:386-424 | a completed consolidation is the right-biased union: retired roots are gone, current paths keep their entry, missing ones gain the retired entry, nothing else appears |
| LayoutOutcome.NoContentLost | scripts/cval-pvc-layout.py:393-408 | every retired entry survives at its relocated path with its content and metadata, and a duplicate's own copy is retained |
| LayoutOutcome.OldEvidencePathsResolve | cval/storage/paths.py:52-113 | the relocated lookup finds the same kind and content for every evidence path that existed before the consolidation |
| LayoutOutcome.ConflictFreeIff | scripts/cval-pvc-layout.py:184-195 | a plan has no conflict exactly if every retired entry with a counterpart is two directories or two regular files of equal content and metadata |
| LayoutOutcome.BlockedTreeIsPlanned | scripts/cval-pvc-layout.py:149-207 | a concrete tree with a file named logs is planned without conflict and cannot be applied |
| Journal.RunIdsAttemptedOnce | cval/jobs/manager.py:419-423 | two create attempts never concern the same run id |
| Journal.EvolutionKeepsInv | cval/jobs/manager.py:419-451 | everything others may do to the cluster, terminal phases being final, keeps the admission invariant |
| Journal.AppendGrows | cval/jobs/manager.py:90-105 | an append keeps all intents and their identity, extends events, and never touches a finished intent |
| Journal.AppendKeepsInv | cval/jobs/manager.py:90-105 | appending to an unfinished intent keeps the invariant, provided a finishing event is true of the cluster |
| Journal.TrueObservationFinishesTruly | cval/jobs/manager.py:249-262 | an intent that an honest observation finishes has a terminal Job under the single uid its events carry |
| Journal.OtherEventsDoNotFinish | cval/jobs/manager.py:240-246 | only not_created and the two release states can finish an intent |
| Journal.NewIntentKeepsInv | cval/jobs/manager.py:590-591 | a new intent with a fresh name and run id, a free node and room keeps the invariant |
| Journal.AttemptKeepsInv | cval/jobs/manager.py:597-601 | the one create attempt of an unfinished intent keeps the invariant whatever the cluster made of it |
| Journal.PreparedKeepsInv | cval/jobs/manager.py:590-592 | the first durable record keeps the invariant whether or not it was written and projected |
| Admission.AdmittedNodeIsFree | cval/jobs/manager.py:448-451 | an admitted node carries no unfinished intent and there is room for one more |
| Admission.ReservationHiddenIff | cval/jobs/manager.py:419-447 | an unfinished intent's reservation is overlooked exactly when a live validation Job of its name is pinned elsewhere |
| Admission.ImpostorAdmitsSecondIntent | cval/jobs/manager.py:431-451 | with such a Job a second intent on the reserved node is admitted from a sound state |
| Admission.Session.Retain | cval/jobs/manager.py:90-105 | the journal gains at most the one event, on an unchanged intent, and a call that raised may still have written it |
| Admission.Session.CheckActive | cval/jobs/manager.py:408-451 | admits exactly when names and run ids are fresh in journal, session rows and cluster, every active Job has one known node, the node is free and the budget is not full |
| Admission.Session.Create | cval/jobs/manager.py:597-601 | one attempt, a Job made or not, an answer received or not, and a success code only for a Job that was made |
| Admission.Session.PendingIntents | cval/jobs/manager.py:183-190 | collects exactly the unfinished intents, or refuses because one conflicts or never reached submission |
| Admission.Session.Settled | cval/jobs/manager.py:195-198 | succeeds exactly when every pending intent was observed alive or is finished |
| Admission.Session.Reconcile | cval/jobs/manager.py:180-200 | reconciliation creates nothing, removes nothing, never un-finishes an intent, and on success every unfinished intent was just observed |
| Admission.Session.Abandon | cval/jobs/manager.py:626-651 | the exception handler never claims success and keeps the invariant even if its own event is lost |
| Admission.Session.Receipt | cval/jobs/manager.py:602-619 | a receipt is retained only for a successful answer of the right identity |
| Admission.Session.SubmitOne | cval/jobs/manager.py:572-651 | one admission makes at most one attempt, and success means exactly one attempt and a retained submitted event |
| Admission.Session.Submit | cval/jobs/manager.py:560-653 | a whole submission keeps the invariant, only adds attempts and lets the journal only grow |
| Admission.RunSession | cval/jobs/manager.py:509-653 | over every schedule: attempts are unique, one unfinished intent per node, at most limit in all, and finished intents tell the truth; assumed is only that no Job holds another node under the name of an unfinished intent or of the one being submitted |
| RequestedFields.MatchesIffAgreesEverywhere | cval/jobs/manager.py:138-148 | the recursive match holds exactly if the observed document agrees at every place of the requested one |
| RequestedFields.MatchesItself | cval/jobs/manager.py:138-148 | every document carries all its own fields |
| RequestedFields.MatchesTransitively | cval/jobs/manager.py:138-148 | what matches through an intermediate document matches directly |
| RequestedFields.MutualMatchesAreEqual | cval/jobs/manager.py:138-148 | two documents that match each other are equal |
| EvidenceReader.Reader.Read | cval/storage/verification.py:57-80 | a read stays within the file and byte limits, remembers what it returned, and refuses links, closed files and a file that changed since an earlier read; a failed read changes nothing |
| EvidenceReader.Reader.Unchanged | cval/storage/verification.py:88-95 | although files are checked one after the other, success means that everything read stood together when the check began |
| EvidenceReader.ReadTogether | cval/storage/verification.py:43-95 | a successful collection returns contents that all existed on one disk, as single-link regular files, at one moment |
| Verification.SameRows | cval/storage/verification.py:117-125 | equal row multisets are complete, a proper sub-multiset is incomplete, any row too many conflicts |
| Verification.CombinedIsWorst | cval/storage/verification.py:340-344 | the combined state is the worst of all sources, complete only if every required source is |
| Verification.CombinedNested | cval/storage/verification.py:331 | combining the DL components first gives the same state as treating them as sources |
| Verification.VerifyRequest | cval/storage/verification.py:501-613 | a report verifies the Job's identity, twice around the read, only if the submitted snapshot is the expected workload and the Job's own pod on its node runs the submitted containers; it releases exactly if it did so and no source is forbidden or unavailable, and then names a terminal Job; a complete one is accepted exactly if tests and Job succeeded and the Job's one pod succeeded with exactly the submitted containers, none restarted, each exited with zero |
| Verification.ReleasingReportFinishesTruly | cval/orchestrator/validate.py:408-413 | retained with the uid it verified, a report without an observation finishes the intent exactly if it releases; on top of an observation of any state the observation alone decides, and what it finished stays finished; every intent so finished tells the truth |
| Verification.ReportAloneReleasesIff | cval/jobs/manager.py:220-237 | without that uid the report releases exactly if some earlier event carries one |
| Generations.StepKeepsWriterInv | validation-tests/dltest/ingest.py:1020-1051 | every writer step keeps each complete stamp vouching for its published content |
| Generations.FinalizeKeepsWriterInv | validation-tests/dltest/ingest.py:1579-1587 | stamping one database complete keeps that invariant |
| Generations.StepKeepsReaderAt | cval/storage/verification.py:265-277 | what was read of a component stays the published content, or its first stamp can never come back |
| Generations.RunsKeepInv | cval/storage/verification.py:301-336 | both invariants hold in every reachable state |
| Generations.AcceptedReadIsOneSnapshot | cval/storage/verification.py:301-336 | a reader that saw four complete equal generations before and the same after read, in all four databases, the contents that one generation had when its receipt sets were found equal |
| MetricRows.FirstIsFirst | validation-tests/dltest/ingest.py:1437-1457 | deduplication keeps every key with the row that carries it first |
| MetricRows.UpsertDistinct | validation-tests/dltest/ingest.py:888 | inserting deduplicated rows adds exactly the table of first occurrences |
| MetricRows.Deduplicate | validation-tests/dltest/ingest.py:1423-1458 | succeeds exactly if no key carries two different measurements, and keeps exactly the first ones |
| StoreUpdates.RowsAddUp | validation-tests/dltest/ingest.py:874-895 | two batches of different runs leave the rows that one batch of both would |
| StoreUpdates.BatchAdvances | validation-tests/dltest/ingest.py:1257-1272 | one more batch takes the closed form of the store over the written files to that over all of them |
| StoreUpdates.MigrationScope | validation-tests/dltest/ingest.py:915-951 | the receipt migration keeps existing receipts, covers every stored run and enlarges no scope |
| StoreUpdates.FinishRebuilds | validation-tests/dltest/ingest.py:1513-1559 | removing the stale runs in scope leaves exactly the discovered runs there, everything else as before |
| StoreUpdates.ProgressExtends | validation-tests/dltest/ingest.py:1245-1249 | an only-missing rebuild replaces the processed runs and removes no receipt |
| StoreUpdates.WrittenSpares | validation-tests/dltest/ingest.py:882-895 | a transaction touches no rows of runs it neither replaces nor writes |
| StoreUpdates.TransactionSpares | validation-tests/dltest/ingest.py:874-895 | a transaction keeps rows and receipts of every run it neither replaces nor writes, and removes the receipts only of runs it replaces without rewriting them |
| Rebuild.Databases.Backfill | validation-tests/dltest/ingest.py:936-951 | every stored run without a receipt gets the directory of one of its rows |
| Rebuild.Databases.WriteMetricRows | validation-tests/dltest/ingest.py:763-895 | the transaction commits as a whole with the migrated receipts, or leaves rows and generation as they were |
| Rebuild.Databases.WriteAll | validation-tests/dltest/ingest.py:1461-1510 | all four stores are written in turn, and wherever it stops nothing looks complete and other runs are spared |
| Rebuild.Databases.Flush | validation-tests/dltest/ingest.py:1257-1287 | a flushed batch extends what is written; a conflict really is one |
| Rebuild.Databases.Initialize | validation-tests/dltest/ingest.py:1377-1420 | refuses exactly if a table is missing; migration keeps every row |
| Rebuild.Databases.Finish | validation-tests/dltest/ingest.py:1513-1559 | a finished reconciliation leaves every store rebuilt; a missing table is reported only if nothing was discovered to write and the table was missing before |
| Rebuild.Databases.Finalize | validation-tests/dltest/ingest.py:1579-1587 | stamps change nothing but the stamps, and success publishes the generation in all four stores |
| Rebuild.Databases.WriteBatches | validation-tests/dltest/ingest.py:1289-1307 | whatever the batch size, exactly the selected runs are written; a duplicate or conflict is reported only if there is one |
| Rebuild.Databases.IngestResults | validation-tests/dltest/ingest.py:1197-1338 | a published generation is reconciled: rows are the deduplicated evidence, in-scope receipts the discovered runs; for every batch size and outcome, interrupted ones included, other runs keep rows and receipts and only-missing removes no receipt; every refusal has its condition, partial stores under only-missing an exact one |
| Rebuild.AgreeTogether | validation-tests/dltest/ingest.py:1447-1455 | contradictions arise within one run only, so batching neither hides nor creates any |
| Rebuild.ProcessedOrComplete | validation-tests/dltest/ingest.py:1300-1304 | every discovered run is processed or was already complete in all four stores |
| Rebuild.InitializedComplete | validation-tests/dltest/ingest.py:1364-1374 | the runs skipped by only-missing are those recorded in all four stores before the migration |
| FlatPayload.ParseOfName | validation-tests/dltest/ingest.py:506-509 | an overlap metric name is read back as it was written or not at all |
| FlatPayload.CountsForceProduct | validation-tests/dltest/ingest.py:530-535 | eight layers naming six collectives and six collectives naming eight layers make 48 pairs only if both name the same full product |
| FlatRegrouping.PlaceIsFree | validation-tests/dltest/ingest.py:523-524 | the duplicate-field check can never fire |
| FlatRegrouping.PlaceRegroups | validation-tests/dltest/ingest.py:505-525 | placing one more raw entry keeps every field equal to the one raw value measured for it |
| FlatRegrouping.SingleCount | validation-tests/dltest/ingest.py:526-533 | a counter with one entry k: m means exactly m outer names of k inner names each |
| FlatRegrouping.CountsMeanProduct | validation-tests/dltest/ingest.py:530-538 | the final counts accept exactly the full products |
| FlatNormalizer.GroupTasks | validation-tests/dltest/ingest.py:447-483 | succeeds exactly if every task has its group's metrics and only numbers, and groups all of them |
| FlatNormalizer.ReadOuter | validation-tests/dltest/ingest.py:496-529 | one outer task is read exactly if its inner names are of the other kind and its values numbers |
| FlatNormalizer.ReadOverlap | validation-tests/dltest/ingest.py:492-529 | the loop reads the whole section exactly if every outer task is readable, with exact pair metrics and counters |
| FlatNormalizer.NormalizeFlatRankPayload | validation-tests/dltest/ingest.py:430-555 | accepts exactly the complete payloads, and each field of each pair is the one raw value measured for it |
| FlatRowCounts.RegroupingIsBijective | validation-tests/dltest/ingest.py:495-538 | the 192 raw entries correspond one to one to the fields of the 48 pairs |
| FlatRowCounts.AcceptedRankRows | validation-tests/dltest/ingest.py:670-718 | an accepted rank has 380 compute, 48 collective and 192 overlap rows |
| FlatRowCounts.OnlyNumericalCanDiffer | validation-tests/dltest/ingest.py:404-411 | of the four expected counts of eight accepted ranks only the numerical one can fail |
| Tracking.FoldAcknowledgement | cval/jobs/monitor.py:44-62 | the surviving acknowledgement is exactly the last one after the last reset, or the retained one if no line touches it |
| Tracking.FoldSummary | cval/jobs/monitor.py:44-62 | the same for the supervisor's summary |
| Tracking.ReplayChangesNothing | cval/jobs/monitor.py:63-101 | reading a prefix first and retaining only what is valid changes nothing about reading the whole |
| Tracking.ReplayFromFurtherBack | cval/jobs/monitor.py:44-62 | re-reading from further back gives the fold of everything re-read |
| Polling.NoGap | cval/jobs/monitor.py:227-230 | a replay from the second-truncated cursor starts no later than the last line read |
| Polling.ReachingReadIsExact | cval/jobs/monitor.py:221-261 | a replay that reaches the previous end is as good as one read of everything |
| Polling.ShortReadTracks | cval/jobs/monitor.py:262-264 | after a read cut short the next one that reaches the previous end is exact again |
| Polling.CutIsSafeIff | cval/jobs/monitor.py:262-264 | a cut read keeps what was retained, for every log, exactly when it is empty, or reaches the previous end without starting before the first line ever read |
| Polling.Tracker.RuntimeProgress | cval/jobs/monitor.py:36-101 | the event loop and validity filter compute the fold of the lines onto what was retained |
| Polling.Tracker.Cursor | cval/jobs/monitor.py:243-261 | the cursor never moves back and is the latest instant read |
| Polling.Tracker.ReadLog | cval/jobs/monitor.py:227-233 | an unlimited read from the cursor reaches the end of the log |
| Polling.Tracker.Poll | cval/jobs/monitor.py:221-266 | a poll that reaches the previous end reports the ingestion outcome and completion that one read of everything since the first poll would; a failed one changes nothing |
| Polling.Follow | cval/jobs/monitor.py:147-272 | over any log growth and any polls, a complete poll reports the truth of everything since the first read |
| ResultSchema.TestReadBack | cval/validation/results.py:450-593 | a written test object reads back as the same test, in every layout |
| ResultSchema.EnvelopeReadBack | cval/validation/results.py:326-334 | a written envelope reads back as the same envelope |
| ResultSchema.ParsedIsTyped | cval/validation/results.py:225-249 | a parsed envelope has the non-empty texts that writing it back needs |
| ResultParser.RoundTrip | cval/validation/results.py:326-334 | parsing what the writer made of a parsed result gives that result, in every layout |
| ResultParser.DigestIgnoresCompletion | cval/validation/results.py:424-434 | the digest is the same with any completion or none |
| ResultParser.DigestIsInjective | cval/validation/results.py:424-434 | equal digests mean equal executions |
| ResultParser.CompletionIsAccepted | cval/validation/supervisor.py:412-414 | a fitting completion added to a parsed compact result is accepted as it stands, self-referencing digest included |
| ResultParser.ReadTests | cval/validation/results.py:254-269 | the loop accepts exactly non-empty test maps of fitting tests with distinct selected orders |
| ResultParser.ParseValidationResultV2 | cval/validation/results.py:197-323 | the parser computes the specification the other results are about: derived overall, completion time exactly when terminal, no test completed later |
| Runner.WrittenIsAccepted | cval/validation/runner.py:637-658 | a state between phases, with derived fields filled in, is accepted by the strict parser and read back unchanged |
| Runner.TestUpdateHolds | cval/validation/runner.py:277-282 | changing one test's execution state keeps everything the parser demands |
| Runner.Run.Overall | cval/validation/runner.py:664-676 | the runner's overall computation agrees with the parser's |
| Runner.Run.WriteState | cval/validation/runner.py:637-661 | the written state is accepted as it stands, its completion time set exactly if all selected tests are terminal, kept if it stood |
| Runner.Run.FinishTest | cval/validation/runner.py:430-458 | one test ends with the given outcome, no other changes, and the written state is accepted |
| Runner.Run.FrameworkFailure | cval/validation/runner.py:404-427 | an exception costs one error record and the test, not the run |
| Runner.Run.RunOneTest | cval/validation/runner.py:261-427 | whatever setup and workload do, the test ends terminal, no other test changes, and every state written on the way is accepted |
| Runner.Run.constructor | cval/validation/runner.py:473-523 | the initial result satisfies the state invariant with every enabled test pending |
| Runner.InitialTests | cval/validation/runner.py:483-505 | one initial state per registered test, selected exactly if enabled |
| Runner.Run.ExecuteRegistry | cval/validation/runner.py:199-234 | tests run in order, and unless interrupted all enabled tests end terminal |
| Runner.RunValidationTests | cval/validation/runner.py:119-182 | the final file is accepted whatever the processes did, and complete unless interrupted |
| Supervisor.StoresCoincide | cval/validation/supervisor.py:365-373 | the supervisor's expected stores equal the recorder's on every parsed result |
| Supervisor.FilesCoincide | cval/validation/supervisor.py:388-409 | no incomplete evidence is the same as the file map of a complete recording |
| Supervisor.IngestionAcknowledgement | cval/validation/supervisor.py:339-377 | accepted exactly if every record fits; then it is the last acknowledgement after the last start, and a passing one names the required stores |
| Supervisor.PublishedReads | cval/validation/supervisor.py:412-414 | whatever is published reads back as the result with its completion |
| Supervisor.ComposedIsComplete | cval/validation/results.py:359-368 | the composed record is a complete recording exactly if the run is terminal, the exit zero, logs retained, files complete, ingestion passed and the stores the required ones |
| Supervisor.RunStages | cval/validation/supervisor.py:524-599 | a zero exit means every stage succeeded, and a passing ingestion rests on an acknowledgement of the required stores |
| Supervisor.SuperviseValidationRun | cval/validation/supervisor.py:524-631 | what is published is accepted; a zero exit with ingestion records completely exactly if the result is terminal and no evidence went missing last; no other exit does, short of a failing sync after publication |
| Supervisor.LateLossIsNotRecorded | cval/validation/supervisor.py:586-626 | evidence lost after the last check makes the recording incomplete |
| RunStores.AppendOnce | validation-tests/storage/ingest.py:105-119 | after an accepted append the run's row stands exactly once, and appending again changes nothing |
| RunStores.StatusesOnce | cval/storage/ingest.py:255-287 | the four status rows stand exactly once, and appending again changes nothing |
| RunStores.AttemptsCompose | cval/storage/run_ingest.py:160-188 | what two attempts may leave is what one may leave, and a second that finishes equals one uninterrupted run |
| RunStores.RecordedIsUnique | cval/storage/run_ingest.py:160-185 | an uninterrupted run leaves one determined content in all seven stores |
| RunStores.StatusStillImpliesRaw | cval/storage/run_ingest.py:178-185 | status rows of the run being ingested imply its raw evidence in every state an attempt may leave |
| RunStores.OtherStatusesStillImplyRaw | cval/storage/run_ingest.py:160-188 | an attempt for one run keeps the status rows of every other run behind its raw evidence too |
| Ingestion.WriterAdvances | cval/storage/run_ingest.py:164-176 | a writer that went through marks its stores committed truthfully and disturbs no other |
| Ingestion.WriterStops | cval/storage/run_ingest.py:188-198 | a writer that stops leaves its own stores unconfirmed, and every reported state is true |
| Ingestion.StatusesLast | cval/storage/run_ingest.py:178-186 | with the status rows the run is recorded, without them only the raw stores are |
| Ingestion.Recorder.WriteHealth | validation-tests/nccl/ingest.py:247-291 | a storage or NCCL write appends, accepts an identical row, or refuses, touching only its own store |
| Ingestion.Recorder.WriteDl | validation-tests/dltest/ingest.py:1174-1183 | each of the four stores is old or holds the run, and success means all do with equal receipts |
| Ingestion.Recorder.WriteStatuses | cval/storage/ingest.py:255-287 | the status rows are appended or accepted as a whole, or nothing changes |
| Ingestion.Recorder.IngestRun | cval/storage/run_ingest.py:100-200 | one attempt leaves raw stores old or new and status rows only after all of them; the reported store states are true; success records the run |
| Ingestion.Recorder.IngestUntilFinished | cval/storage/run_ingest.py:100-200 | any number of interrupted attempts keep status rows behind raw stores, and the first that finishes leaves what one uninterrupted run would |
| Ingestion.Recorder.IngestRuns | cval/storage/run_ingest.py:100-200 | over any schedule of attempts for any runs, each possibly cut short, no run has status rows without its raw evidence |
| BackupRecords.HardlinkGroups | scripts/cval-backup.py:238-251 | succeeds exactly if every link of every inode lies in the tree, and groups exactly by inode |
| BackupRecords.RecountBytes | scripts/cval-backup.py:1131-1137 | the verifier's running totals count every inode once |
| BackupCreation.UniqueBytes | scripts/cval-backup.py:254-255 | the sum over groups counts every inode once |
| BackupCreation.StageFiles | scripts/cval-backup.py:687-752 | the copy loop leaves one backup inode per source inode, shared exactly as in the source, and a record of each file |
| BackupDirectories.MakeDirectories | scripts/cval-backup.py:677-685 | parents come first, so no directory is made twice or without its parent, and exactly the recorded ones stand, open to the owner only |
| BackupDirectories.AboveIsOpen | scripts/cval-backup.py:518-524 | when a directory is described every directory above it can still be passed |
| BackupDirectories.ApplyDirectoryMetadata | scripts/cval-backup.py:518-530 | bottom up, every directory ends with its recorded mode and time, which neither an entry created before nor a later description disturbs |
| BackupOutcome.LinksOfGroup | scripts/cval-backup.py:691-694 | a backup inode has as many paths as its source group |
| BackupOutcome.GroupOfRecords | scripts/cval-backup.py:1147-1168 | every hard link group in the manifest passes the verifier's group checks |
| BackupOutcome.MatchedSums | scripts/cval-backup.py:773 | sums over representatives equal sums over distinct inodes, on both sides |
| BackupOutcome.BuiltVerifies | scripts/cval-backup.py:1045-1169 | a built backup passes every verifier check on its files and links but those on contents, and those exactly as the contents decide |
| BackupOutcome.ContentsVerifyIff | scripts/cval-backup.py:1110-1130 | contents verify whatever the database copies turn out to be exactly if history is copied byte for byte and a database copied that way has current paths only if it is sound |
| BackupOutcome.GuardSeparatesHistory | scripts/cval-backup.py:349-352 | refusing hard links across current and historical paths is enough for the contents of every backup |
| BackupOutcome.GuardIsNeeded | scripts/cval-backup.py:349-352 | without that refusal a database linked from a current and then a historical path could be backed up so that verification fails |
| BackupOutcome.CapacityPlan | scripts/cval-backup.py:339-355 | planning accepts exactly if every link lies in the tree and none crosses history, and counts every inode once |
| BackupOutcome.CreateBackup | scripts/cval-backup.py:636-835 | for an inventory the plan accepts, what is created shares inodes exactly as its source and passes all verifier checks, on files, links, contents and directories |
| BackupOutcome.RunBackup | scripts/cval-backup.py:1250-1313 | whatever the tree holds, the command refuses or creates a backup that verifies and shares inodes exactly as its source |
| Priority.SortCandidates | cval/scheduler/priority.py:54 | the queue order is a permutation sorted by time, then name |
| Priority.BuildPriorityQueue | cval/scheduler/priority.py:19-65 | exactly the nodes that need a run are queued, numbered 1..n, oldest first |
| Priority.NeedingNodes | cval/scheduler/priority.py:36-47 | every node that needs a run is a candidate once, with its last time |
| Coverage.SelectRun | cval/storage/status.py:448-521 | a node's answer is its newest qualifying run within the scan limit, or that there is none; failure means the limit or an unreadable run came first |
| Coverage.NewerFailureKeepsCoverage | cval/storage/status.py:448-521 | a newer attempt that does not qualify never advances coverage |
| Coverage.SelectedIsNewest | cval/storage/status.py:448-508 | no qualifying run is newer than the selected one |
| Coverage.ReadLocalCoverage | cval/storage/status.py:401-531 | a report that was read answers every requested node correctly, its timestamps project its rows, and all contents its runs were judged by stood together on one disk when the final check began; an unavailable one carries no timestamps |
| Coverage.CoverageTimestamps | cval/storage/status.py:554-574 | accepts exactly the reports whose timestamps project their rows, so every report that was read |
| StatusSnapshot.FreshnessAgrees | cval/storage/status.py:249-254 | the snapshot's freshness test agrees with the queue's |
| StatusSnapshot.QueueHoldsNames | cval/storage/status.py:333-339 | every missing or expired node is queued exactly once |
| StatusSnapshot.RankedByQueue | cval/storage/status.py:338-339 | ranks taken from the queue are a bijection from the nodes that need a run onto 1..n |
| StatusSnapshot.BuildStatusSnapshot | cval/storage/status.py:225-355 | one row per node with its state, ranks in queue order, and four counts that add up to the total |
| PodRequest.EffectiveRequest | cval/k8s/discovery.py:65-94 | the one-pass request is the highest concurrent reservation over all init steps and the running pod |
| PodRequest.PeakIsUnique | cval/k8s/discovery.py:65-94 | the highest reservation is one number, so the contract determines the request |
| PodRequest.RequestMonotone | cval/k8s/discovery.py:65-94 | the request is monotone in every container's request |
| PodRequest.RoundUpBounds | cval/k8s/discovery.py:30-39 | rounding up adds less than one unit, and nothing to a whole amount |
| PodRequest.AccountedIsEnough | cval/k8s/discovery.py:42-62 | the rounded use of a node covers its exact use |
| PodRequest.ReadyMeansCapacity | cval/k8s/discovery.py:334-342 | a node without shortfall overcommits a required resource by less than one unit, and not at all if its allocatable amount is whole |
| PodRequest.RoundingCanOvercommit | cval/k8s/discovery.py:30-39 | the unit of slack is real: rounding lets half a unit of allocatable resource pass for a whole one |
| PodRequest.BoundIffRequired | cval/k8s/discovery.py:334-336 | that bound holds for every node exactly if some of the resource is required |

## Left out

- Admission.RunSession: assumes that no foreign validation Job holds another node under the name of an unfinished intent or of the one being submitted; see the hidden reservation above.
- Admission.Session.CheckActive: cooldown and an incomplete inventory are two flags, not modelled further.
- Admission.Session.Observe: the observation keeps only what the journal's release decision reads.
- Verification.VerifyRequest: decoding the submitted snapshot and its digest is an input, and the evidence is what the reader pod answers.
- EvidenceReader.Reader.Read: which paths lead through symbolic links is left open, and database file identities are left out; a changed file is assumed never to show an earlier device, inode, size and times again.
- Generations.RunsKeepInv: writers are serialized and generation ids fresh by assumption; the reader's retry delays and limits are left out.
- LayoutRun.Apply: symbolic links, mounts, ownership checks, the lock, the backup evidence and the saved manifest are not modelled; rechecking the plan under the lock is its precondition.
- LayoutRollback.Rollback: destination-side directories may keep a newer modification time, as in the code.
- LayoutPlanner.Planner.VisitEntries: entries are taken in any order, not only sorted.
- Rebuild.Databases.Backfill: which of a run's directories a migrated receipt names is left open.
- Rebuild.Databases.WriteMetricRows: SQL chunking, column migrations and schema checks are not modelled; scope is a prefix test on directories without symbolic links.
- FlatNormalizer.NormalizeFlatRankPayload: tasks are maps, so their order in the output is not modelled; numbers are reals.
- Polling.Tracker.Poll: the progress map is left out, and pod identity checks count as failed reads.
- ResultParser.ParseValidationResultV2: JSON objects are kept by the role they are read in, a string is plain or a timestamp with its instant, hashing is injective, and all refusals are one.
- Runner.Run.RunOneTest: only the process calls fail; event emission does not.
- Supervisor.SuperviseValidationRun: signal handlers, descriptors and seals are abstract, and only current results are supervised.
- Ingestion.Recorder.IngestRun: receipt shapes, events between stores and SQLite retries are left out; an owner's stores are marked together.
- RunStores.DlWrittenTwice: a DL store is one content per run key here; its rows are modelled in Rebuild.
- BackupOutcome.RunBackup: exclusions, path normalization, the capacity margin, races with writers (the source is quiet) and publication of the staged tree are left out; what SQLite's online backup produces is an input. Verification is assumed able to read the tree: a directory recorded without search permission for its owner can only be walked with privileges.
- Coverage.ReadLocalCoverage: recording columns and skipped reasons are not modelled; the runs are inputs, read through the reader before the loop rather than during it; what their files say is given with them, and evidence found absent is not rechecked, as in the code.
- StatusSnapshot.BuildStatusSnapshot: only the coverage columns are modelled, not the Job and history columns.
- PodRequest.EffectiveRequest: quantities are exact reals in the parser's unit; pod-level and resized resources are refused by the code and not modelled.
- The archive layout (archive_plan, apply_archive, rollback_archive): a single rename, a special case of the consolidation proofs.
- Steps that append to the journal outside submit and reconcile (scripts/cval-live-state.py, cval/orchestrator/validate.py), except that a retained report finishes an intent truthfully.
- Historical v1 results, CLI, configuration, template rendering, plugins, CSV export and kubectl: plumbing around the parts above.
