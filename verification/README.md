# Verified model of the benchmark harness, the evaluation runners and the browser fixtures

This project models the parts of the SEC filings assistant that must stay right while several things happen at
once or a process dies half-way, and proves what every run of them keeps.

| file | what it models |
|---|---|
| `Capacity.dfy` | interval-union accounting of worker service time and its exclusive partition |
| `BoundedMap.dfy` | asyncio lanes sharing one work index, one step per segment between awaits |
| `CommitObserver.dfy`, `QueueLaws.dfy` | the commit observer of the benchmark runtime and what its queue and counters mean |
| `EventStream.dfy`, `PipelineFixture.dfy` | the resuming event subscriber and the pipeline fixture that serves it (the `Last-Event-ID` rule of section 9.2.4 of the HTML Living Standard) |
| `IndexRebuild.dfy` | rebuilding the index under a trust manifest, with faults and crashes anywhere |
| `Promotion.dfy` | guarded promotion of an official result: archive first, then replace atomically |
| `Migration.dfy` | the paged copy of a collection and its count check |
| `Campaign.dfy` | the resumable seven-stage campaign and the closure campaign around it |
| `Phase2.dfy`, `Scores.dfy` | the two-phase evaluation run and its score aggregation |
| `Checkpoints.dfy` | the checkpointed evaluation loop and its capped retries |
| `Jsonl.dfy` | append-only files of JSON rows, whose writes may stop after any character |
| `RequestLedger.dfy` | the append-only request ledger with its lock |
| `ReplicateStates.dfy`, `Replicates.dfy` | the replicate runners over the ledger, their checkpoint files, and resuming them |
| `Collections.dfy`, `Catalog.dfy` | the revisioned collections (preconditions in the style of section 13.1.1 of RFC 9110) and the faceted catalogue of the browser fixtures |
| `TextLines.dfy` | lines of text as written and as `str.splitlines` reads them |
| `ChunkFiles.dfy` | rewriting JSONL chunk files, down to the characters |
| `Outcomes.dfy` | `Option`, `Result`, `Max`, `Min` |

Code that works by changing things step by step is a class or a method with loops here; what it does to its state is
stated outright or tied to a specification function, and the laws are lemmas about that function or about whole
histories. Crash protocols keep a `trace` of every durable state; a crash throws the process back to one of them. The
ledger and the replicates keep one state for every character that reaches a file, every change of the lock and every
request that is sent; a request that has left is never undone by a crash.
Time is counted in integer nanoseconds, scores are exact rationals, digests are collision free, and whatever a
provider, a store, a subprocess or a client does is a parameter.

`dafny verify dfyconfig.toml` checks the whole project.

## What the code does not do

The model follows the code; where a promise fails, the model proves when it does.

- `bounded_map` returns a list with holes exactly when `concurrency` is not positive and there is work (`BoundedMap.CompleteExactly`, `BoundedMap.ReturnsWithHoles`). No caller in the repository meets this: scenarios bound concurrency, workers and operations to at least one (scripts/benchmarks/scale_002_stats.py:106-112).
- The resume check at the end of `subscribe` fails for runs of more than 103 events against a server that sends 100 at a time (`EventStream.ResumeCheckBound`). The agent runs the repository ships stay far below: a job records at most 20 decision events (src/workspace/jobs.py:58) and the evaluation works on at most 40 events in all (src/agent/evaluation.py:50).
- Events logged after the first terminal one can be missed, and only those (`EventStream.NothingMissingIff`, `EventStream.LateEventIsMissed`); cancelling in the pipeline fixture does not look for a terminal state, so it logs one for a run that has ended (`PipelineFixture.CancellingAnEndedRunIsMissed`).
- A death while an archive entry is written leaves a partial entry that blocks every later promotion of the same bytes (`Promotion.PartialArchiveBlocks`).
- Admission is recorded PASSED before its report is read again; a death in between makes the next run READY_TO_PROMOTE (`Campaign.Runner.CrashInAdmissionWindow`).
- A promoted closure campaign is refused as drifted when it is run again, because its manifest pins the official digest it replaced (`Campaign.PromotedCampaignDrifts`).
- A checkpoint line torn by a crash stops every later run that is not a fresh one (`Checkpoints.TornLineBlocks`). A complete record that lacks only its newline is read well once, and is then destroyed together with the next record written after it (`Checkpoints.LoadableAgainIff`).
- A provider response that holds U+2028, U+2029 or U+0085 is written to the ledger in one line and read back as several. It is returned once; from then on the ledger does not read back, and every call raises, for any operation (`RequestLedger.Ledger.UncleanAnswerLocksOut`). An answer with such a character does the same to its checkpoint file: every later resume is refused (`Replicates.Replicate.UncleanAnswerBlocksResume`). A file reads back if and only if this never happened and no row was torn (`Jsonl.ReadsBackIff`).
- A death while a row is written leaves a torn row, which blocks every later resume; a row that lacks only its newline is read well until the next row is glued to it (`Jsonl.AppendedUndamagedIff`, `ReplicateStates.DeathInRow`).
- A death anywhere inside a ledger call leaves the lock file, and every later call raises, even for a response that is stored (`RequestLedger.Ledger.DeathInsideLocksOut`); a resume is then refused exactly when something is left to do (`Replicates.Replicate.Run`).
- Without `--recreate`, migration fails its count check exactly when the kept cloud collection has an id the local one lacks (`Migration.Migrate`).
- Removing items and changing notes ignore the collection's tombstone, and item and note numbers stay distinct exactly as long as no addition takes a number in use (`Collections.ItemIdsDistinctIff`, `Collections.NoteIdsDistinctIff`); they do repeat (`Collections.ItemIdsCanRepeat`).
- An empty facet value cannot be drilled into (`Catalog.DrillDown`).
- `add_table_chunks` is safe exactly on files that end in a line break and for chunks without characters `str.splitlines` cuts at (`TextLines.AppendsExactlyWhen`, `TextLines.SeparatorSplitsALine`).

## Model

| member | source | states |
|---|---|---|
| `Capacity.UnionLength` | scripts/benchmarks/capacity_001.py:29-38 | for every list of intervals the sweep returns the number of nanoseconds inside at least one of them, and raises exactly when some interval is inverted |
| `Capacity.SweepStep` | scripts/benchmarks/capacity_001.py:33-37 | one step adds exactly the nanoseconds the next interval covers and none before it did |
| `Capacity.SortedInOrder` | scripts/benchmarks/capacity_001.py:33-33 | the order the sweep relies on: by start, then by stop |
| `Capacity.MeasureIgnoresOrder` | scripts/benchmarks/capacity_001.py:29-38 | the figure depends on which intervals are listed, not on order or repetition |
| `Capacity.MeasureMonotoneSubadditive` | scripts/benchmarks/capacity_001.py:29-38 | adding intervals never lowers the figure and never adds more than their own figure |
| `Capacity.ClippedCovers` | scripts/benchmarks/capacity_001.py:48-51 | clipping never inverts an interval, and the clipped spans cover exactly the root's nanoseconds at which one of the phases was running (spans end no earlier than they start: src/workspace/attribution.py:107-113) |
| `Capacity.Owner` | scripts/benchmarks/capacity_001.py:53-66 | independent reference: a nanosecond belongs to the first group, in priority order, that was running |
| `Capacity.GroupStep` | scripts/benchmarks/capacity_001.py:63-65 | subtracting unions charges a group exactly the nanoseconds it owns |
| `Capacity.ExclusiveFigures` | scripts/benchmarks/capacity_001.py:62-69 | each group's figure is the number of root nanoseconds it owns, the remainder the number nobody owns, so no figure is negative; the figures and the remainder add up to the service time |
| `Capacity.InclusiveFigures` | scripts/benchmarks/capacity_001.py:70-72 | each inclusive phase reports the root nanoseconds at which it was running, whoever owns them |
| `Capacity.Occupancy` | scripts/benchmarks/capacity_001.py:41-73 | returns figures if and only if nothing was dropped and exactly one record is a worker.service span; the service time, the four groups' figures, the remainder and the inclusive figures are then those of that very record, counted phase by phase -- the two other guards never fire -- and provider, tools, persistence, workspace and unattributed add up to service |
| `Capacity.RootsExact` | scripts/benchmarks/capacity_001.py:43-45 | there is one root exactly when one record and no other is a worker.service span, and it is that record |
| `Capacity.ChargesMean` | scripts/benchmarks/capacity_001.py:53-66 | a provider nanosecond is one at which agent.provider or generator.transport ran; a tool nanosecond one at which a tool ran and neither of them; persistence and workspace likewise after those before them; the rest is what none of them covers |
| `Capacity.PartitionIsExact` | scripts/benchmarks/capacity_001.py:62-69 | for every list of groups the owned sets and the unowned rest have the root's size together: no nanosecond is lost or counted twice |
| `Capacity.LowerPriorityCannotInterfere` | scripts/benchmarks/capacity_001.py:63-65 | recording more spans of lower-priority phases cannot change what a group is charged |
| `BoundedMap.StepKeepsInv` | scripts/benchmarks/scale_002_runtime.py:461-476 | every segment between two awaits, whichever lane runs and however it ends, keeps the invariant tying claims, lanes and results together |
| `BoundedMap.InitialIs` | scripts/benchmarks/scale_002_runtime.py:456-473 | a call begins with a hole for each index and one task, not yet run, for each of min(count, concurrency) lanes, none when either is not positive |
| `BoundedMap.Possible` | scripts/benchmarks/scale_002_runtime.py:464-475 | what may happen next: a task starts while the first gather lasts, an awaited operation ends either way until the call has ended, a task is cancelled only during the cleanup, and the call ends once its tasks have |
| `BoundedMap.CalledOnce` | scripts/benchmarks/scale_002_runtime.py:466-469 | under every interleaving operation(i) is called exactly once along the run for each index below the counter, and never for another |
| `BoundedMap.ReturnedCalledEach` | scripts/benchmarks/scale_002_runtime.py:461-476 | a call that returned has called operation(i) exactly once for every i below count if and only if there was nothing to do or a lane to do it |
| `BoundedMap.InFlightBounded` | scripts/benchmarks/scale_002_runtime.py:464-470 | no two lanes await the same index, and at most min(count, concurrency) operations are in flight |
| `BoundedMap.StoredResultsStay` | scripts/benchmarks/scale_002_runtime.py:469-469 | a stored result is operation(i) and is never written again |
| `BoundedMap.CompleteExactly` | scripts/benchmarks/scale_002_runtime.py:461-476 | a returned list holds operation(i) at every i if and only if there was nothing to do or concurrency is at least one |
| `BoundedMap.ReturnsComplete` | scripts/benchmarks/scale_002_runtime.py:461-476 | with work and a lane a run exists that returns the complete list |
| `BoundedMap.ReturnsWithHoles` | scripts/benchmarks/scale_002_runtime.py:470-476 | whenever there is work and concurrency is not positive, a run exists that returns a list of nothing but holes |
| `BoundedMap.StepDecreasesMeasure` | scripts/benchmarks/scale_002_runtime.py:464-475 | a measure falls at every step, so no schedule runs for ever |
| `BoundedMap.NeverStuck` | scripts/benchmarks/scale_002_runtime.py:471-476 | until the call has returned or raised some step is possible, and one that is not an abort while no lane has failed |
| `CommitObserver.Observer.CommittedOne` | scripts/benchmarks/scale_002_runtime.py:61-77 | one committed event moves the observer as the event function does, whole state (what that function leaves behind is stated event by event in QueueLaws) |
| `CommitObserver.Observer.Committed` | scripts/benchmarks/scale_002_runtime.py:59-77 | a committed batch is folded in order, all with the one commit stamp |
| `CommitObserver.ObservedConnection.Execute` | scripts/benchmarks/scale_002_runtime.py:92-115 | a failed statement buffers nothing and counts one error of its kind; a successful event row is buffered; updates of ended jobs are counted per row value |
| `CommitObserver.ObservedConnection.Commit` | scripts/benchmarks/scale_002_runtime.py:117-125 | a successful commit hands over exactly the buffered events and empties the buffer; a failed one changes nothing |
| `CommitObserver.ObservedConnection.Rollback` | scripts/benchmarks/scale_002_runtime.py:127-130 | a rollback discards the buffer |
| `CommitObserver.FoldConcat` | scripts/benchmarks/scale_002_runtime.py:59-77 | folding two batches one after the other is folding them together |
| `CommitObserver.OpenExact` | scripts/benchmarks/scale_002_runtime.py:102-109 | the buffer of a connection is exactly its successful event rows since its last commit or rollback |
| `CommitObserver.StreamExact` | scripts/benchmarks/scale_002_runtime.py:117-130 | the observed stream is exactly the durable events, each once, by commit and then by insertion: nothing of a rolled-back, unfinished or failed statement is in it |
| `CommitObserver.Replay` | scripts/benchmarks/scale_002_runtime.py:88-130 | for every interleaving of connections and outcomes the observer ends as the fold of the durable events only, in commit order |
| `QueueLaws.QueueExact` | scripts/benchmarks/scale_002_runtime.py:64-77 | a job is queued exactly when some creation of it was followed by neither a claim nor a terminal state |
| `QueueLaws.PeakBounds` | scripts/benchmarks/scale_002_runtime.py:67-67 | for every history the recorded peak is at least the queue length after, and just while, every event was handled |
| `QueueLaws.PeakReached` | scripts/benchmarks/scale_002_runtime.py:67-67 | and the queue really had that length while some event was handled; between two events too, when no job is created in a terminal state |
| `QueueLaws.RowExact` | scripts/benchmarks/scale_002_runtime.py:62-76 | a job's row carries a claim or terminal stamp exactly when such an event was committed for it |
| `QueueLaws.StampsExact` | scripts/benchmarks/scale_002_runtime.py:62-76 | a job's created, claimed and terminal stamps are those of its last creation, claim and terminal event, the stamp of a sequence is that of the last event with it, and each is absent exactly when there was no such event |
| `QueueLaws.JobsExact` | scripts/benchmarks/scale_002_runtime.py:62-63 | the observer knows a job exactly when some event was committed for it |
| `QueueLaws.DuplicateClaimsExact` | scripts/benchmarks/scale_002_runtime.py:69-71 | the duplicate-claim counter is the number of claims minus the number of claimed jobs |
| `QueueLaws.DuplicateTerminalsExact` | scripts/benchmarks/scale_002_runtime.py:74-76 | the duplicate-terminal counter is the number of terminal events minus the number of ended jobs |
| `QueueLaws.NoDuplicatesIff` | scripts/benchmarks/scale_002_runtime.py:69-76 | a counter is zero if and only if no job was claimed, or ended, twice |
| `QueueLaws.SequencesExact` | scripts/benchmarks/scale_002_runtime.py:63-63 | the sequences recorded for a job are exactly those of its committed events |
| `QueueLaws.OrdinaryQueue` | scripts/benchmarks/scale_002_runtime.py:59-77 | for well-formed lives the queue is exactly created minus claimed minus ended, and both duplicate counters are zero |
| `EventStream.AfterIsSuffix` | frontend/e2e/pipeline-fixtures.ts:229-230 | what the server finds past a cursor is exactly the unread rest of the log it can see |
| `EventStream.ReadBatch` | scripts/benchmarks/scale_002_runtime.py:277-291 | the duplicate counter grows by exactly the events whose sequence was delivered before, the ordering counter by exactly those not above the one before them; the cursor ends at the last one |
| `EventStream.Connect` | scripts/benchmarks/scale_002_runtime.py:269-291 | one connection takes the next events of the log, in order, none twice |
| `EventStream.Subscribe` | scripts/benchmarks/scale_002_runtime.py:263-308 | however much of the log each connection sees, a subscriber ends with a prefix of it, without duplicates or disorder, and the missing and resume counters are computed exactly; it raises only for a refused connection |
| `EventStream.MissingFrom` | scripts/benchmarks/scale_002_runtime.py:300-301 | the set difference the code counts is the length of the unread rest |
| `EventStream.TerminalLastIsComplete` | scripts/benchmarks/scale_002_runtime.py:263-301 | when the terminal event is the last, exactly 1..n is delivered in order and nothing is missing |
| `EventStream.ResumeCheckBound` | scripts/benchmarks/scale_002_runtime.py:302-307 | the final resume check passes if and only if the run has at most 103 events, against a server that sends 100 at a time |
| `EventStream.NothingMissingIff` | scripts/benchmarks/scale_002_runtime.py:269-301 | no subscriber of a log, whatever its connections see, can miss anything if and only if the first terminal event is the last event |
| `EventStream.LateEventIsMissed` | scripts/benchmarks/scale_002_runtime.py:269-301 | for every log a subscriber exists that reports exactly the events after the first terminal one as missing |
| `PipelineFixture.StagedIdsDiffer` | frontend/e2e/pipeline-fixtures.ts:200-200 | run identifiers made from different counts differ |
| `PipelineFixture.PipelineServer.Stage` | frontend/e2e/pipeline-fixtures.ts:189-210 | staging is refused without execution or with an invalid request; an accepted one starts a run at revision 1 with its creation event |
| `PipelineFixture.PipelineServer.Advance` | frontend/e2e/pipeline-fixtures.ts:269-281 | a change of state raises the revision by one, appends one event, and keeps every log numbered 1..n and ending in its run's state |
| `PipelineFixture.PipelineServer.Cancel` | frontend/e2e/pipeline-fixtures.ts:235-258 | accepted if and only if the request names the current revision and no conflict was forced; otherwise 404, 403 or 409 and no run changes |
| `PipelineFixture.PipelineServer.EmitState` | frontend/e2e/pipeline-fixtures.ts:269-281 | a known run moves to the given state, an unknown one is ignored |
| `PipelineFixture.PipelineServer.CancelTwice` | frontend/e2e/pipeline-fixtures.ts:241-246 | two clients holding one revision cannot both cancel |
| `PipelineFixture.AdvancedConsistent` | frontend/e2e/pipeline-fixtures.ts:253-256 | every log stays gapless and agrees with its run after any change of any run |
| `PipelineFixture.EndedRunIsDelivered` | frontend/e2e/pipeline-fixtures.ts:228-233 | a run that ended last is delivered to a resuming subscriber completely |
| `PipelineFixture.CancellingAnEndedRunIsMissed` | frontend/e2e/pipeline-fixtures.ts:235-258 | cancelling any run that has ended logs an event some subscriber misses |
| `IndexRebuild.CountForcesDistinct` | scripts/index_chunks.py:80-86 | on a fresh collection the point count equals the number of chunks if and only if no two chunks share an id |
| `IndexRebuild.SubmapOfSameSize` | scripts/index_chunks.py:80-86 | a collection that holds only input chunks and is as large as the input is the input |
| `IndexRebuild.IndexStore.Attempt` | scripts/index_chunks.py:64-91 | a storage call that fails before or after taking effect leaves a trusted state |
| `IndexRebuild.IndexStore.UpsertChunks` | src/retrieval/vector_store.py:98-102 | whatever batches fail, fail between their points, or lose points, everything stored came unchanged from the input; without faults all of it is stored |
| `IndexRebuild.IndexStore.Fill` | scripts/index_chunks.py:65-87 | drop, create, upsert, count and publish never leave a manifest over another collection |
| `IndexRebuild.IndexStore.Publish` | scripts/index_chunks.py:80-87 | the manifest is published only when the count shows that nothing was lost |
| `IndexRebuild.IndexStore.Rebuild` | scripts/index_chunks.py:39-94 | every state on the way is trusted; inputs that are not consistent touch nothing; success means that the stored points are exactly the chunks and the manifest has their number, dimension and fingerprints; without faults it succeeds if and only if the inputs are consistent |
| `IndexRebuild.BuiltIffConsistent` | src/retrieval/index_manifest.py:142-213 | a manifest is made if and only if the generation is complete, its ids differ, every vector has its dimension and its fingerprints are those of its chunks; it then carries exactly these |
| `IndexRebuild.IndexStore.Create` | src/retrieval/vector_store.py:56-71 | creating a collection that is there already leaves its points alone |
| `IndexRebuild.History` | scripts/index_chunks.py:39-94 | over any sequence of rebuilds with faults and crashes anywhere no state has a manifest describing a different collection |
| `Promotion.Vault.CreateEntry` | scripts/promote_phase2_result.py:210-216 | a new archive entry exists before its bytes are in it, and nothing else changes |
| `Promotion.Vault.PreserveArchive` | scripts/promote_phase2_result.py:210-221 | raises exactly when an existing entry holds other bytes or the write is cut short; complete entries never change |
| `Promotion.Vault.Promote` | scripts/promote_phase2_result.py:224-348 | a request that is drifted, whose candidate is already official, incomplete or of another strategy or binding, whose baseline is not official, or whose admission report did not pass, has no gates or a false one, or is about other files, digests, metrics, cases, binding or strategy, is refused before any write, and a dry run writes nothing; every state on the way has the old official bytes or the fully promoted ones, with the old ones archived first; without faults it succeeds if and only if it is not refused and no damaged archive entry is in the way |
| `Promotion.AdmissibleUnlessRefused` | scripts/promote_phase2_result.py:97-183 | the contract holds if and only if none of its single grounds for refusing does: 30 selected, generated and judged, 30 different questions all OK, provider-complete, eligible, not stopped, and the baseline and the report as above |
| `Promotion.WholeHistoryIsRecoverable` | scripts/promote_phase2_result.py:292-311 | following previous_official_sha256 back from the present file yields every earlier official result from the archive |
| `Promotion.AppliedRequestIsRefused` | scripts/promote_phase2_result.py:58-66 | an applied request is refused the next time if and only if it changed the official bytes |
| `Promotion.PromotedIsOfficial` | scripts/promote_phase2_result.py:287-305 | a promoted result parses, is official, names the three digests it came from, and is the candidate in every other field |
| `Promotion.PromoteTwice` | scripts/promote_phase2_result.py:224-348 | a promoted result is the baseline of the next promotion, which must expect its strategy; afterwards the links lead back through the first promotion to the result before it |
| `Promotion.History` | scripts/promote_phase2_result.py:224-348 | over any sequence of promotions, each failing or dying at any state it reached, the past is only ever extended, everything in it stays archived, and complete entries survive |
| `Promotion.PartialArchiveBlocks` | scripts/promote_phase2_result.py:210-221 | a death while the archive entry is being written leaves a partial entry that makes every later promotion of the same bytes fail |
| `Migration.PositionOfId` | scripts/migrate_to_qdrant_cloud.py:91-97 | the offset of the next page leads back to exactly that point |
| `Migration.CopyPages` | scripts/migrate_to_qdrant_cloud.py:88-113 | the paged copy terminates and sends every local point exactly once, in order |
| `Migration.Migrate` | scripts/migrate_to_qdrant_cloud.py:50-124 | the cloud map becomes the old one -- none when it is recreated -- overridden by the local one, in one upsert for each begun hundred of points, and the call returns normally if and only if no kept cloud id is missing locally |
| `Migration.OverriddenBy` | scripts/migrate_to_qdrant_cloud.py:67-124 | point by point: every local point is in the cloud as it is locally; any other id is there exactly if the collection was kept and had it, unchanged; and nothing else is there exactly when the two maps are equal |
| `Migration.StoredSize` | scripts/migrate_to_qdrant_cloud.py:64-65 | the local point count is the number of distinct ids |
| `Migration.CountDecides` | scripts/migrate_to_qdrant_cloud.py:121-124 | the count check after overriding is exactly a comparison of the key sets |
| `Migration.OverrideDecides` | scripts/migrate_to_qdrant_cloud.py:121-124 | which is exactly a comparison of the maps |
| `Campaign.Runner.MarkStage` | scripts/run_answer_scope_campaign.py:144-147 | recording a stage keeps every history sound: gates open, passed stages kept |
| `Campaign.Runner.RunCommand` | scripts/run_answer_scope_campaign.py:187-220 | saves RUNNING, then exactly one further state: PASSED on exit code zero, and otherwise by its report WAITING_QUOTA, NO_GO or FAILED; only the stage and the campaign status change, and the run continues exactly on exit code zero |
| `Campaign.VerdictMeans` | scripts/run_answer_scope_campaign.py:160-184 | a report counts as passed, refusing or waiting exactly for these values of its fields: a stated verdict first, then a refused admission, completeness, an audit and a quota stop |
| `Campaign.Runner.RunSentinel` | scripts/run_answer_scope_campaign.py:262-309 | a sentinel is skipped, adopted from its report, refused by it, or run |
| `Campaign.Runner.SecondSentinel` | scripts/run_answer_scope_campaign.py:262-326 | the run goes past the sentinels only when both are recorded PASSED |
| `Campaign.Runner.RunUnlessPassed` | scripts/run_answer_scope_campaign.py:223-244 | a stage is started only behind its gate, and the run continues if and only if it had passed or exits with zero |
| `Campaign.Runner.RunEarlyStages` | scripts/run_answer_scope_campaign.py:228-384 | the stages before admission run in order and never touch the official result |
| `Campaign.Runner.Admit` | scripts/run_answer_scope_campaign.py:386-409 | admission counts only with a passing report, but the state with all seven stages recorded PASSED is saved before that report is read |
| `Campaign.Runner.RunOnce` | scripts/run_answer_scope_campaign.py:227-412 | a run that ends normally is READY_TO_PROMOTE, and one whose commands and reports are all good does end normally |
| `Campaign.Runner.LoadOrCreate` | scripts/run_answer_scope_campaign.py:114-136 | resumes under the very same manifest, raises exactly on a drifted one, starts anew otherwise |
| `Campaign.Runner.BaseMain` | scripts/run_answer_scope_campaign.py:415-439 | exit code 0 means READY_TO_PROMOTE, 75 WAITING_QUOTA, 2 NO-GO or FAILED; a failed campaign is never left without a restart; a good environment ends with 0 |
| `Campaign.Runner.PromoteAndClose` | scripts/run_answer_scope_closure_campaign.py:148-181 | the official result is replaced only after the dry run, and the campaign is closed as promoted exactly when every step went well |
| `Campaign.Runner.ClosureMain` | scripts/run_answer_scope_closure_campaign.py:184-226 | every exit code says which state was saved; a good environment and promotion end CLOSED_GO_PROMOTED; a closed campaign is reported as such without a change; closing as NO-GO leaves the official result alone; a drifted manifest is refused before anything |
| `Campaign.Campaigns` | scripts/run_answer_scope_campaign.py:415-439 | every sequence of runs, resumes, restarts and deaths of the campaign's or the closure's command line on its own state file yields a legal history of saved states |
| `Campaign.FailedNeedsRestart` | scripts/run_answer_scope_campaign.py:425-429 | in a legal history a failed state is only ever followed by a fresh campaign |
| `Campaign.PassedStays` | scripts/run_answer_scope_campaign.py:223-224 | within one campaign a PASSED stage other than admission stays PASSED over any number of runs and resumes |
| `Campaign.LateStageIsGated` | scripts/run_answer_scope_campaign.py:328-404 | when reproducibility, n30 or admission has ever been started, every earlier stage is recorded PASSED, then and ever after |
| `Campaign.PromotedHasAllPassed` | scripts/run_answer_scope_campaign.py:411-412 | READY_TO_PROMOTE and CLOSED_GO_PROMOTED imply that all seven stages are recorded PASSED |
| `Campaign.OfficialChangesOnlyWhenReady` | scripts/run_answer_scope_closure_campaign.py:199-204 | the official result changes only while the saved state is READY_TO_PROMOTE with all seven stages PASSED |
| `Campaign.PromotedCampaignDrifts` | scripts/run_answer_scope_campaign.py:115-134 | within a campaign the saved manifest stops matching if and only if the official digest has changed: a promoted campaign is refused as drifted |
| `Campaign.Runner.CrashInAdmissionWindow` | scripts/run_answer_scope_campaign.py:387-409 | a death between the two admission saves makes the next run READY_TO_PROMOTE although the admission report did not pass |
| `Phase2.Run.Generate` | scripts/run_evaluation_phase2.py:469-499 | generations are those of a prefix of the selection, all OK but possibly the last; every OK one is sent and then measured, a failing one only sent, each with the context rendered for its question |
| `Phase2.Run.Judge` | scripts/run_evaluation_phase2.py:501-543 | judgements are those of a prefix, all OK but possibly the last, over the recorded answers, each with the context rendered for its question |
| `Phase2.RunPhase2` | scripts/run_evaluation_phase2.py:417-637 | provider_complete if and only if every selected case is generated and judged OK; official only when complete, non-empty and wanted; judging only after every generation is OK; every generation, metric and judgement of a case is made in the context rendered for its own last occurrence, in order, and none besides; every reported outcome is the environment's for that question |
| `Phase2.OneRendering` | scripts/run_evaluation_phase2.py:450-462 | over distinct questions generation, metrics and judge of the i-th case see rendering i and no other |
| `Phase2.ContextIsOwn` | scripts/run_evaluation_phase2.py:450-456 | a question runs in the rendering made for its last occurrence in the selection |
| `Phase2.NotRunIsTheUnreachedSuffix` | scripts/run_evaluation_phase2.py:576-603 | over distinct questions NOT_RUN marks exactly the questions a phase did not reach, and a reached one carries its own outcome |
| `Phase2.CompleteIffAllCasesOk` | scripts/run_evaluation_phase2.py:551-561 | a run is complete if and only if every reported case is OK in both phases |
| `Phase2.GenCount` | src/evaluation/judge_checkpoint.py:242-265 | the OK count equals the record count exactly when every generation is OK |
| `Scores.AggregateScores` | scripts/run_evaluation_phase2.py:344-386 | record by record: the judged count is that of the OK records with scores, every mean is their rounded average per key, or none when no score is numeric, the overall figure the rounded average of the means when all are there, and every category that occurs, and no other, has its own count and means |
| `Scores.Round4Rounds` | scripts/run_evaluation_phase2.py:340-341 | a rounded figure is a multiple of 0.0001 nearest to the exact one, and the even one of two that are equally near |
| `Scores.CountsAddUp` | scripts/run_evaluation_phase2.py:366-372 | the category counts add up to num_judged_ok |
| `Scores.TotalsAddUp` | scripts/run_evaluation_phase2.py:366-379 | the category totals add up to the overall total |
| `Scores.WeightedMeanClose` | scripts/run_evaluation_phase2.py:340-379 | when all scores are numeric, the count-weighted mean of the rounded category means is within 0.0001 of the rounded overall mean |
| `Checkpoints.CallWithCappedRetry` | scripts/run_evaluation.py:137-152 | at most three attempts, the first success wins, a parse error is not retried |
| `Checkpoints.EvaluateCase` | scripts/run_evaluation.py:427-489 | a case is SKIPPED_QUOTA if and only if no answering attempt returned; otherwise OK, JUDGE_PARSE_INVALID or skipped judging if and only if the deciding judging attempt, over that very answer, returned, did not parse or was the third exception; each guarded call is tried as CallWithCappedRetry says |
| `Checkpoints.ExpectedIs` | scripts/run_evaluation.py:391-397 | what is expected of a selected question is the fingerprint of its last case, and nothing of any other |
| `Checkpoints.Runner.LoadCheckpoint` | scripts/run_evaluation.py:107-127 | raises exactly on a line that does not parse; otherwise a question is loaded exactly when some line records an OK of it under its expected fingerprint, with the last such record, in the order in which the questions were first met |
| `Checkpoints.Runner.RunCases` | scripts/run_evaluation.py:391-502 | for any selection a run appends exactly one line for each case that was not loaded, in order; the records are the loaded successes and then the new ones, the skipped ones the other new ones |
| `Checkpoints.Runner.Append` | scripts/run_evaluation.py:130-134 | a record becomes a line of its own, or part of a line that lacks its newline, and is then lost together with it |
| `Checkpoints.NewLinesInOrder` | scripts/run_evaluation.py:422-489 | a run writes as many lines as there are cases not done, and the line of a case stands behind those of the cases not done before it and is its own evaluation |
| `Checkpoints.RecordsAre` | scripts/run_evaluation.py:399-489 | of the new lines exactly the OK ones become records and exactly the others are skipped |
| `Checkpoints.EachCaseInOnePlace` | scripts/run_evaluation.py:399-489 | over distinct questions every selected case is in exactly one of records and skipped, exactly once |
| `Checkpoints.EachCaseOnce` | scripts/run_evaluation.py:422-489 | every selected case was done before or gets exactly one new line |
| `Checkpoints.LeavesMeans` | scripts/run_evaluation.py:107-134 | what a run that may be cut short anywhere leaves: the file as it was behind a line that does not parse, else its whole lines and, as an open line, a part of the next one |
| `Checkpoints.HistoryKeepsOneSuccess` | scripts/run_evaluation.py:119-134 | over any history of runs, providers, selections and interruptions each question and fingerprint has at most one OK line |
| `Checkpoints.ResumedEqualsUninterrupted` | scripts/run_evaluation.py:391-489 | for a deterministic provider a resumed run that finishes with a loadable file leaves exactly the successes of one uninterrupted run |
| `Checkpoints.LoadableAgainIff` | scripts/run_evaluation.py:130-134 | a finished run leaves a loadable file if and only if it found no record without its newline or had nothing to write |
| `Checkpoints.TornLineBlocks` | scripts/run_evaluation.py:114-117 | a line torn by a crash stops every later run before it evaluates anything, until a fresh run deletes the file |
| `Jsonl.ReadsBackIff` | src/evaluation/evidence_provenance.py:47-65 | a file of rows, any of its writes cut short anywhere, reads back if and only if every line is a whole row holding no character str.splitlines cuts at; what comes back is then exactly the rows |
| `Jsonl.AppendedContent` | src/evaluation/request_ledger.py:44-49 | a write that stops after n characters has added exactly those n characters at the end of the file |
| `Jsonl.AppendedUndamagedIff` | src/evaluation/request_ledger.py:44-49 | wherever a write stops, the file is readable if and only if it was before and either nothing was written, or no line was open, the row is there to its end, and it holds no such character |
| `Jsonl.RecordedFaithful` | src/evaluation/request_ledger.py:44-49 | whatever part of a row reaches the file, the file stays made of whole rows and torn ones, and holds exactly the recorded rows as long as none is torn |
| `Jsonl.ReadAll` | src/evaluation/request_ledger.py:52-58 | reading gives every row ever recorded, in order, or fails; it fails exactly on a torn, glued or unclean row |
| `RequestLedger.PhaseDescribes` | src/evaluation/request_ledger.py:123-134 | the rows of an operation, read the way the code reads them, agree with the phase the model keeps |
| `RequestLedger.MaySendIff` | src/evaluation/request_ledger.py:120-134 | a request may be sent exactly when the ledger has no row of its operation, or just a first attempt for this very request and the retryable error it met |
| `RequestLedger.StoredIff` | src/evaluation/request_ledger.py:126-128 | a response is stored for a request exactly when the ledger holds its completed row, and it is the response of that row |
| `RequestLedger.AppendSound` | src/evaluation/request_ledger.py:77-99 | an appended row keeps slots numbered in order, below the budget, and every result matched to its reservation |
| `RequestLedger.NumberedMeans` | src/evaluation/request_ledger.py:77-85 | a slot is the number of reservations up to its own: they run 1, 2, and so on |
| `RequestLedger.AtMostTwoSends` | src/evaluation/request_ledger.py:135-142 | no operation is ever sent more than twice or completed more than once, and a second time only for the same request after an error worth retrying |
| `RequestLedger.PrefixSound` | src/evaluation/request_ledger.py:70-100 | every prefix of the rows of a sound ledger is sound |
| `RequestLedger.SentWithinBudget` | src/evaluation/request_ledger.py:1-5 | in every sound state, whichever deaths led to it, the requests ever sent are at most the slots reserved, which are within the budget; no slot was sent twice and no operation more than twice |
| `RequestLedger.Ledger.Send` | src/evaluation/request_ledger.py:142-144 | a request leaves only when the row reserving its own slot is in the file, and once it has left no later state forgets it |
| `RequestLedger.OwnRowsAreAcceptable` | src/evaluation/request_ledger.py:77-100 | no ledger the calls wrote themselves, cut short anywhere, fails the checks on slots, attempts and identities made at every reading |
| `RequestLedger.Ledger.ReadRows` | src/evaluation/request_ledger.py:70-100 | reading the ledger gives every row ever recorded, or fails exactly when the file does not read back |
| `RequestLedger.Settled` | src/evaluation/request_ledger.py:120-134 | a stored response is returned; changed inputs, an unanswered reservation and spent retries raise; nothing is settled exactly when a request may be sent |
| `RequestLedger.Ledger.WriteRow` | src/evaluation/request_ledger.py:44-49 | one durable state for each character of the row, with the lock as it was, all of them sound |
| `RequestLedger.Ledger.Attempt` | src/evaluation/request_ledger.py:135-174 | one attempt reserves the next slot, then sends that one request, and then records its outcome; the file reads back afterwards exactly when no line was open and both rows are clean |
| `RequestLedger.Ledger.Call` | src/evaluation/request_ledger.py:106-175 | with a lock in the way or a file that does not read back it raises and changes nothing; otherwise a stored response is returned without sending, what is settled against sending raises without sending, and else the result is the first answer, or the second after a retryable failure, as long as the budget lasts and the file still reads back; exactly the requests it reserved were sent, each once; every durable state inside a call has the lock |
| `RequestLedger.Ledger.DeathInsideLocksOut` | src/evaluation/request_ledger.py:106-118 | after a death anywhere inside a call the lock is left and the next call raises, whatever is stored |
| `RequestLedger.Ledger.UncleanAnswerLocksOut` | src/evaluation/request_ledger.py:44-49 | an answer whose row holds a character splitlines cuts at is returned once; after it every call of any operation raises |
| `ReplicateStates.FinishedStays` | src/evaluation/request_ledger.py:126-128 | a completed request keeps its response whatever is appended to a sound ledger |
| `ReplicateStates.ReadCheckpoint` | scripts/run_bilingual_evaluation_campaign.py:81-89 | of rows that were read, exactly a row of another run and an unknown or repeated case raise |
| `ReplicateStates.AssertBacked` | scripts/run_bilingual_evaluation_campaign.py:94-102 | raises exactly when some row has no completed request of its own among the ledger's rows |
| `ReplicateStates.OwnRowsAreAccepted` | scripts/run_bilingual_evaluation_campaign.py:280-282 | neither check ever refuses rows a replicate recorded itself, however it was interrupted |
| `ReplicateStates.DeathInRow` | scripts/run_bilingual_evaluation_campaign.py:67-72 | a death while a row of any of the three files is written makes the next resume refuse the files exactly when it would have done so before, or the write stopped inside the row, was glued to an open line, or holds a character splitlines cuts at |
| `ReplicateStates.JudgedCaseIsBacked` | scripts/run_bilingual_evaluation_campaign.py:92-102 | in every sound state a judged case has its generation, the judgement is about that answer, and each was one completed request sent at most twice |
| `Replicates.Replicate.WriteGen` | scripts/run_bilingual_evaluation_campaign.py:67-72 | one durable state for each character of a checkpoint row, all of them sound |
| `Replicates.Replicate.Answer` | scripts/run_bilingual_evaluation_campaign.py:288-300 | a draft and, if called for, its correction, each through the ledger; the answer is finished from the draft the completed request returned and, exactly when the draft calls for one, from the correction that was paid for; it fails only with the ledger locked or unreadable or something unanswered, and needs no request when everything is stored |
| `Replicates.Replicate.Generate` | scripts/run_bilingual_evaluation_campaign.py:283-327 | a generation row is written only after its requests completed, behind the old rows, with the answer made from their responses; what is already answered is recorded without a request; with the lock in the way nothing changes |
| `Replicates.Replicate.Judge` | scripts/run_bilingual_evaluation_campaign.py:328-337 | a judgement row is written only after its request completed, with the scores that request returned, about the recorded answer; scores already stored are recorded without a request; with the lock in the way nothing changes |
| `Replicates.Replicate.GenerateAll` | scripts/run_evidence_contract_v3_campaign.py:364-396 | the first loop ends with every case generated from the present binding; it raises only for a locked or unreadable ledger, a spent budget, a missing answer, or a row of another binding, and never when the ledger holds everything |
| `Replicates.Replicate.JudgeAll` | scripts/run_evidence_contract_v3_campaign.py:398-434 | the second loop ends with every case judged; it raises only for a locked or unreadable ledger, a spent budget or missing scores, and never when the ledger holds everything |
| `Replicates.Replicate.CheckFiles` | scripts/run_bilingual_evaluation_campaign.py:280-282 | the checks on resuming raise if and only if one of the three files has a torn or glued row, or a row holding a character splitlines cuts at |
| `Replicates.Replicate.Run` | scripts/run_bilingual_evaluation_campaign.py:275-338 | a resume over a file that does not read back is refused before anything happens; one over a leftover lock changes nothing and is refused if and only if something is left to do; one that does not raise leaves every case generated from the present binding and judged; one that raises has a named reason; and when the ledger holds every answer still lacking, the resume completes without a request |
| `Replicates.Replicate.Crash` | scripts/run_bilingual_evaluation_campaign.py:67-72 | a death throws files, ledger and lock back to any durable state, which is sound |
| `Replicates.Replicate.UncleanAnswerBlocksResume` | scripts/run_bilingual_evaluation_campaign.py:280-282 | an answer whose row holds such a character is recorded, and every later resume is refused |
| `Replicates.History` | scripts/run_evidence_contract_v3_campaign.py:361-434 | over any history of runs, with other inputs and replies each time, deaths after any character and locks left or removed, no checkpoint file holds a case twice, every row is backed by the ledger, no judgement precedes the last generation, and files only grow |
| `Replicates.SharedHistory` | scripts/run_bilingual_evaluation_campaign.py:390-402 | the same for two replicates and the calibration taking turns on one ledger, in any order and with deaths anywhere |
| `Collections.Server.ChangeCollection` | frontend/e2e/fixtures.ts:2217-2257 | a PATCH or DELETE is answered by the first of forced refusal, 404, 410 and 409 that applies and is accepted otherwise; it then changes exactly that collection's own fields and log |
| `Collections.Server.Add` | frontend/e2e/fixtures.ts:2260-2358 | items and notes are added only to a collection without a tombstone and with the identity or text they need |
| `Collections.Server.RemoveItem` | frontend/e2e/fixtures.ts:2303-2322 | an item is removed if and only if its own revision is named; the collection's tombstone is not looked at |
| `Collections.Server.ChangeNote` | frontend/e2e/fixtures.ts:2360-2394 | a note is changed or removed if and only if its own revision is named; the collection's tombstone is not looked at |
| `Collections.Server.Serve` | frontend/e2e/fixtures.ts:2128-2404 | every answer, for every route, is the first of forced refusal, 404, 410, 409 and 422 that applies, or acceptance; reads and refusals change nothing but the request log, a creation appends one collection, and everything else writes exactly its own effect to the one collection, item or note it names |
| `Collections.Server.AnswerDecided` | frontend/e2e/fixtures.ts:2206-2394 | which answer a request gets, stated by the collection, item and note it names and the revision it gives, for every route |
| `Collections.ServedOutcome` | frontend/e2e/fixtures.ts:2128-2404 | what an answered request leaves behind, stated element by element |
| `Collections.Server.ServeAll` | frontend/e2e/fixtures.ts:2137-2138 | a whole run of requests is a chain of such exchanges, all of them logged |
| `Collections.OneExchange` | frontend/e2e/fixtures.ts:2217-2394 | an exchange leaves every collection its identity and its log, and its own fields unless it is an accepted PATCH or DELETE of it |
| `Collections.NoLostUpdate` | frontend/e2e/fixtures.ts:2223-2233 | over every run the accepted changes of a collection consume consecutive revisions, its revision rises by their number, and its fields are what they make of it one after the other |
| `Collections.OneWinnerPerRevision` | frontend/e2e/fixtures.ts:2224-2252 | two accepted changes never name the same revision |
| `Collections.Between` | frontend/e2e/fixtures.ts:2245-2254 | between two moments the revision never falls and the activity log only grows; after a tombstone the own fields never change and no PATCH or DELETE is accepted |
| `Collections.AddKeepsDistinctIff` | frontend/e2e/fixtures.ts:2284-2284 | numbering a new element by the length of its list keeps the numbers distinct if and only if that number is free |
| `Collections.ItemIdsDistinctIff` | frontend/e2e/fixtures.ts:2284-2317 | over every run the items of a collection keep distinct numbers throughout if and only if no accepted addition takes a number that is in use |
| `Collections.NoteIdsDistinctIff` | frontend/e2e/fixtures.ts:2341-2388 | the same for notes |
| `Collections.ItemIdsCanRepeat` | frontend/e2e/fixtures.ts:2284-2317 | on any server with an empty collection, two additions, the removal of the first item and a third addition leave two items with one number |
| `Catalog.SettingOne` | frontend/e2e/fixtures.ts:922-934 | selecting a value in a dimension keeps, of the rows left when that dimension is ignored, those showing it; an empty value or year zero keeps them all |
| `Catalog.LeftOutIff` | frontend/e2e/fixtures.ts:922-934 | a row is left out if and only if a filter that is set, and not empty or zero, names another ticker, a section it lacks, another year, or a text that occurs nowhere in its lower-cased fields |
| `Catalog.DrillDown` | frontend/e2e/fixtures.ts:985-1005 | for every row list, filters and value, the facet count is the number of rows left after selecting a non-empty value |
| `Catalog.FacetListsWhatOccurs` | frontend/e2e/fixtures.ts:995-1003 | a facet lists exactly the values some row in scope shows, each once, in order |
| `Catalog.FacetOrder` | frontend/e2e/fixtures.ts:995-1003 | companies and sections are listed in rising order, years falling |
| `Catalog.FacetTotal` | frontend/e2e/fixtures.ts:986-1004 | the counts of a facet add up to the distinct values its rows show |
| `Catalog.CompanyCountsPartition` | frontend/e2e/fixtures.ts:995-996 | the company counts add up to the rows left without the ticker filter |
| `Catalog.YearCountsPartition` | frontend/e2e/fixtures.ts:997-1000 | the year counts add up to the dated rows left without the year filter |
| `Catalog.SortIsStable` | frontend/e2e/fixtures.ts:1262-1267 | rows with equal keys stay in the order they had |
| `Catalog.SortOrders` | frontend/e2e/fixtures.ts:1262-1267 | the listing is ordered by the requested key and direction |
| `Catalog.ListingOrders` | frontend/e2e/fixtures.ts:1257-1267 | by chunk count, ticker or document id as asked, and by filing date for anything else; falling unless ascending was asked for |
| `Catalog.PagesArePrefix` | frontend/e2e/fixtures.ts:1259-1272 | the first n pages, end to end, are everything before the start of the next |
| `Catalog.PageAt` | frontend/e2e/fixtures.ts:1259-1272 | page p of size n holds the rows from (p - 1) * n on, at most n of them, with p and n raised to one |
| `Catalog.PagingLosesNothing` | frontend/e2e/fixtures.ts:1259-1281 | enough pages, end to end, are the filtered rows, each once, in stable key order, and any later page is empty |
| `TextLines.RoundTrip` | scripts/add_table_chunks.py:37-37 | lines written with newlines read back as the same lines if and only if none contains a character str.splitlines cuts at |
| `TextLines.SeparatorSplitsALine` | scripts/add_table_chunks.py:93-93 | any record holding U+2028, which ensure_ascii=False leaves alone, reads back as two lines |
| `TextLines.LinesAppend` | scripts/add_table_chunks.py:91-93 | cutting a text behind a break cuts its lines there, unless it splits a carriage return from its newline |
| `TextLines.AppendsExactlyWhen` | scripts/add_table_chunks.py:91-93 | appending adds exactly the written lines if and only if the file was terminated and none of them holds such a character |
| `ChunkFiles.ChunkFile.Regenerate` | scripts/regenerate_table_chunks.py:17-30 | drops exactly the table records; a file without any is left alone, and a line that does not parse raises before anything is written |
| `ChunkFiles.ChunkFile.ExistingIds` | scripts/add_table_chunks.py:32-41 | the identifiers of all records, raising exactly when one does not parse or has none |
| `ChunkFiles.ChunkFile.Add` | scripts/add_table_chunks.py:88-93 | appends exactly the chunks whose identifiers the file does not have |
| `ChunkFiles.RegeneratedRecords` | scripts/regenerate_table_chunks.py:18-29 | a regenerated file holds exactly the other records, in order, and stays terminated |
| `ChunkFiles.TablesRemoved` | scripts/regenerate_table_chunks.py:18-26 | exactly the records that are no tables are kept, and something is removed exactly when there is one that is |
| `ChunkFiles.RegenerateIsIdempotent` | scripts/regenerate_table_chunks.py:18-29 | regenerating twice is regenerating once, character for character |
| `ChunkFiles.AddedRecords` | scripts/add_table_chunks.py:88-93 | adding to a terminated file keeps its records and appends the missing chunks in order |
| `ChunkFiles.MissingConcat` | scripts/add_table_chunks.py:88-93 | the missing chunks keep the order they were generated in |
| `ChunkFiles.AddIsIdempotent` | scripts/add_table_chunks.py:88-93 | adding the same chunks again changes no character |
| `ChunkFiles.RefreshedRecords` | scripts/regenerate_table_chunks.py:1-8 | regenerate-then-add keeps every other record in order and appends exactly the generated chunks whose ids no kept record uses |
| `ChunkFiles.StaleTablesDoNotMatter` | scripts/regenerate_table_chunks.py:1-8 | files that agree on the other records end up with the same records, and as the same file when both had tables to remove |
| `ChunkFiles.RefreshIsIdempotent` | scripts/add_table_chunks.py:7-8 | running both scripts again leaves the same records |
| `ChunkFiles.AddedIdsUniqueIff` | scripts/add_table_chunks.py:88-93 | after adding, identifiers are unique if and only if they were before and the appended chunks do not repeat one among themselves |
| `ChunkFiles.RefreshedIdsOnce` | src/ingestion/chunker.py:145-167 | with generated chunks numbered as they are, a refresh leaves every generated identifier, and all identifiers are unique if and only if those of the kept records are |

## Left out

- Retrieval, ranking, the SQLite job store, the worker supervisor, embeddings, LLM calls, SEC downloads, HTTP transport, real time and memory measurement: environment choices here, not logic.
- `select_completed` (scripts/benchmarks/capacity_001.py:76-81): settled by reading it.
- Capacity's division by 1,000,000 and the floating-point tolerance of its guard; times stay integer nanoseconds.
- The observer's timing samples (`began`, transaction and delivery times) and its owner and call counters.
- The subscriber's wait between polls, its `delivery_ms` figures and the SSE line syntax; a response is a list of events. `Last-Event-ID` headers are numbers.
- EventStream.Subscribe: asks for a log that has a terminal event, since without one the code polls for ever.
- Qdrant, embeddings and the hashing inside manifests: a collection is a map and a fingerprint stands for what it was computed from. Of a manifest the two fingerprints, the dimension and the point count are modelled, not the model names, times and schema versions; payload indexes are left out.
- Promotion's documents are parsed values: a field of another JSON type counts as the failure it is; the metrics the contract compares are one value. The temporary file of `_write_atomic` never becomes visible; paths stand for what they name. Another writer racing the last check is not modelled.
- The campaign's logs, command lines and sentinel report gates, and the v14-v19 path configurations; a stage is its exit code and the report it leaves. Another campaign or tool replacing the official result between two runs is not modelled; the resumed campaign would be refused as drifted (`Campaign.Runner.LoadOrCreate`). The closure's own record file is written together with the saved state.
- Phase2.RunPhase2: generation and judge checkpoint stores, the postprocessor and token usage are inside the environment's outcome for a question; `aggregate_deterministic` and `unique_evidence_texts` are not part of this model.
- Scores.AggregateScores: exact arithmetic with round-half-even to four decimals instead of binary floating point.
- Checkpoints.HistoryKeepsOneSuccess, like the other laws over several runs, is about distinct questions, as the evaluation set has; latency, printing and the summary tables are left out.
- RequestLedger.Ledger.Call: the ledger is single-writer as the code says; the campaign id and the limit every row repeats are those of the one campaign, the attempt number is kept with the reservation only, and the `operation` text and its `run_id` are one identity. A death strikes between characters, not between the bytes of one.
- Jsonl.ReadsBackIff: a JSON object is an abstract printed row with what makes it JSON stated as `Sound`: it parses back, and neither an object cut short nor two of them on one line parse (`Jsonl.SoundIsPossible` shows a format that keeps this).
- Replicates.Replicate.Run: what the calibration computes, the reports, the provider budget of a whole round, the status file that makes an INCOMPLETE campaign final, and the check that a stored response has the expected field are left out, and the locally rendered answers are inside `finish`. The bilingual runner keeps no binding in its rows; there the binding is one constant.
- Collections.Server.Serve: search, sorting and paging of the collection list, exports, time stamps, excerpts, snapshots and references of items are not modelled; a revision in a query that is missing reads as zero and is passed as such.
- Catalog.FacetListsWhatOccurs: the order of strings is a rank the runtime supplies, for the default sort as for localeCompare. The stats route and `searchFixtureSnapshot` are not part of this model.
- ChunkFiles.ChunkFile.Add: works one file at a time; which filings are visited and how tables are discovered is left out, and JSON is an abstract parser of lines.
- `agent-fixtures.ts` and `evaluation-fixtures.ts`: they repeat the pipeline fixture with weaker numbering.
- Settings validation, ticker aliases, the coverage matrix and the browser configuration would only add easy members.
