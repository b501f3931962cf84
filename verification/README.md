# Verified model of the League of Legends crawler and aggregator

This project models the parts of the repository whose correctness spans many calls, and proves what they promise.
`dafny verify dfyconfig.toml` checks all of it. Each module stands for one component:

| modules | component |
|---|---|
| `PartLog`, `PartWriters`, `Archive` | the append-only part writer: footer, rename, rotation, restart, over one partition and over the whole archive |
| `CrawlProtocol`, `CrawlSafety`, `CrawlShortcut`, `CrawlBudget`, `CrawlWitnesses` | the crawl loop as a state machine over queue rows, `matches`, the open buffers and the published parts, with every failing call, cancellation, crash and restart as a step |
| `CrawlWorker` | the worker itself, as a class whose methods extend a ghost trace of that state machine |
| `Extraction`, `PatchEvidence`, `Tallies`, `RunningKda`, `Checkpoints`, `LaneMatchups` | the SQL, as functions over sequences of rows with NULLs |
| `Pipeline` | the archive, the statements, the tallies and the cells in one build |
| `Cells`, `CellVerifier`, `CellAgreement` | the cell policy, the independent verifier, and when the second accepts the first |
| `Publishing` | the directory swap with rollback, over a file tree with atomic renames |
| `PartitionOrder`, `Manifest` | the manifest merge and the verifier's reading of it |
| `Sorting`, `Collections`, `Options` | what several of them share |
| `Doubling`, `Breaker`, `Client` | the capped doubling, the circuit breaker, the bounded retry loop |
| `JsonSchema`, `SchemaStandard`, `SchemaGenerator`, `SchemaWalk` | the schema validator, JSON Schema 2020-12 for the same keywords, the emitter, and the walk that chooses its definitions |

The environment appears as nondeterminism: in the classes as arbitrary choices (`:= *`) or, for a publish, as the set of
calls that fail; in the state machines as parameters of the steps. A call that fails may or may not have taken effect. Time is a clock that never runs backwards.

## What the code does that its comments do not say

* `internal/crawl/worker.go:566-572` says a row is never closed ahead of its payload. The known-match shortcut closes it
  ahead exactly when the row was claimed while its match was recorded and in no part
  (`CrawlShortcut.DoneIsPublishedUnlessClaimedAhead`, `CrawlWitnesses.ClaimAheadBecomesSilentLoss`). An aborted pass or a
  failed flush leaves such rows (`CrawlWitnesses.ShortcutCanCloseAheadOfThePayload`,
  `CrawlWitnesses.MatchHypothesisIsNeeded`).
* A rotation inside `append` that fails drops earlier rows of the batch, and the next `Flush` returns nil; `CrawlSafety`
  says exactly when that matters.
* `internal/aggregate/publish.go:65-66` says any error leaves the live tree as it was. A failed move restores its own
  item only; `Publishing.SwappedIsPrior` and `Publishing.MixedExactlyWhenBothSidesChange` are the exact conditions.
* Grades are given on raw rates and rows are sorted on rounded ones, so the verifier can reject an honest tier list
  (`CellAgreement.RoundingCanHideAGrade`).
* `latestOf` lets the build win a tie for the newest patch, while the verifier expects the first listed partition of that
  patch (`Manifest.ASecondRegionFailsTheCheck`).
* `killPointsSQL` says participant 0 is filtered out of every branch; the assist branch has no such filter, and lets it
  through exactly when a kill lists it (`RunningKda.OnlyAssistsLetNobodyThrough`). The running totals are read by
  participant, so those of real participants are unaffected.
* `checkpointPicksSQL` speaks of a 30-second grace; the window is 60 s before to 30 s after the mark, and
  `Checkpoints.EarlyPickWhenNothingIsCloser` says when the difference shows.
* `fail` in `breaker.go` is said to record transport errors; the retry loop never reports one to the breaker
  (`Client.Caller.Do`: it counts 429 and 403).
* The schema check never enforces a numeric bound, because documents are decoded with `json.Number` and bounds are looked
  up as `float64`; it reads nothing beside `$ref`, `oneOf`, `anyOf` or `allOf`; and it asks for a string wherever there is
  a format. `SchemaStandard.ValidatorReadsThePrunedSchema` says what it decides instead; the generated schemas keep
  clear of all three (`SchemaWalk.GeneratedFollowsTheStandard`).
* The provenance branch of the timeline job requeues without looking at the attempt ceiling
  (`CrawlBudget.TimelineAttemptsAreUnbounded`); `CrawlBudget.WithinUnlessOverdrawn` says which runs keep within it.
* The row counter of the part writer is not reset by a failed finalise, so the next part rotates early, by exactly what
  `PartLog.NextPartClosesEarly` says.

## Model

| member | source | states |
|---|---|---|
| `Doubling.CappedDoubles` | internal/riot/breaker.go:114-123 | doubling once more and clamping again is exactly the next term of min(base * 2^(k-1), cap), also past the cap |
| `Doubling.RetryDelayNominal` | internal/crawl/worker.go:1114-1121 | the retry delay before jitter is min(base * 2^(attempts-1), cap) for every attempt count, 0 and below included |
| `Doubling.BackoffNominal` | internal/riot/client.go:565-576 | a loop of another shape, with its early exit, computes the same law |
| `Doubling.Jittered` | internal/riot/client.go:577-578 | equal jitter keeps the delay between half and all of the nominal value |
| `PartLog.FaultFreeRunKeepsOrder` | internal/raw/writer.go:368-468 | on every fault-free run the published parts in index order followed by the open rows are the appended rows in order, and every part holds between 1 and RowsPerPart rows |
| `PartLog.PublishedPartsOnlyGrow` | internal/raw/writer.go:440-468 | whatever fails and whenever the process dies, a published part stays where and what it was |
| `PartLog.RowsAreConserved` | internal/raw/writer.go:368-468 | after any run every row the encoder took is published, still open, or went down with a failed finalise or a crash: exactly once, counting multiplicity |
| `PartLog.PartsStayBounded` | internal/raw/writer.go:374-380 | no fault lets a part outgrow RowsPerPart, because the row counter, which a failed finalise does not reset, never undercounts |
| `PartLog.EmptyPartNeedsAWriteFault` | internal/raw/writer.go:368-382 | over every run, a part without rows is published if and only if a flush succeeds after a part was opened and every append since then failed to write |
| `PartLog.NoEncoderFaultNoEmptyPart` | internal/raw/writer.go:368-382 | so a run without an encoder fault, whatever else fails in it, publishes no part without rows |
| `PartLog.AWriteFaultCanPublishAnEmptyPart` | internal/raw/writer.go:303-345 | and that does happen: one failed encoder write and then a flush |
| `PartLog.NextPartClosesEarly` | internal/raw/writer.go:368-391 | after a failed finalise the next part closes after exactly the rows the leftover counter was short of the threshold, or one; it is full-sized if and only if the counter was 0 or parts hold one row |
| `PartLog.AFailedFlushShortensTheNextPart` | internal/raw/writer.go:368-391 | and a failed flush does leave such a counter behind |
| `PartWriters.ScanPartDir` | internal/raw/writer.go:478-510 | the next index lies above every published part; the stale list is exactly the temporaries older than the grace |
| `PartWriters.PartWriter.Append` | internal/raw/writer.go:368-382 | one append on the real directory is the abstract step of the part log; no published part is replaced |
| `PartWriters.PartWriter.Open` | internal/raw/writer.go:393-403 | opening a part never takes an index that is published, and fails only on a fault or when every candidate index is taken |
| `PartWriters.PartWriter.Create` | internal/raw/writer.go:419-435 | the exclusive create skips exactly the indices whose temporary exists, at most the fixed number of them |
| `PartWriters.PartWriter.Finalize` | internal/raw/writer.go:440-468 | footer, close and rename are the abstract finalise; a rename never lands on a published part |
| `PartWriters.PublishAbove` | internal/raw/writer.go:456-468 | a part published above every other index comes last in index order |
| `Archive.WriteKeepsCover` | internal/raw/writer.go:135-187 | an append keeps published what was published, and loses buffered rows only through a rotation that fails |
| `Archive.DroppedByRotation` | internal/raw/writer.go:374-380 | a failed rotation uncovers exactly the rows whose only copy was in that one open part |
| `Archive.FlushEffect` | internal/raw/writer.go:303-345 | a flush that reports success has published everything the open parts held |
| `CrawlProtocol.RowsPersist` | internal/store/queue.go:77-309 | no step loses a queue row or changes which match it stands for |
| `CrawlProtocol.DoneComesFromAClose` | internal/store/queue.go:246-251 | a row becomes done in no other way than a close of that very row |
| `CrawlProtocol.RunTracked` | internal/crawl/worker.go:427-496 | in every state a run reaches the rows of the running batch are distinct and known |
| `CrawlSafety.DurableStep` | internal/crawl/worker.go:427-643 | either loop: every step keeps done rows published and what is about to be closed covered, except exactly two: a rotation dropping the only copy of a retained row, and a known-match close of a claimed row whose payload is in no part |
| `CrawlSafety.TimelineStep` | internal/crawl/timeline.go:78-120 | the timeline loop has no shortcut, so there the invariant survives a step if and only if it is not such a rotation |
| `CrawlSafety.TimelineDoneIsPublished` | internal/crawl/worker.go:427-543 | over every run, with failing writes and flushes, cancellation, crash and restart, a done timeline row has its payload in a published part, provided no such rotation happened |
| `CrawlSafety.MatchStep` | internal/crawl/worker.go:551-615 | the match invariant survives a step if and only if the step does not drop the only copy of a recorded match |
| `CrawlSafety.NothingDroppedLosesNothing` | internal/crawl/worker.go:522-543 | a run in which no flush or rotation fails and no crash empties a buffer never takes such a step |
| `CrawlSafety.MatchRowsStayCovered` | internal/crawl/worker.go:551-643 | while nothing has been dropped, every matches row and every done row has its payload published or still buffered, also when closed by the known-match shortcut or after a pass aborted by the store |
| `CrawlShortcut.ShortcutInvStep` | internal/crawl/worker.go:566-580 | with known jobs of the batch published as well, a step breaks the invariant if and only if it is a lossy rotation or a claim of a row whose match is recorded and in no part; the shortcut itself never does |
| `CrawlShortcut.DoneIsPublishedUnlessClaimedAhead` | internal/crawl/worker.go:427-643 | either loop, over every run with crashes, failed flushes and aborted passes: a done row has its payload in a published part, provided no lossy rotation and no such claim happened |
| `CrawlWitnesses.ClaimAheadBecomesSilentLoss` | internal/crawl/worker.go:566-580 | and from every such claim there is a continuation in which the shortcut closes the row while no part holds its payload |
| `CrawlWitnesses.LossyRotationBecomesSilentLoss` | internal/raw/writer.go:374-380 | from every state in which a rotation drops a retained row that is still claimed, and so will be closed, there is a continuation that reports success and closes it: the proviso cannot be weakened |
| `CrawlWitnesses.TimelineProvisoIsNeeded` | internal/crawl/worker.go:457-496 | a concrete run from the empty system that does it |
| `CrawlWitnesses.MatchHypothesisIsNeeded` | internal/crawl/worker.go:573-580 | upsert, failed flush, requeue, close by the known-match shortcut: a done row without payload |
| `CrawlWitnesses.ShortcutCanCloseAheadOfThePayload` | internal/crawl/worker.go:566-580 | without any failed flush, an aborted pass, a reclaimed claim and a crash are enough; the comment there says a row is never closed ahead of its payload |
| `CrawlBudget.AttemptsAreNetCharges` | internal/store/queue.go:192-309 | over any run the attempt counter is what claims charged minus what releases refunded |
| `CrawlBudget.BudgetStep` | internal/crawl/worker.go:646-721 | either loop: a step keeps a row within MaxAttempts plus its interruptions if and only if it is not a requeue without provenance of a row that has spent them |
| `CrawlBudget.WithinUnlessOverdrawn` | internal/crawl/timeline.go:95-98 | so a row keeps within them all the way if and only if the run holds no such requeue of it |
| `CrawlBudget.RowsRetire` | internal/crawl/worker.go:646-721 | either loop: a row is claimed, net of refunds, at most MaxAttempts times plus once per interruption and per such requeue, and is off the queue when that budget is spent |
| `CrawlBudget.MatchRowsRetire` | internal/crawl/worker.go:646-721 | a match row, which is never requeued so, at most MaxAttempts times plus once per interruption |
| `CrawlBudget.RefusedRowsKeepTheirBudget` | internal/crawl/worker.go:646-660 | over every run, with crashes, restarts, lost replies and aborted passes in it: a row whose every failure is an open circuit or a refused key is never dead-lettered, and its attempts are the ones it started with plus its interruptions plus the claim it is under or was closed under |
| `CrawlBudget.TimelineAttemptsAreUnbounded` | internal/crawl/timeline.go:95-98 | and for timeline rows there is no bound without counting those requeues: a lookup that keeps failing reaches every number of attempts, uninterrupted |
| `CrawlWorker.Store.ClaimJobs` | internal/store/queue.go:192-235 | a claim reserves distinct ready rows, at most the limit, and charges each an attempt, also when its reply is lost |
| `CrawlWorker.Store.Update` | internal/store/queue.go:246-309 | a status update touches one claimed row and refunds the attempt only on release |
| `CrawlWorker.Store.UpsertMatch` | internal/store/matches.go:33-67 | an acknowledged upsert records the match; a failed one may have recorded it |
| `CrawlWorker.Worker.Release` | internal/crawl/worker.go:763-780 | the row goes back with its attempt refunded, or the pass ends |
| `CrawlWorker.Worker.RequeueAfter` | internal/crawl/worker.go:790-808 | the row goes back with its attempt spent; on a cancelled context it is handed back detached |
| `CrawlWorker.Worker.HandleFetchFailure` | internal/crawl/worker.go:646-697 | an open circuit or a refused key is one refund and nothing else, a gone match or bad request one dead letter, and any other failure goes by the ceiling: retired at it, requeued below it or when the run is stopping |
| `CrawlWorker.Worker.HandleArchiveFailure` | internal/crawl/worker.go:713-721 | a failed write is dead-lettered at the ceiling and requeued below it |
| `CrawlWorker.Worker.ProcessTimelineJob` | internal/crawl/timeline.go:78-120 | a timeline job ends with its payload covered by the writer and the row retained, or with the row off its hands and, unless the store failed or the run is stopping, off its claim |
| `CrawlWorker.Worker.ProcessMatchJob` | internal/crawl/worker.go:551-615 | a match job ends retained only with its matches row recorded; otherwise the row is settled or the pass is over |
| `CrawlWorker.Worker.ReleaseUnstarted` | internal/crawl/worker.go:843-865 | every row not started when the run was stopped is sent back to the queue with its attempt refunded by one statement of its own, whatever each call answers; the rows afterwards are exactly those statements applied |
| `CrawlWorker.Worker.FlushArchive` | internal/crawl/worker.go:461-480 | the flush is refused only on a context cancelled meanwhile; success hands the whole batch to the closing phase, failure hands the retained rows back unless the run is stopping |
| `CrawlWorker.Worker.AbandonRetained` | internal/crawl/worker.go:522-543 | after a failed flush each retained row is sent to dead at the ceiling and to retry below it, by one statement per row; the rows afterwards are exactly those statements applied |
| `CrawlWorker.EachRowLeavesOnItsOwn` | internal/store/queue.go:246-309 | and of such a series each row sees its own statement and no other: changed as decided if that one took effect, untouched if not |
| `CrawlWorker.Worker.CompleteRetained` | internal/crawl/worker.go:482-511 | retained rows are closed in order; without an error each one still claimed is done and each one reclaimed meanwhile is left alone; no other row moves either way |
| `CrawlWorker.Worker.ProcessBatch` | internal/crawl/worker.go:437-456 | the batch loop: what is behind it is retained or settled, whatever happens to the store and the context in between |
| `CrawlWorker.Worker.ClaimBatch` | internal/crawl/worker.go:427-439 | an empty or failed claim leaves the worker idle |
| `CrawlWorker.Worker.DrainQueue` | internal/crawl/worker.go:427-496 | a whole pass is a run of the protocol that ends idle; without error or stop it has settled every row it claimed |
| `CrawlWorker.Worker.Pass` | internal/crawl/worker.go:427-543 | the worker meets the safety theorems: a pass from a sound state none of whose steps is a losing one ends sound, with every done row published, or for matches under the weaker hypothesis published or buffered |
| `Publishing.Publisher.Publish` | internal/aggregate/publish.go:67-177 | the calls that fail decide the outcome: the first failing item and its stage, else the manifest, else success; every tree on the way shows each path old, absent or exactly staged, the manifest new only over an all-new tree; success swaps everything; unless an undo call fails, a failed parent-create, displace or manifest swap leaves the prior tree; one directory is all-or-nothing for every failing step |
| `Publishing.Publisher.SwapIn` | internal/aggregate/publish.go:120-165 | one item: parent, displace, move; a failed move puts back its own entry and nothing else |
| `Publishing.Publisher.DisplaceItem` | internal/aggregate/publish.go:213-255 | the live entry is moved to its trash slot, and nothing moves when the step fails |
| `Publishing.Publisher.MoveItem` | internal/aggregate/publish.go:130-165 | the staged entry comes in, or the displaced one goes back |
| `Publishing.Publisher.SwapManifest` | internal/aggregate/publish.go:171-177 | the manifest goes last, and its failure undoes everything |
| `Publishing.Publisher.Rollback` | internal/aggregate/publish.go:184-209 | slot i belongs to the i-th replaced path across directories and files, and undoing newest first restores the prior tree |
| `Publishing.SwappedIsPrior` | internal/aggregate/publish.go:130-165 | what a failed move leaves is the prior tree if and only if every earlier item already held its staged content |
| `Publishing.MixedExactlyWhenBothSidesChange` | internal/aggregate/publish.go:130-165 | it is neither the prior nor the complete publish if and only if an item before the failing one changes and so does the failing one or one after it |
| `Publishing.TwoDirectoriesCanEndMixed` | internal/aggregate/publish.go:65-66 | a publish of two changed directories in which the rename of the second is the only call that fails ends with such a tree, although the comment promises the tree is left as it was |
| `RunningKda.FrameTallyIsTheDirectCount` | internal/aggregate/features_sql.go:1118-1183 | grouping, prefix sums and the as-of lookup with default 0 give the direct count of the participant's kill events at or before the frame, for any events with any NULLs |
| `RunningKda.FrameTalliesNeverDecrease` | internal/aggregate/features_sql.go:1136-1149 | so the running numbers never go down along a match |
| `RunningKda.RunningHasOneRowPerTime` | internal/aggregate/features_sql.go:1125-1135 | grouping first makes the as-of row unique |
| `RunningKda.PointsCountEvents` | internal/aggregate/features_sql.go:587-619 | the three branches of kill points add up to the kills, deaths and assists of the events |
| `RunningKda.OnlyAssistsLetNobodyThrough` | internal/aggregate/features_sql.go:577-619 | a participant number that is not positive gets a kill point if and only if some kill lists it among its assistants |
| `RunningKda.ParticipantZeroCanAssist` | internal/aggregate/features_sql.go:577-619 | and participant 0 can be listed there |
| `Extraction.ExtractInBatches` | internal/aggregate/extract.go:250-269 | for every archive and every batch size of at least 1 the batched statements yield the rows of one unbatched pass, in the same order; they fail only over a participants member that is there and is not an array |
| `Extraction.WholeIsKept` | internal/aggregate/sql.go:132-226 | deduplicating the envelope and joining the payloads back unfolds exactly the first record of every match |
| `Extraction.DuplicatesChangeNothing` | internal/aggregate/sql.go:160-185 | later second copies of archived matches, wherever they lie, change no feature row |
| `Extraction.ArchiveLocationsAreUnique` | internal/aggregate/sql.go:160-185 | no two records of an archive of distinctly named parts share a file and row number, which is what the deduplication orders by |
| `Extraction.PartsOfCopiesChangeNothing` | internal/aggregate/sql.go:160-226 | so higher-numbered parts holding only matches already archived change neither the spill nor the feature rows |
| `Pipeline.RoleMirrorsThePolicy` | internal/aggregate/sql.go:40-60 | the role expression accepts exactly the spellings the policy reads, from the assigned position unless it is empty, and writes one that reads as the same role |
| `Pipeline.ParticipantsReachTheWindow` | internal/aggregate/sql.go:611-642 | the participants the envelope counts for a patch are the participant rows of its window |
| `Pipeline.ARecrawlChangesNoTierList` | internal/aggregate/sql.go:160-226 | crawling archived matches again hands the cell policy the very same tallies and match count |
| `Pipeline.BuildTierList` | internal/aggregate/extract.go:250-269 | archive to tier list for every batch size: once extracted, it succeeds exactly when a row can be classified, publishes the cells of those tallies, accounts for every participant of the envelope as tallied or rejected, and the reconciliation gate stays silent |
| `PatchEvidence.CountsAgree` | internal/aggregate/sql.go:563-597 | patch by patch the envelope and the unnested rows count the same matches and participants |
| `PatchEvidence.EvidenceAgrees` | internal/aggregate/extract.go:335-355 | on every archive the two patch lists are one map, with participants missing, empty or present |
| `PatchEvidence.CheckPatchEvidence` | internal/aggregate/extract.go:335-355 | accepts exactly when every extracted row is the envelope's and the lists are equally long; with unique patches, exactly when they are equal as maps |
| `Tallies.RowsSplit` | internal/aggregate/sql.go:468-476 | under three-valued logic every row of the patch is classified or rejected, never both and never neither |
| `Tallies.TalliesConserveRows` | internal/aggregate/sql.go:485-495 | the tallies sum to participant rows minus rejected rows, with one tally per key and sound counts |
| `Tallies.EachTallyIsItsDirectCount` | internal/aggregate/sql.go:485-495 | each tally is the direct count of its champion's classified rows, and of the won ones, in that role |
| `Cells.RefusesExactlyTheUnsound` | internal/aggregate/cells.go:121-153 | the policy refuses exactly the inputs with a bad bound, an unsound tally, no rows or an unknown role |
| `Cells.TierIsMonotone` | internal/aggregate/tier.go:53-61 | a better rate is never graded worse, and every rate gets a published grade |
| `Cells.RoundIsNearest` | internal/aggregate/cells.go:225-227 | rounding lands within half a unit, halves away from zero |
| `Cells.Round4IsMonotone` | internal/aggregate/cells.go:225-227 | rounding to four decimals keeps order |
| `Sorting.SortedIsInOrder` | internal/aggregate/cells.go:196-211 | the insertion sort behind every published list leaves its elements in order, for any strict order with transitive ties |
| `Sorting.SortedIsPermutation` | internal/aggregate/cells.go:196-211 | and holds exactly the elements it was given |
| `Cells.SortedIsAnOrderedPermutation` | internal/aggregate/cells.go:196-211 | sorting keeps exactly the cells it was given and leaves them by role, falling rate and id |
| `Cells.SortedKeys` | internal/aggregate/cells.go:213-220 | the ids of a set, strictly ascending, none missing |
| `Cells.CollectBans` | internal/aggregate/cells.go:129-132 | the ban map holds each champion's total |
| `Cells.WeighTallies` | internal/aggregate/cells.go:134-148 | the first bad tally is the one reported; otherwise games and wins are totalled |
| `Cells.ComputeCells` | internal/aggregate/cells.go:121-189 | succeeds exactly on sound inputs with the sorted cells of the kept tallies; published plus suppressed is the total; the baseline is wins over games of the whole window; champions are all observed ones |
| `CellVerifier.Verifier.CheckCell` | internal/aggregate/verify.go:412-460 | complains clause by clause and answers true exactly when it had nothing to say |
| `CellVerifier.Verifier.CheckCellOrder` | internal/aggregate/verify.go:471-507 | the loop with its carried previous cell, carried grade and seen set makes exactly the complaints defined over what came before |
| `CellVerifier.Verifier.CheckTierList` | internal/aggregate/verify.go:320-336 | all complaints about a tier list, and the number of publishable cells |
| `CellAgreement.EveryPublishedCellPasses` | internal/aggregate/verify.go:412-460 | for plausible tallies no published cell draws a complaint and all of them are counted |
| `CellAgreement.OrderCheckReadsGrades` | internal/aggregate/verify.go:471-507 | on a graded, ordered list without repeats the order check comes down to the grades of neighbours |
| `CellAgreement.VerifierAcceptsExactlyWhenTiesAgree` | internal/aggregate/verify.go:320-336 | the verifier finds nothing wrong with the policy's list if and only if, of two kept tallies of a role that round to one rate, the lower id grades no worse |
| `CellAgreement.BuildThenVerify` | internal/aggregate/verify.go:297-341 | one build and one check of it, end to end, with that verdict |
| `CellAgreement.RoundingCanHideAGrade` | internal/aggregate/tier.go:48-61 | 127 of 251 and 253 of 500 show one rate and two grades: a sound input whose published list the verifier rejects |
| `CellAgreement.TalliesAreComputable` | internal/aggregate/sql.go:485-495 | the tallies of any rows with normalised roles are computable exactly when the bounds hold and a row was classified |
| `CellAgreement.ReduceRows` | internal/aggregate/gate.go:258-279 | from rows with any NULLs to the gates: the reconciliation gate holds at tolerance 0, published plus suppressed is the total, keys are unique |
| `Checkpoints.EachKeyOnce` | internal/aggregate/features_sql.go:644-690 | a checkpoint key finds at most one pick, and one exactly when the participant has a frame in the window of a game that reached the checkpoint |
| `Checkpoints.PickIsNearest` | internal/aggregate/features_sql.go:660-672 | a pick lies at most 60 s before and 30 s after the minute mark, and no qualifying frame of the participant is nearer |
| `Checkpoints.OnePickPerPartition` | internal/aggregate/features_sql.go:668-670 | two rows numbered first in a partition are the same row |
| `Checkpoints.EarlyPickWhenNothingIsCloser` | internal/aggregate/features_sql.go:644-690 | a pick lies more than 30 s before its mark if and only if no frame of the participant within 30 s of the mark qualifies |
| `Checkpoints.APickCanBe45SecondsEarly` | internal/aggregate/features_sql.go:644-690 | and frames 45 s before and 40 s after the mark give such a pick |
| `LaneMatchups.JoinsNeverMultiply` | internal/aggregate/features_sql.go:715-787 | the six left joins keep every pairing exactly once, with the pick of each side at each minute or NULL |
| `LaneMatchups.DifferencesAreAntisymmetric` | internal/aggregate/features_sql.go:724-736 | every pairing is listed from both sides with opposite differences, NULL on one side exactly when NULL on the other |
| `LaneMatchups.PairingsAreMeetings` | internal/aggregate/features_sql.go:745-764 | the exact number of rows of a match played by two teams: twice the sum over roles of what one fields times what the other fields |
| `LaneMatchups.TenRows` | internal/aggregate/features_sql.go:698-702 | with each role once per team a match has ten rows |
| `LaneMatchups.OpponentIsAnInvolution` | internal/aggregate/features_sql.go:698-702 | each participant has one opponent, on the other team, whose only opponent is the participant |
| `LaneMatchups.ReconciliationHolds` | internal/aggregate/features.go:779-854 | with full lineups the table holds ten rows a match and names every match of the ledger, so the gate passes |
| `Breaker.CircuitBreaker.Record` | internal/riot/breaker.go:106-132 | one failure on the fields is one step of the law; it reports exactly whether it tripped |
| `Breaker.CircuitBreaker.Succeed` | internal/riot/breaker.go:136-142 | one good answer forgets every failure but not the trip count |
| `Breaker.CircuitBreaker.Allow` | internal/riot/breaker.go:55-68 | nothing is admitted inside a window; the call is refused without sleeping exactly when the window is open and the backoff saturated |
| `Breaker.BackoffAfter` | internal/riot/breaker.go:106-132 | after n failures in a row the window is at least min(cooldown * 2^(k-1), maxWait) for trip k, and exactly that when no key was refused |
| `Breaker.AdmissionsAreSpaced` | internal/riot/breaker.go:55-82 | request threshold + k is let through no earlier than the first plus b1 + ... + bk |
| `Breaker.FittingCounts` | internal/riot/breaker.go:106-132 | the number of windows fitting a span is exactly the largest k with b1 + ... + bk within it |
| `Breaker.RequestsAreBounded` | internal/riot/breaker.go:43-68 | a sequential caller met only by 429 or 403 has at most threshold requests admitted by time t, plus one for every window that fits into t |
| `Breaker.MeetOnlyFailures` | internal/riot/breaker.go:55-132 | a caller that asks the breaker itself and is met only by such failures is such a caller, and gets no more requests through than that |
| `Breaker.RefusalSaturates` | internal/riot/breaker.go:96-116 | a refused key that trips is answered with the longest window at once |
| `Client.Caller.Do` | internal/riot/client.go:300-463 | at most MaxAttempts round trips, each but the last retryable; 429 waits slept within RetryWaitBudget; success only for 2xx; a 429 that does not fit comes back suspended; the limiter is penalised by each 429's wait, in order; the breaker counts 429 and 403 and is reset by success |
| `Client.Caller.Attempt` | internal/riot/client.go:312-352 | an open, saturated breaker ends the attempt before anything is sent |
| `Client.Caller.AfterLimited` | internal/riot/client.go:359-425 | a 429 penalises the limiter by its wait, and is slept only if it fits what is left of the budget |
| `Client.Caller.Prepare` | internal/riot/client.go:312-338 | nothing is sent before the window of the breaker is over |
| `Client.Caller.Answer` | internal/riot/client.go:337-450 | each status takes its own exit, and breaker and limiter are told what that exit says |
| `PartitionOrder.SortedIsInOrder` | internal/aggregate/manifest.go:225-239 | with readable patches the list is ordered by patch, newest first, then region, queue and bracket |
| `PartitionOrder.OrderIsDetermined` | internal/aggregate/manifest.go:225-239 | for canonical patches an ordered list without repeated keys is fixed by what it holds |
| `Manifest.UpdateManifest` | internal/aggregate/manifest.go:85-140 | refuses exactly an unknown source, an unreadable document or a second source; otherwise one entry per key, built over live over discovered, sorted, with the latest rule applied |
| `Manifest.NothingIsLost` | internal/aggregate/manifest.go:97-129 | every partition of the document and of the tree keeps an entry; the build is listed as built; no phantom entry appears |
| `Manifest.LatestIsNewest` | internal/aggregate/manifest.go:207-221 | latest is listed, nothing listed is newer, and the build wins ties |
| `Manifest.ReindexChangesNothing` | internal/aggregate/manifest.go:62-66 | merging a written manifest with the zero partition over its own tree gives back the very same list |
| `Manifest.Verifier.DuplicatePartitions` | internal/aggregate/verify.go:245-258 | one complaint for every entry whose key an earlier entry carries |
| `Manifest.NewestPatch` | internal/aggregate/dates.go:92-100 | the loop returns the first patch no later one improves on |
| `Manifest.Verifier.CheckLatest` | internal/aggregate/verify.go:263-286 | complains exactly when latest is not the first listed partition of the newest patch |
| `Manifest.LatestPassesUnlessBehindTheFirst` | internal/aggregate/verify.go:263-286 | on any readable list the verifier accepts latest if and only if the build is not as new as the first entry without being it |
| `Manifest.LatestPassesUnlessTieWonFromBehind` | internal/aggregate/verify.go:263-286 | read before the merge: merge and verifier agree on latest if and only if the build does not tie with the newest patch known while some region, queue or bracket of it goes before the built one |
| `Manifest.ASecondRegionFailsTheCheck` | internal/aggregate/manifest.go:207-221 | a second region of the newest patch does: its own manifest is rejected |
| `JsonSchema.Validate` | internal/aggregate/jsonschema.go:120-192 | adds a complaint exactly when the value does not conform, and ends on every schema whose references do not lead back to themselves |
| `JsonSchema.ValidateVariants` | internal/aggregate/jsonschema.go:194-218 | oneOf needs exactly one match and anyOf at least one, each variant judged on its own list |
| `JsonSchema.ValidateFields` | internal/aggregate/jsonschema.go:220-254 | declared keys by their schema, others by additionalProperties |
| `JsonSchema.CheckRequired` | internal/aggregate/jsonschema.go:221-231 | complains exactly when a required key is missing |
| `SchemaStandard.PlainSchemasMeanTheSame` | internal/aggregate/jsonschema.go:120-192 | on schemas whose references and combinators stand alone, formats come with type string and nothing is bounded, the validator decides what JSON Schema 2020-12 says |
| `SchemaStandard.ValidatorReadsThePrunedSchema` | internal/aggregate/jsonschema.go:120-192 | on every schema whose references do not lead back to themselves the validator decides what JSON Schema 2020-12 says of that schema pruned: without bounds, without anything beside a reference or the first combinator, with type string for every format, and with unknown keywords refusing every value |
| `SchemaStandard.ValidatorCanBeLaxer` | internal/aggregate/jsonschema.go:133-156 | so a keyword beside $ref, and a bound, can pass unread |
| `SchemaStandard.ValidatorCanBeStricter` | internal/aggregate/jsonschema.go:160-192 | and a format without a type is refused on a value that is no string |
| `SchemaGenerator.StructSchema` | internal/aggmodel/schema.go:219-256 | copying embedded properties and adding own ones gives the object schema of all published fields |
| `SchemaGenerator.EncodingConforms` | internal/aggmodel/schema.go:258-286 | the JSON encoding of a well-formed value passes the schema generated for its type if and only if no byte slice is written in it: those are emitted as arrays and encoded as text |
| `SchemaGenerator.NoBytesWritten` | internal/aggmodel/schema.go:258-286 | which is so for every value of types that nowhere mention one |
| `SchemaGenerator.CheckOwnOutput` | internal/aggregate/jsonschema.go:90-107 | and the validator complains about it exactly when one is |
| `SchemaGenerator.TamperingIsRejected` | internal/aggregate/jsonschema.go:220-254 | without a required property, or with an undeclared one, the encoding is rejected |
| `SchemaGenerator.NoReferenceDangles` | internal/aggmodel/schema.go:91-115 | in a self-contained document every $ref, however deep, resolves |
| `SchemaGenerator.GeneratedIsSound` | internal/aggregate/jsonschema.go:142-150 | no generated definition is a reference, so validation ends by value size and one reference step |
| `SchemaWalk.Walker.NamedStructs` | internal/aggmodel/schema.go:355-380 | the walk lists each struct once, holds the roots, and is closed under what its structs mention |
| `SchemaWalk.ClosedSetIsSelfContained` | internal/aggmodel/schema.go:91-115 | such a set makes a self-contained document |
| `SchemaWalk.GeneratedFollowsTheStandard` | internal/aggmodel/schema.go:219-286 | on every generated document the validator is exactly JSON Schema 2020-12 |

## Left out

* HTTP, TLS, gzip, JSON decoding of Riot payloads, Parquet and zstd encoding, DuckDB execution, SQL text and quoting, metrics, logging, signals, configuration: plumbing or foreign code. Responses, payload contents and faults are arbitrary.
* The rate limiter and the key provider: only that a wait may end the call, and what `Penalize` is told.
* Float64 rounding and integer widths: rates are reals, counts and durations unbounded integers, the square root any function with `root(n) * root(n) == n`. A JSON number is a real, so numerals outside the float64 range are not modelled.
* `not_before` times, claim grace and frontier priorities: a claim may return any ready rows, and maintenance may reclaim any claimed row at any moment, which allows every schedule the times allow.
* The store offers `ReleaseJob`; the requeue the worker falls back to when it does not is not modelled.
* One worker process writes the archive. The outer loop of `Run` appears as the steps boot, maintenance, shutdown flush and crash; ladder seeding and frontier walks appear as arbitrary enqueues.
* File operations are atomic steps, listed publish paths are distinct and none contains another; partial states inside a recursive removal, file modes and NFS are not modelled. Parent directories hold no content.
* Keys that the code renders as text (partition keys, dedupe keys, schema type names) are tuples or distinct names here, so a collision of two renderings is not modelled.
* How a patch text is read is a parameter of the manifest and its verifier: every theorem about order assumes only that the listed patches are readable, and where it says so that one patch has one spelling. An unreadable patch compares equal to everything, which is no order, so nothing is claimed about sorting then.
* Reading artifacts back from disk for the manifest, the window dates, the champion, build and match-up documents and their checks, `computeBuilds`, `computeMatchupCells`, `AllowedRejectedRows` and the archive gates: easy members beside those here.
* The order in which the schema check visits the keys of an object (it sorts them) and the wording of its messages: complaints carry path and kind.
* Struct fields that never reach JSON (unexported, or tagged `-`), and embedded fields other than plain untagged structs (a tag of their own, a pointer to a struct, a named scalar): the emitter drops or inlines them and the encoder does the other. No artifact type has one. Arrays are slices, except that an array of bytes, which is encoded as numbers, is not modelled.
* Item, skill and ward projections, objective totals, the events table, demo data, path building and Data Dragon mirroring: projections without an invariant of their own.
* Ban rows and their extraction: a build takes them as given.
* Ties in SQL: rows equal in every sort key come in storage order.
- Publishing.Publisher.Rollback: what the tree is when an undo step itself fails is bounded only by what every tree on the way may show, because the code then logs and goes on.
- CrawlBudget.RowsRetire: says when a row is off the queue, not when it gets there, because no fairness of the scheduler is assumed.
- Cells.ComputeCells: the sort is stated as an ordered permutation; its stability shows only for cells equal in role, rate and id, which unique keys exclude.
