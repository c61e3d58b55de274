# ComicLens, modelled and verified in Dafny

ComicLens is a single-process server that translates comics. This project models its hard part, a resumable
and concurrent translation pipeline over database rows, with the file cache below it and the scheduler above
it, and proves what that pipeline keeps over every run.

- **Segments.** `ImageSegments` and `VerticalSlices` cut a tall page into overlapping OCR slices at bright rows, and
  `VerticalSliceLimits` has the pages on which the second of them fails; `SegmentPlanner` turns slices into the strips
  a reader sees; `SegmentRunner` gives every text box to one strip; `TextDedupe` merges what overlapping slices report
  twice. End to end, the strips tile the page and no text is lost or doubled.
- **Rows.** `SegmentRows` are the statements on generation, page and segment rows, `SegmentInvariants` what they
  keep, `CheckpointRecovery` what a start-up makes of segments whose files are gone, `TranslationRepository` the
  repository itself, `SegmentProducer` the incremental planner, `PageLayers` the layers on display over all generations
  of a chapter.
- **The streaming run.** `StreamPipeline` is one generation's run as a state machine: a producer, OCR tasks in any
  order, an in-order consumer, stops, starts, retries, failures, crashes and restarts. A step is a stretch of code
  without a suspension. `StreamInvariant`, `StreamOrder` and `StreamProgress` prove what every step and every run
  keeps, `StreamEnd` how runs, stops, retries and restarts end. `StallCounterexample` has two runs into a flaw of the
  stop, `RestartCounterexample` a run in which a restart loses a completed segment, `LateRetryCounterexample` one that
  ends completed with a pending segment. `StreamConsumer` is the consumer's code, proved to take exactly those steps.
- **`ConcurrencyLimiter`.** The resizable first-come-first-served permit limiter, with cancellation split into the
  cancelled future and the coroutine that wakes up later.
- **The cache.** `CacheIndex` (index, bundles, files), `CacheEviction`, `CacheAccounting`, `CacheRecency` (eviction by the
  history of uses) and the class `MediaCache`.
- **Pre-translation.** `BatchRows` (transactions), `BatchScheduler` (what the coordinator decides), `BatchDecisions` and
  `BatchOutcomes` (what its decisions come to), `BatchRuns` (safety over whole runs, with every tick cut short
  anywhere), `BatchCounterexample`, and the classes in `Pretranslation`.
- **`DeepLBatches`** and **`LoginLimiter`.** Greedy batching with its optimality, and the sliding-window limiter.

Each component has the same shape: functions on values say what an operation does, lemmas prove what follows
over all inputs and runs, and classes with fields and loops are proved to compute those functions.

Some promises turned out not to hold everywhere; each is stated with its exact condition:

- A cancellation of a batch that made way for a reader can leave two chapters of the batch running.
  `BatchRows.ChangeKeepsOneRunningItem` gives the condition, `BatchCounterexample.BothChaptersRun` a whole run.
- A cancelling batch does not always end cancelled. It leaves its cancellation exactly when the start of one of its
  chapters ends in a configuration error, when a tick would (re)start its current chapter while the services are not
  configured, when the generation of its current chapter is missing, or when the coordinator fails at work on it
  (`BatchRuns.CancellationIsLostIff` over every run; `BatchCounterexample.CancellationIsLost` has two whole runs).
- Completed segments and checkpoints are not always kept. A step forgets any of them exactly when it is a retry of a
  segment with something to clear, or a restart that does not find the files that the segments need
  (`StreamProgress.WorkIsNeverLost` over every run). Likewise completions are in order for exactly as long as no retry
  and no such restart reopens a segment that a completed one has overtaken (`StreamOrder.CompletionsAreInOrder`).
  `RestartCounterexample.CompletedSegmentIsLost` is a whole run without a retry that completes a segment twice.
- A start-up does not always repair a segment: a completed one that has lost its image and something before it comes
  out with a path to a missing file (`CheckpointRecovery.RecoverySufficesIff`), and when that is the path of its
  text blocks, no retry helps (`CheckpointRecovery.RetryKeepsWhatIsMissing`). The next start-up does.
- A put under a path that belongs to another bundle makes that bundle's byte total wrong
  (`CacheAccounting.PutAccounting`, `CacheAccounting.TwoOwnersMiscount`).
- Deleting the last entry of a bundle, or missing it in a read, ends the bundle's protection, also that of a chapter
  at work, and the next put does not bring it back (`CacheAccounting.DeletionEndsProtection`,
  `CacheAccounting.MissEndsProtection`, `CacheAccounting.LostProtectionStaysLost`).
- The older slice planner finishes every page of a size if and only if it does not split pages of that size, or its
  parameters are `VerticalSlices.Advancing`, or the page is shorter than 330 rows
  (`VerticalSliceLimits.EndsOnEveryPageIff`). It keeps the overlap on every page that it splits if and only if they are
  `VerticalSlices.Steady` (`VerticalSliceLimits.OverlapIsExactIff`). The failing pages are rows of black and white,
  judged by the planner's own score.
- A stopping consumer with nothing left to cancel repeats its turn without ever suspending if and only if the next
  unfinished segment is another than its current one: that one has failed, or an earlier one is open again
  (`StreamOrder.StoppingConsumerStalls`, `StreamOrder.StallCauses`; `StallCounterexample.StallIsReachable` and
  `StallCounterexample.StallIsReachableByRetry` are whole runs).
- A generation can end completed with a segment pending. When a run ends, completed means that every segment is
  completed exactly for as long as no retry reopens a segment between the return of the consumer and the end of the
  run (`StreamEnd.EndTellsWhatHappened`, `StreamEnd.ReturnStaysOkIff`; `LateRetryCounterexample.CompletedIsNotDone`).
- A stop of a preparing generation that no run has begun to work on never becomes a pause: the generation is left
  stopping until it is started again, its pause is forced, or the process restarts (`StreamEnd.StopWithoutRunStays`).

`dafny verify dfyconfig.toml` checks the whole project with Dafny 4.11.

The rows below cite what is proved about the program. A method that only carries out one specification function
(most handlers of the repositories, the consumer and the coordinator) has no row of its own: its contract names that
function, and the lemmas about the function are cited instead.

## Model

| member | source | states |
|---|---|---|
| ImageSegments.RatioGridIsSound | app/translation/image_segments.py:38-47 | For every accepted pair of ratios the rounded pixel quantities satisfy what the loop relies on: overlap below target, 1 <= tail <= target, half <= target |
| ImageSegments.RoundIsNearest | app/translation/image_segments.py:43-47 | A number is the rounding of x if and only if it is the integer nearest to x, and the even one of two that are equally near |
| ImageSegments.RatioGridIsAskedFor | app/translation/image_segments.py:38-68 | Target, radius, band and step are the integers nearest to their fractions of the page width, tail and half to a third and a half of the target (all but half at least 1), the overlap the one nearest to its own fraction, or target - 1 if that is less; the ratios allow no other quantities |
| ImageSegments.BrighterOrNearer | app/translation/image_segments.py:178-216 | Of two rows at the same distance from the aim the brighter one is preferred, of two equally bright ones the nearer |
| ImageSegments.FindCutPosition | app/translation/image_segments.py:178-216 | The search loop returns the cut that `Cut` defines, for any score, also when there is no room to search |
| ImageSegments.CutIsFirstBestProbe | app/translation/image_segments.py:202-216 | When there is room to search, the cut is a probed row, none scores better, and no earlier one scores as well |
| ImageSegments.NextBottom | app/translation/image_segments.py:53-68 | The end of the slice that starts at `top`, with the absorbed tail and the enforced advance past the overlap |
| ImageSegments.PlanRatioSlices | app/translation/image_segments.py:31-73 | Refuses exactly the ratios the source refuses; otherwise the plan is the one that the ratios ask for: a page no taller than the target is one slice, every later top lies the overlap above the bottom before it, and every slice ends at the first best of the rows looked at, or at the page end if less than a tail is left |
| ImageSegments.RatioPlanIsAskedFor | app/translation/image_segments.py:50-73 | A plan by the slice rule is the one asked for, for every grid and brightness: one slice or a search, ends and overlap told from the visited rows and the distance to the aim |
| ImageSegments.RatioPlanIsChain | app/translation/image_segments.py:50-73 | For any page of at least one row and any score: first top 0, last bottom the height, tops and bottoms strictly increase, each top exactly `overlap` above the bottom before it |
| ImageSegments.RatioPlanSizes | app/translation/image_segments.py:43-68 | Every slice is shorter than max(target + radius, band) + tail, and the last strip of a split page has at least `tail` rows |
| VerticalSlices.PlanVerticalSlices | app/translation/image_segments.py:76-134 | Pages that are not split are one slice; for all others the planning loop is followed for any number of turns: a plan exists iff the loop ends within them, and then the slices follow the slice rule from 0 to the height |
| VerticalSlices.CutOfSliceIsBest | app/translation/image_segments.py:104-123 | Every eighth row within the radius of the aim that leaves enough above and below is looked at; the cut is the first that none of them outshines by more than 0.08 for each row it is farther off; without such rows it is the row nearest to the aim |
| VerticalSlices.EffectiveOverlapIs | app/translation/image_segments.py:93-93 | The overlap in use is the greatest that is neither more than asked for nor more than a third of the slice height |
| VerticalSlices.SliceByHeight | app/translation/image_segments.py:98-134 | The planning loop for any score and any slice height: after `turns` turns there is a plan iff the loop has ended |
| VerticalSlices.AdvancingEnds | app/translation/image_segments.py:100-132 | If no slice can be empty, every turn gets further down the page, so that the loop ends within as many turns as the page has rows |
| VerticalSlices.VerticalPlanIsChain | app/translation/image_segments.py:93-131 | For steady parameters every top is exactly `overlap` above the bottom before it, from 0 to the height, and the last strip is not too short |
| VerticalSlices.VerticalPageTiles | app/translation/image_segments.py:76-134 | End to end for the older planner: the strips planned from its slices tile the page, each but the first read from the overlap above it |
| VerticalSlices.TallTargetsAreSteady | app/translation/image_segments.py:95-110 | Slice heights from 480 rows are steady, whatever the radius and the overlap |
| VerticalSliceLimits.UnsteadyTargetsFail | app/translation/image_segments.py:76-128 | For any parameters that are not steady, any width and any split test: a page that is split and on which, by the planner's own score, a slice ends within the overlap of its top |
| VerticalSliceLimits.OverlapIsExactIff | app/translation/image_segments.py:76-128 | Every slice of every split page goes beyond the overlap if and only if the parameters are steady |
| VerticalSliceLimits.TooShortNeverEnds | app/translation/image_segments.py:100-132 | If a slice can be empty, then for every height from 330 rows there is a page on which the loop goes on in every turn |
| VerticalSliceLimits.EndsOnEveryPageIff | app/translation/image_segments.py:76-143 | The planner finishes every page of a size if and only if it does not split pages of that size, or no slice can be empty, or the page is shorter than 330 rows |
| TextDedupe.DedupeTextBlocks | app/translation/image_segments.py:169-175 | The loop over the sorted blocks computes the first reports |
| TextDedupe.LooksDuplicate | app/translation/image_segments.py:219-235 | Duplicate iff blank or like a block that is already kept |
| TextDedupe.AlikeIsSymmetric | app/translation/image_segments.py:219-270 | Whether two blocks look alike does not depend on their order, neither by area overlap nor by vertical overlap |
| TextDedupe.AlikeIff | app/translation/image_segments.py:219-270 | In whole numbers: the same text, and either 35 of 100 parts of what both boxes cover is covered by both, or 65 of 100 rows of the lower box are shared and the centres are at most 40 rows apart |
| TextDedupe.DedupeIsSound | app/translation/image_segments.py:169-175 | The result is in reading order, made of input blocks, no two look alike, every text that was reported is represented, and deduplicating again changes nothing |
| SegmentPlanner.PlanPage | app/translation/segment_planner.py:268-323 | Strip i runs from the end of slice i - 1 to the end of slice i, numbered and with its OCR slice |
| SegmentPlanner.PagePlanTiles | app/translation/segment_planner.py:268-323 | Whatever planner made the overlapping slices, the strips are non-empty, lie inside their OCR slices and tile [0, height), and each but the first is read from exactly the overlap above it |
| SegmentPlanner.RatioPageTiles | app/translation/segment_planner.py:251-323 | End to end: ratios, rounding, brightness search and display strips together tile the page, with the overlap that the ratios ask for |
| SegmentPlanner.StripsPartitionPage | app/translation/segment_planner.py:298-316 | Every row of the page is displayed by exactly one strip |
| SegmentRunner.OwnedBlocks | app/translation/segment_runner.py:568-586 | For any list of blocks: each is kept iff its page centre is in the strip when it is its turn, in order, with its box rebased in place and no other touched; if no block comes twice these are the blocks that the segment owns |
| SegmentRunner.ExactlyOneOwner | app/translation/segment_runner.py:568-586 | A box whose centre is on the page is kept by exactly one segment, whose OCR slice contains the centre, and its stored box plus `displayTop` is the box on the page |
| SegmentRunner.TextIsConserved | app/translation/segment_runner.py:568-586 | Over all segments of a plan, what is kept and shown is exactly the boxes of the page, each once |
| SegmentInvariants.GlobalIndexIsLexicographic | app/repositories/translation.py:1121-1154 | Global indices order the segments by page and segment, so no pair occurs twice |
| SegmentInvariants.AppendKeepsPlan | app/repositories/translation.py:1084-1194 | Appending the next page is never refused, keeps prepared pages a prefix and gives its segments the next global indices |
| SegmentInvariants.AppendIsRefusedIff | app/repositories/translation.py:1098-1130 | Why the plan of a page is refused, told from the page and the plan; that a page which is not prepared has segments never happens |
| SegmentInvariants.RetryForgetsSuffix | app/repositories/translation.py:52-67 | A retry forgets exactly a suffix of OCR, translations, image, decided by the stage that the row names, and keeps the rest unchanged |
| SegmentInvariants.RetryRowKeeps | app/repositories/translation.py:1528-1577 | Retrying one segment keeps plan and checkpoint order, changes that row only and leaves the counters exact |
| SegmentInvariants.RetryAllKeeps | app/repositories/translation.py:1579-1652 | Retrying all failures reopens exactly the failed segments and leaves the counters equal to the rows they count |
| CheckpointRecovery.RecoveryForgetsSuffix | app/repositories/translation.py:260-328 | A start-up changes a segment iff a file that it needs is missing; a completed one then loses its image only, any other keeps exactly the checkpoints before the first that has lost a file, unchanged |
| CheckpointRecovery.RecoverySufficesIff | app/repositories/translation.py:260-328 | A segment comes out of one start-up with all files that it needs iff it was not a completed one that had lost its image together with an earlier file; two always suffice |
| CheckpointRecovery.RetryKeepsWhatIsMissing | app/repositories/translation.py:51-58 | A segment that comes out without its text blocks fails as pending, and a retry of that keeps the path of the missing blocks |
| CheckpointRecovery.RecoveryKeepsData | app/repositories/translation.py:260-394 | Plan, checkpoint order and counters of a generation survive every recovery |
| TranslationRepositories.RetryReturnsForgotten | app/repositories/translation.py:1599-1643 | The paths a retry returns for deletion are exactly those that a failed row held and that its columns no longer hold |
| TranslationRepositories.TranslationRepository.SetSegmentStage | app/repositories/translation.py:1377-1415 | The loop over the given columns: each has its new path, the others keep theirs, the stage is set, the error cleared and the attempts counted when asked; a segment that does not exist changes nothing |
| TranslationRepositories.TranslationRepository.ClearColumns | app/repositories/translation.py:1540-1549 | The loop over the columns to clear: the row without them and the paths they held, in column order |
| TranslationRepositories.TranslationRepository.PrepareFailedRetries | app/repositories/translation.py:1579-1654 | The loops over the failed rows and their pages: effect, count and the collected paths in global order |
| TranslationRepositories.TranslationRepository.AppendPreparedPageSegments | app/repositories/translation.py:1084-1194 | All five refusals leave everything as it was; otherwise the new rows, the prepared page and the total, and how many rows were added |
| TranslationRepositories.TranslationRepository.CountPageSegments | app/repositories/translation.py:1936-1950 | Total, completed and failed decide the outcome of the page: pending, failed or ready |
| TranslationRepositories.TranslationRepository.PublishCompletedSegmentPage | app/repositories/translation.py:1971-2019 | Publishes iff every segment of the page is completed; then all other layers of the page go and no other page changes |
| TranslationRepositories.TranslationRepository.RecoverInvalidSegmentCheckpoints | app/repositories/translation.py:260-394 | The loops over the segments of all generations, over the layers and over the affected generations, in any order, have the effect of the recovery |
| SegmentProducer.Planner.PrepareIncrementally | app/translation/segment_planner.py:124-175 | The loop over the pages prepares those that are not prepared, in order, and stops where it is asked to |
| SegmentProducer.RunsKeepPlan | app/translation/segment_planner.py:124-175 | However it is stopped, the plan stays consistent, existing segments stay, and completion means that every page is prepared |
| SegmentProducer.StopsAreHeeded | app/translation/segment_planner.py:124-175 | Exactly the pages that the producer gets to are prepared, and it reports completion if and only if nobody asks it to stop before or after a page that it has to prepare |
| SegmentProducer.ResumingIsSeamless | app/translation/segment_planner.py:136-175 | Stopped anywhere, with the segments worked on since in any way, a later run makes the very plan of an uninterrupted one |
| PageLayers.PublishCoversIff | app/repositories/translation.py:1971-2019 | Publishing a complete page leaves it covered iff every strip of the publisher is then on display: a missing one leaves a hole |
| PageLayers.PublishShowsExactly | app/repositories/translation.py:1971-2019 | Right after a publish the layers of the page are exactly the publisher's strips, which partition [0, height) |
| PageLayers.RecoveryShowsWhatIsThere | app/repositories/translation.py:260-394 | A restart takes exactly the layers off the display whose image is missing, and its second look, at the layers, finds nothing that the first, at the segments, has not repaired |
| PageLayers.RecoveryLeavesNoMissingImage | app/repositories/translation.py:260-394 | From any state of the layers: after a restart every layer has its image, and no segment is completed whose layer had lost it |
| PageLayers.RestartUncoversIff | app/repositories/translation.py:260-394 | A page that one generation covers alone stays covered through a restart iff no image on it is missing |
| PageLayers.StepKeeps | app/repositories/translation.py:1084-1194 | Plans, layers and the display of the newest generation's completed strips stay consistent under every statement |
| PageLayers.StepKeepsCoverage | app/repositories/translation.py:1432-1504 | No step uncovers a covered page while pages are worked on by their newest generation only |
| PageLayers.CoverageNeverRegresses | app/repositories/translation.py:260-2019 | Over every run of create, append, work, complete, fail, retry, publish and restart steps a covered page stays covered, while pages are worked on by their newest generation only and restarts find the images of completed segments |
| StreamConsumers.StreamConsumer.DiscardFinishedOcrTasks | app/translation/manager.py:1276-1282 | Drops exactly the finished tasks |
| StreamConsumers.StreamConsumer.FillOcrPrefetch | app/translation/manager.py:1206-1237 | Starts tasks for the first segments in global order that need OCR and have none, as far as the limit allows |
| StreamConsumers.StreamConsumer.CancelOcrTasks | app/translation/manager.py:1284-1300 | Keeps at most one task; started ones still have to end, the others never run |
| StreamConsumers.StreamConsumer.FinalizeProgressivePages | app/translation/manager.py:1493-1518 | Every page ends failed, published or untouched, by the outcome of its segments |
| StreamInvariant.PrefetchStaysWithin | app/translation/manager.py:1215-1237 | Prefetch never has more tasks than the limit, unless it had more already |
| StreamInvariant.PrefetchInOrder | app/translation/manager.py:1215-1237 | Prefetch passes over a segment that needs OCR only when every slot is taken |
| StreamInvariant.StepKeeps | app/translation/manager.py:987-1300 | Every step, also retries, stops, crashes and restarts with any files missing, keeps plan, checkpoint order, counters, tasks and the consumer's place consistent, as long as the generation is not deleted |
| StreamOrder.RecordsMean | app/translation/manager.py:1117-1202 | The history that the results on runs speak of: a segment enters it as begun exactly when the consumer takes it up, and as completed exactly when it is completed |
| StreamOrder.OrderIsKeptIff | app/translation/manager.py:1101-1202 | A step keeps completions in order iff it reopens no segment that a completed one, or the one being worked on, has overtaken |
| StreamOrder.CompletionsAreInOrder | app/translation/manager.py:1101-1202 | Over every run of a generation whose chapter is not evicted: completions are strictly increasing, each after every smaller segment is completed or failed, although OCR runs in any order, throughout the run iff no retry and no restart with missing files reopens an overtaken segment |
| StreamOrder.NewRunsAreInOrder | app/translation/manager.py:1101-1202 | The same from a new generation, and without retries and restarts always |
| StreamProgress.StepKeepsWorkIff | app/repositories/translation.py:260-1652 | A step leaves what is stored for every segment, OCR and image as they are, translations present, completed segments completed, iff it is no retry with something to clear and no restart that misses a file that a segment needs |
| StreamProgress.WorkIsNeverLost | app/translation/manager.py:987-1300 | Over every run of a generation whose chapter is not evicted, with any stops, failures, crashes, retries and restarts: every step keeps all stored checkpoints and completed segments iff no retry has anything to clear and every restart finds the files that the segments need |
| StreamProgress.NewRunsLoseNothing | app/translation/manager.py:987-1300 | The same between any two moments of a run of a new generation |
| StreamProgress.RetryKeepsWhatPreceded | app/repositories/translation.py:48-67 | Whatever happens between the failure of a segment and its retry, short of another retry or a restart: what a segment that failed in OCR had is forgotten; one that failed in translation keeps OCR and blocks, one that failed in rendering keeps its translations too, all unchanged, and the attempts grow by one exactly when it did not fail in OCR |
| StreamProgress.FailingStepDecidesRetry | app/translation/manager.py:1176-1190 | The same for every step that fails a segment, by the status that the segment had: a retry of the failed row keeps exactly what preceded it |
| StreamEnd.EndTellsWhatHappened | app/translation/manager.py:1050-1066 | The end of a run decides the status by the rows: paused unless producer and consumer came to their end, otherwise completed with errors iff a segment has failed and completed iff none has; completed then means that every segment is completed, unless a retry came after the consumer returned |
| StreamEnd.ReturnStaysOkIff | app/translation/manager.py:1050-1125 | That a consumer which returned with success has left no segment unfinished stays true under a step if and only if it is no retry that reopens a segment |
| StreamEnd.NewRunsEndTruthfully | app/translation/manager.py:987-1066 | In every run of a new generation in which nothing is reopened after the consumer has returned: completed iff every segment is completed, completed with errors iff some segment failed, paused iff a coroutine was stopped, and every page is failed or completed by what became of its segments |
| LateRetryCounterexample.CompletedIsNotDone | app/translation/manager.py:1050-1066 | A complete run from a new generation in which a retry between the return of the consumer and the end of the run leaves a generation completed with a segment pending |
| StreamEnd.EndedSegmentGoesOnIff | app/translation/manager.py:1143-1204 | When the consumer is done with a segment, it goes on iff the generation is still running, and otherwise returns with all tasks cancelled |
| StreamEnd.ClosingTells | app/repositories/translation.py:1936-2019 | When a segment has ended, its page is failed or completed iff all its segments have ended, failed iff one of them has; no other page changes |
| StreamEnd.StopTells | app/repositories/translation.py:994-1028 | A stop lets nothing begin: a queued generation is paused at once, any other is left stopping, and no row or page changes |
| StreamEnd.StopStaysOk | app/repositories/translation.py:994-1028 | In every step of a run the stop flag is set iff the generation is stopping |
| StreamEnd.StartTakesStopBack | app/translation/manager.py:266-290 | A start takes a stop back: work can go on with the same rows, and exactly as before if a segment was at work |
| StreamEnd.StartGoesOn | app/translation/manager.py:205-345 | A start touches no segment and leaves a generation as it is iff it is at work or has come to its end; a paused or failed one waits for a run, a stopping one goes on |
| StreamEnd.CrashTells | app/translation/manager.py:930-968 | After a crash a generation has failed iff an exception was the cause; then the pending segments say so, and no segment loses anything |
| StreamEnd.StopWithoutRunStays | app/repositories/translation.py:557-591 | A stopping generation without a run in progress stays so through any steps but a start, a forced pause or a restart |
| StreamEnd.RetryGoesOn | app/translation/manager.py:543-599 | A retry leaves a generation at work or stopping as it is and makes any other wait for a run; without anything to retry it changes nothing |
| StreamEnd.RestartTells | app/repositories/translation.py:74-328 | After a restart nothing is at work or stopping: what was stopping is paused, whatever else was active waits for a run, and the rest stays as it ended, unless a file that its segments need is missing |
| RestartCounterexample.CompletedSegmentIsLost | app/translation/manager.py:108-110 | A complete run from a new generation without a retry: the image of the completed segment is missing at a restart, the segment is pending again and completed a second time |
| StreamOrder.StopIsGraceful | app/repositories/translation.py:956-1028 | After a stop, without a start or retry, no segment is begun and at most one more completes: the one already begun |
| StreamOrder.NewRunsStopGracefully | app/repositories/translation.py:956-1028 | The same whenever a run of a new generation is stopped |
| StreamOrder.StoppingConsumerStalls | app/translation/manager.py:1080-1125 | A stopping consumer, with whatever tasks, comes back from its turn exactly as it was if and only if it has nothing to cancel or discard, it has a current segment, and the next unfinished segment is another one |
| StreamOrder.StallCauses | app/translation/manager.py:1080-1125 | The next unfinished segment is another than the current one iff the current one has failed or an earlier one is open again |
| StallCounterexample.StallIsReachable | app/translation/manager.py:1080-1125 | A complete run from a new generation into that state: the stop arrives while two segments are in OCR and the current one then fails |
| StallCounterexample.StallIsReachableByRetry | app/translation/manager.py:1080-1125 | A second run into it with a current segment that has not failed: a retry reopens the segment before it, and then the stop arrives |
| ConcurrencyLimiter.StepKeeps | app/translation/concurrency.py:31-73 | Over every interleaving of acquire, grant, both cancellations, release and resize: active permits are those granted and not given back, and a free permit means that nobody waits |
| ConcurrencyLimiter.FirstComeFirstServed | app/translation/concurrency.py:37-51 | Every waiter that came before a granted one was granted before it or cancelled |
| ConcurrencyLimiter.PermitsAreUsed | app/translation/concurrency.py:67-73 | In every run, while a waiter is pending, all permits are in use |
| ConcurrencyLimiter.LateCancellationGivesBack | app/translation/concurrency.py:42-51 | A cancellation after the grant gives the permit back and passes it on |
| ConcurrencyLimiter.ResizeTakesEffect | app/translation/concurrency.py:31-35 | After a resize the limit is the new one, the permits in use are max(before, min(limit, before + waiting)), and every holder keeps its permit |
| ConcurrencyLimiter.LimitIsLastResize | app/translation/concurrency.py:31-35 | Over every run the limit in force is that of the last resize, or the initial one |
| ConcurrencyLimiter.AcquireIsServedIff | app/translation/concurrency.py:37-51 | Who asks for a permit gets it at once if and only if one is free, and waits otherwise |
| ConcurrencyLimiter.LeavingFreesOne | app/translation/concurrency.py:53-65 | A holder that leaves frees exactly its permit, which goes to a waiter if there is one, and nobody else loses one |
| ConcurrencyLimiter.DynamicConcurrencyLimiter.GrantAvailable | app/translation/concurrency.py:67-73 | The loop pops and grants in order, skips cancelled futures and stops at the limit |
| ConcurrencyLimiter.DynamicConcurrencyLimiter.Wake | app/translation/concurrency.py:41-51 | Returns with a permit, or runs the except block: gives a late permit back, or leaves the queue |
| ConcurrencyLimiter.DynamicConcurrencyLimiter.LeaveSlot | app/translation/concurrency.py:59-65 | A holder's release is never refused |
| ConcurrencyLimiter.DynamicConcurrencyLimiter.Resize | app/translation/concurrency.py:31-35 | Refuses limits below 1; otherwise the limit is the new one, as many waiters as now fit are granted, and nothing is taken back |
| CacheEviction.EvictionIsShortestPrefix | app/cache/storage.py:367-385 | An undisturbed pass removes exactly the shortest prefix of the eligible bundles, by time and key, that brings the cache under its limit, or all of them |
| CacheEviction.EvictionSpares | app/cache/storage.py:473-510 | A bundle that is active, leased or excluded, or is leased or activated between selection and removal, keeps its row, entries and files |
| CacheEviction.EvictionSparesInTurn | app/cache/storage.py:367-385 | The same for what arrives in any turn of the pass: a bundle still there is spared from then on |
| CacheIndex.TurnShrinks | app/cache/storage.py:367-385 | Every turn takes the selected bundle out of the eligible ones, removed or not: passes terminate |
| CacheRecency.RunTracks | app/cache/storage.py:98-526 | Over every run with a clock that does not go back: the time that the index keeps for a bundle is that of its last put, hit, lease or activation, and its protection that of its longest lease and its last activation |
| CacheRecency.EvictionIsLeastRecentlyUsed | app/cache/storage.py:367-385 | Over every such run no pass removes a bundle while one that could be removed, and was used less recently, is left |
| CacheRecency.LeastRecentlyUsedGoes | app/cache/storage.py:367-385 | The same for one pass, with ties by key and with leases and activations arriving during it |
| CacheRecency.RemovableIff | app/cache/storage.py:473-510 | Over every such run a bundle can be removed if and only if no task is at work on it and every lease of it is over |
| CacheAccounting.PutAccounting | app/cache/storage.py:127-180 | A put keeps the byte totals exact if and only if the path is new or stays in its bundle |
| CacheAccounting.PutIsRefusedIff | app/cache/storage.py:98-126 | A put is refused, and changes nothing, iff there is nothing to store, no image where one has to be, or a path that leads out of the cache; the refusal names the first of these |
| CacheAccounting.TwoOwnersMiscount | app/cache/storage.py:127-180 | A failing input: two puts of one path in two bundles, from an empty cache, leave both byte totals wrong |
| CacheAccounting.DeletionEndsProtection | app/cache/storage.py:202-223 | A deletion removes a bundle, protected or not, if and only if it takes its last entry; otherwise its protection stays |
| CacheAccounting.MissEndsProtection | app/cache/storage.py:443-460 | A read that misses removes the bundle of its entry if and only if it was the last one |
| CacheAccounting.LostProtectionStaysLost | app/cache/storage.py:512-526 | After the last entry of an active chapter is deleted, the next put brings the bundle back without the mark of its task, open to eviction |
| CacheAccounting.StepKeeps | app/cache/storage.py:98-526 | Every operation keeps totals exact, paths in their bundles and the index equal to what was last put, whatever happens to the files |
| CacheAccounting.RestartRepairs | app/cache/storage.py:387-430 | Reconciliation of any index, also with wrong totals and paths outside the cache: exactly the broken entries go, index and files agree, surviving files are untouched, a bundle goes iff it loses its last entry, recounted totals are exact and others unchanged, and a second pass changes nothing |
| CacheAccounting.RestartKeepsTotals | app/cache/storage.py:387-430 | An index with exact totals has exact totals after reconciliation |
| CacheAccounting.StepKeepsMatch | app/cache/storage.py:98-510 | Unless something else touches the files, every operation keeps index and files in agreement |
| CacheAccounting.ReadsYourWrite | app/cache/storage.py:98-185 | A read straight after a successful put returns that content, whatever the put evicts |
| CacheAccounting.ReadsReturnLastPut | app/cache/storage.py:433-471 | Over every run, also with damaged files, a read misses or returns what was last put there |
| CacheAccounting.NothingIsLost | app/cache/storage.py:98-526 | While nothing else touches the files, every indexed path reads back as last put |
| MediaCaches.MediaCache.UsedBytes | app/cache/storage.py:255-258 | The usage is the sum of the entry sizes |
| MediaCaches.MediaCache.PutBytes | app/cache/storage.py:98-185 | The three refusals change nothing; otherwise the index transaction and, if enforced, an eviction pass that spares its own bundle |
| MediaCaches.MediaCache.ReadIndexed | app/cache/storage.py:432-471 | Hit, miss or bad image; a mismatch drops the entry and recounts its bundle, a hit makes the bundle recent and renews its lease if asked |
| MediaCaches.MediaCache.Delete | app/cache/storage.py:202-223 | Deletes the indexed paths with their files and recounts their bundles |
| MediaCaches.MediaCache.Remove | app/cache/storage.py:473-510 | Removes iff the bundle exists and is not in use by now |
| MediaCaches.MediaCache.RecalculateBundles | app/cache/storage.py:221-222 | The loop over the affected bundles, in any order |
| MediaCaches.MediaCache.Oldest | app/cache/storage.py:372-382 | Finds the eligible bundle that is least in (time, key), or that there is none |
| MediaCaches.MediaCache.EvictOverLimit | app/cache/storage.py:367-385 | The eviction loop, with leases and activations arriving between selection and removal |
| MediaCaches.MediaCache.RepairIndex | app/cache/storage.py:392-429 | The reconciliation loops: broken entries and their files go, affected bundles are recounted, unindexed files go |
| MediaCaches.MediaCache.DropBroken | app/cache/storage.py:398-422 | Exactly the entries without a matching file go, with their files; the result names their bundles |
| MediaCaches.MediaCache.SweepFiles | app/cache/storage.py:426-429 | Exactly the indexed files stay |
| BatchRows.ChangeFollows | app/repositories/pretranslation.py:179-609 | Every transaction keeps comic and items of its batch, leaves closed batches and closed items as they are, and keeps what cancelling, completed and completed-with-errors mean |
| BatchRows.ChangeKeepsOneRunningItem | app/repositories/pretranslation.py:195-463 | Every transaction keeps at most one running item, except a cancellation of a yielded batch, which does so if and only if no two items run or own an unfinished generation |
| BatchCounterexample.BothChaptersRun | app/repositories/pretranslation.py:413-430 | The exception is reachable: a complete run in which a cancellation leaves two running items |
| BatchRuns.TickIsPermitted | app/translation/pretranslation.py:268-286 | A tick claims a batch only when none is running |
| BatchRuns.RunsAreSafe | app/translation/pretranslation.py:248-541 | In every run of ticks cut short anywhere, user actions, failures and restarts: one running batch, one open batch per comic, and completed and completed-with-errors mean what they say |
| BatchRuns.ClosedStaysClosed | app/translation/pretranslation.py:248-541 | Over every run completed and cancelled batches and completed, skipped and cancelled items are absorbing, no item is lost, no attempt forgotten |
| BatchRuns.OneChapterAtATime | app/translation/pretranslation.py:248-541 | Over every run whose cancellations are safe, no batch has two running items |
| BatchRuns.ChaptersStartInOrder | app/translation/pretranslation.py:268-318 | A tick claims the first pending item of the oldest batch at work, which is running and has no running item, while nobody reads and no batch has yielded |
| BatchDecisions.TickOnCurrentItem | app/translation/pretranslation.py:446-493 | What a tick makes of the current chapter, by its generation: started or paused for lack of configuration, noted as running, waited for, settled by pause or cancellation when it has been stopped, or the batch failed when it is gone |
| BatchDecisions.TickTakesUp | app/translation/pretranslation.py:288-318 | A batch at work without a current chapter is paused or cancelled if that was asked, completed with or without errors if no chapter is left, and otherwise its first pending chapter is skipped, waited for or started |
| BatchDecisions.TickOnWaitingBatch | app/translation/pretranslation.py:268-286 | A queued batch that is its turn begins to run, and nothing else changes |
| BatchDecisions.TickMakesWay | app/translation/pretranslation.py:320-337 | While somebody reads, the batch at work makes way iff its current chapter is busy, pauses if its user asked for it, and nothing is started |
| BatchDecisions.TickComesBack | app/translation/pretranslation.py:339-365 | When nobody reads any more, the batch that made way waits while its chapter is busy, is then no longer marked, and starts a chapter that was paused unless the user has paused the batch |
| BatchDecisions.ActionsDoWhatTheyAreFor | app/translation/pretranslation.py:141-231 | Pause, resume, cancel, retry and close: accepted in exactly which cases, and what then becomes of the batch and its items; no other batch changes |
| BatchDecisions.SubmitAddsBatch | app/translation/pretranslation.py:114-139 | A request is refused iff services are not configured, no chapter is named or the comic has an open batch; otherwise a queued batch with these chapters to do is added |
| BatchOutcomes.OutcomesAreEarned | app/translation/pretranslation.py:248-541 | In every step of every run: an item is completed only on seeing its generation completed, skipped only on seeing its chapter completed without a failure, failed only on a generation that ended with errors or a chapter that could not start, cancelled only by the user or on a paused generation |
| BatchOutcomes.TickEndsItem | app/translation/pretranslation.py:446-493 | The converse: a tick at work on a running item ends it as its generation has ended |
| BatchRuns.CancelDuringStart | app/translation/pretranslation.py:381-444 | A cancellation during a chapter's start takes effect unless the start ends in a configuration error, which pauses the batch instead |
| BatchRuns.CancellationFate | app/translation/pretranslation.py:248-511 | A step takes a batch out of its cancellation if and only if it performs a pause for configuration or a failure on that batch |
| BatchRuns.CancellationIsLostIff | app/translation/pretranslation.py:248-511 | The same over every run, told from the state before the step: by whether the services are configured, the state of the generation at hand and the outcome of the start |
| BatchCounterexample.CancellationIsLost | app/translation/pretranslation.py:268-444 | Two complete runs from an empty table in which a cancelled batch ends paused: through a plain tick, and through a start |
| BatchScheduler.Scheduled | app/repositories/pretranslation.py:155-167 | The oldest batch at work, or else the oldest queued one, or none if there is neither |
| DeepLBatches.BuildBatches | app/translation/translator.py:82-106 | Non-empty batches within 50 texts and the byte limit that concatenate to the input, none able to take the next item; fails iff some single text is too large |
| DeepLBatches.FitsIff | app/translation/translator.py:82-106 | A request fits iff it has at most 50 texts, and its texts, a comma between any two and the rest of the body are fewer than 131072 bytes |
| DeepLBatches.GreedyIsOptimal | app/translation/translator.py:82-106 | No order-preserving split into fitting batches uses fewer batches |
| DeepLBatches.TranslateMany | app/translation/translator.py:60-80 | With a service that maps f over texts the result is f mapped over the texts, empty ones kept; it fails only for a text that cannot fit or a refused request |
| DeepLBatches.TranslateBatches | app/translation/translator.py:70-76 | One reply of the same length per batch, or the first refusal |
| DeepLBatches.Scatter | app/translation/translator.py:72-80 | Every translation stands at the index of its text, and nothing else changes |
| DeepLBatches.PlacedIsMap | app/translation/translator.py:66-80 | Scattering the translations by index is mapping the translator over the texts |
| LoginLimiter.LoginRateLimiter.Allowed | app/security/access.py:92-97 | Allowed iff fewer than `limit` failures since the last reset are younger than the window |
| LoginLimiter.LoginRateLimiter.Login | app/api/auth.py:45-57 | Limited, wrong or right password: answer, record and the other identities |
| LoginLimiter.NoWindowExceedsLimit | app/security/access.py:86-104 | If every failure is recorded only after it was allowed, no half-open window holds more than `limit` failures |
| LoginLimiter.LoginRateLimiter.AttemptsAreBounded | app/security/access.py:86-104 | The same for every identity of a limiter that is used through login attempts |

## Left out

- HTTP, the catalogue source, OCR and DeepL wire formats and their retries, logging, settings, sessions and the web interface.
- Images: brightness is an arbitrary function of the row, decoding an arbitrary predicate of the bytes; rendering, fonts and PNG encoding are not modelled.
- Floating point: ratios, brightness, overlap areas and clocks of the login limiter are real numbers, so the rounding of `width * ratio` in binary floating point is not captured.
- Text normalisation for deduplication: a block carries its normalised text as a field.
- SQL text, migrations and indexes: tables are maps and sequences. Segment rows are listed by global index and a segment is named by its place in that list; items of a batch are named by their position.
- Threads: each operation of the cache is atomic under its lock, and `enforce` says whether the caller runs an eviction pass or skips it because another one is running.
- Cache paths: two relative paths that normalise to the same file, leftover temporary files, empty directories, and the placeholder name that reconciliation uses for a path outside the cache are not modelled; bundle keys are numbered in their lexicographic order, and an eviction pass works at one reading of the clock.
- Evicting or removing a chapter's bundle also deletes its generations with all rows. The cache model stops at its own tables and the streaming model has no such step: what is proved over streaming runs (`StreamProgress.WorkIsNeverLost`, `StreamOrder.CompletionsAreInOrder`, `StreamInvariant.StepKeeps`) is about generations that are not deleted. `CacheEviction.EvictionSparesInTurn` says which bundles an eviction pass leaves alone; a stopped chapter is no longer one of them for its task.
- A put whose index transaction fails after the file was written appears in the cache runs as a file changed from outside.
- Page counters of a generation, error codes and summaries, OCR job identifiers, timestamps and activity listeners.
- The v1 and page-based runners, `commit_segment_plan`, the page branches of `prepare_failed_retries` and of the checkpoint recovery at start-up.
- A stored path is present or absent; the empty string, which the code treats as absent, is never the path of a checkpoint.
- Which generation a start chooses when settings have changed: `StreamPipeline` starts and resumes one generation with unchanged settings.
- PageLayers.CoverageNeverRegresses: assumes, as a hypothesis on each step, that a page is completed and published only by the newest generation that has completed any of its segments (an older generation that resumes afterwards is outside it), and that restarts find the images of completed segments (`PageLayers.RestartUncoversIff` says what happens otherwise).
- StreamOrder.StopIsGraceful: speaks of stops of preparing and running generations; a queued one pauses at once and has no consumer.
- Liveness of the streaming consumer: a start that cancels a stop after the producer has exited leaves planning incomplete; apart from the exact condition under which a stopping consumer spins, only safety is proved.
- VerticalSlices.PlanVerticalSlices: takes the number of turns of its loop as a parameter, because on some pages the loop has no last one; `VerticalSlices.AdvancingEnds` and `VerticalSliceLimits.EndsOnEveryPageIff` say when it has.
- TranslationRepositories.TranslationRepository.SetSegmentStage: does not model the OCR job identifier, the path of the OCR input, and the refusal of column names that do not exist.
- VerticalSlices.VerticalPlanIsChain: the default band and step of the search are constants, its radius is a parameter.
- BatchRuns.OneChapterAtATime: assumes on each cancellation step the condition that `BatchRows.ChangeKeepsOneRunningItem` shows to be exact.
- ImageSegments.PlanRatioSlices: ratios are finite by their type; the refusal of infinite and undefined ones is not modelled.
- Generations and their states as a batch sees them are arbitrary at every tick; the coupling of a batch item to the streaming run of its generation is not modelled.
- SegmentProducer.Planner.PrepareIncrementally: works without interference from the consumer, which never touches the plan; `SegmentProducer.ResumingIsSeamless` allows any work on the segments between two runs.
- Batch summaries, background lists and chapter overviews, which only read.
