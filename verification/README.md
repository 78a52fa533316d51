# Verification of the capture and analysis core

This project models the parts of tailtriage in which correctness spans several functions, and
proves what holds across them.

* **Capture** (`Collector`, `CaptureSteps`, `CaptureInvariants`, `CaptureWorld`, `CaptureProtocol`,
  `CaptureHistories`, `Capture`). One mutex guards the growing run, the pending requests, the live gauge counts and the
  phase. `Collector` says what each critical section computes. `CaptureSteps` lets any number of
  threads interleave those sections with everything that happens outside the lock: keys drawn before
  it, tokens and guards held across it, listener calls owed after it, the sink written without it.
  `CaptureInvariants` and `CaptureWorld` prove what every step keeps, `CaptureProtocol` what follows
  for every run, and `CaptureHistories` where each retained event, refusal and final field comes from
  in the steps of the run. `Capture` has the same sections as methods on objects that update their fields, each
  proved against `Collector`.
* **Normalization** (`Normalization`) of a run before it is written and before it is analyzed.
* **Analysis** (`Attribution`, `TimeShares`, `StageAttribution`, `Percentiles`, `Inflight`,
  `Scoring`, `Suspects`, `Evidence`, `ConfidenceCaps`, `Analysis`): interval union, permille shares,
  order statistics, scores, the choice between completed and lower-bound evidence, confidence caps
  and the final ranking. `LowerBounds` says on which runs observed evidence can fall below completed
  evidence, `OrderFree` that the analysis does not depend on the order events were appended in.
* **Slicing in time** (`Slicing`, `Temporal`): the early and late halves of a run.
* **Scripts** (`PublicationOrder`, `RustLexer`): the release order of the workspace's packages and
  the blanking lexer.
* The modules named after another with `Laws` (`ScoreLaws`, `ShareLaws`, `InflightLaws`,
  `ConfidenceLaws`, `NormalizationLaws`, `TemporalLaws`, `PublicationLaws`, `LexerLaws`) say what each
  operation means for its caller without the functions that compute it: when a suspect exists and what
  it scores, which event survives, which gauge dominates, where a token ends.
* `EndToEnd` ties capture, normalization and analysis together. `Machine`, `Sorting`, `Names` and
  `Events` are the vocabulary.

`dafny verify dfyconfig.toml` checks everything.

## How to read it

Loops of the source are methods with invariants; each is proved equal to a specification function,
and the laws are lemmas about those functions. Saturating 64-bit arithmetic is written out on
mathematical integers. Iterating a hash map is an arbitrary choice among the entries left. Clock
samples and pending keys are arguments, because they are drawn before the lock is taken: events may
be appended in another order than their times.

## Where the code and its description part

* Partial observations are described as lower bounds, so observed evidence should never fall below
  completed evidence. It can: one partial event without offsets switches a request from the union of
  its intervals to the sum of its durations, and a duration may be up to 2000 us shorter than its
  interval. `LowerBounds.ObservedFallsBelowCompleted` gives a run the analyzer can receive on which a
  completed queue candidate exists and the observed one does not. The exact condition, over all such
  runs, is `LowerBounds.WaitsDominatedInNormalRuns` for queue waits and
  `LowerBounds.PartsDominatedInNormalRuns` for stages; `Normalization.ToleranceBoundsLoss` says how
  much can be lost at most. The score laws that need the condition carry it as `NoLossOnSwitch` for
  queues and `NoStageLoss` for stages.
* Strong evidence still lets one coverage cap through: with a queue trigger of zero a queue suspect
  can exist without any queue event. It scores at most 35 points (`Analysis.QueueScoreWithoutEvents`),
  so it is lowered only where the high threshold is that low: `Analysis.StrongEvidenceCapsOnly` and
  `Analysis.StrongRunIsCappedExactly` say exactly when, and `EndToEnd.StrongRunCanBeCapped` gives a
  run.
* The blanking lexer raises an index error on some texts; `RustLexer.FailsExactly` says on which, and
  `RustLexer.FailsOnOpenEscape` gives one.

## Model

| member | source | states |
|---|---|---|
| `Capture.Tailtriage.PushRequestBounded` | tailtriage-core/src/retention.rs:5-19 | keeps the first `max_requests` requests and counts every later one, in exactly the state `Collector.PushRequest` gives |
| `Capture.Tailtriage.PushStageBounded` | tailtriage-core/src/retention.rs:20-30 | the same for stages |
| `Capture.Tailtriage.PushQueueBounded` | tailtriage-core/src/retention.rs:31-41 | the same for queue events |
| `Capture.Tailtriage.PushInflightSnapshotBounded` | tailtriage-core/src/retention.rs:42-57 | the same for in-flight snapshots |
| `Capture.Tailtriage.PushRuntimeSnapshotBounded` | tailtriage-core/src/retention.rs:58-72 | the same for runtime snapshots |
| `Capture.Tailtriage.MarkRunLimitsHit` | tailtriage-core/src/collector.rs:143-154 | raises the run's flag and the atomic flag; only the first call reports having raised it |
| `Capture.Tailtriage.StartRequest` | tailtriage-core/src/collector.rs:775-817 | the whole locked state after admission or refusal, the caller's answer, and one listener call exactly when this section raised the flag; keeps `CoreInv` |
| `Capture.Tailtriage.ResolveRequest` | tailtriage-core/src/collector.rs:739-762 | the whole locked state after a token resolves, and that the listener is never called: the drop branch is dead |
| `Capture.Tailtriage.Inflight` | tailtriage-core/src/collector.rs:590-650 | the locked state after opening a guard, whether the guard is enabled, and the listener call it owes |
| `Capture.Tailtriage.ReleaseInflight` | tailtriage-core/src/timers.rs:26-74 | the locked state after a guard's drop, the zero entry removed, and the listener call it owes |
| `Capture.Tailtriage.RecordStageEvent` | tailtriage-core/src/collector.rs:703-719 | the locked state after recording a stage event, and the listener call it owes |
| `Capture.Tailtriage.RecordQueueEvent` | tailtriage-core/src/collector.rs:721-737 | the locked state after recording a queue event, and the listener call it owes |
| `Capture.Tailtriage.RecordRuntimeSnapshot` | tailtriage-core/src/collector.rs:653-677 | a snapshot without run-relative time is stamped; then the locked state and the listener call owed |
| `Capture.Tailtriage.SetRunEndReasonIfAbsent` | tailtriage-core/src/collector.rs:550-558 | sets the end reason only while open and only once |
| `Capture.Tailtriage.OldestPending` | tailtriage-core/src/collector.rs:510-519 | the sample is the requests of the smallest pending keys, in key order |
| `Capture.Tailtriage.BeginShutdown` | tailtriage-core/src/collector.rs:487-536 | which of wait, replay, refusal and win a caller gets, and the whole state after it |
| `Capture.Tailtriage.FinishShutdown` | tailtriage-core/src/collector.rs:538-548 | the phase closes with the sink's outcome and the winner returns it |
| `Capture.InflightGuard.Drop` | tailtriage-core/src/timers.rs:26-74 | a disabled guard changes nothing; an enabled one performs exactly one release |
| `Capture.RequestCompletion.Finish` | tailtriage-core/src/collector.rs:924-932 | resolves the armed key once; a second finish changes nothing |
| `Capture.RequestCompletion.Drop` | tailtriage-core/src/collector.rs:1063-1072 | resolves an armed token as cancelled; a finished one changes nothing |
| `Capture.ArmedTimerRecord.Ready` | tailtriage-core/src/timers.rs:176-215 | records one completed event and disarms, or nothing when already disarmed |
| `Capture.ArmedTimerRecord.Drop` | tailtriage-core/src/timers.rs:103-150 | records one partial event and disarms, or nothing when already disarmed; a partial stage is never a success; the listener call owed is made |
| `Collector.OldestKeysAreOldest` | tailtriage-core/src/collector.rs:510-519 | the selected keys ascend, are as many as possible, and every key left out is larger than all of them |
| `Collector.StartKeepsInv` | tailtriage-core/src/collector.rs:792-807 | admission keeps every capacity bound and the agreement of the flags |
| `Collector.ResolveNeverDrops` | tailtriage-core/src/collector.rs:739-762 | resolving a pending key always retains the event, removes the key and owes no call |
| `Collector.OpenGuardKeepsInv` | tailtriage-core/src/collector.rs:590-650 | opening a guard keeps the gauge limit, non-zero counts and the agreement of the flags |
| `Collector.DropGuardKeepsInv` | tailtriage-core/src/timers.rs:26-74 | dropping a guard on a counted gauge passes both early returns and keeps the invariant |
| `Collector.FinalizeKeepsInv` | tailtriage-core/src/collector.rs:503-536 | finalization keeps the invariant of the locked state |
| `CaptureProtocol.Always` | tailtriage-core/src/collector.rs:487-814 | every world reachable by any interleaving of any number of threads satisfies the whole invariant |
| `CaptureProtocol.AdmissionReservesAndConserves` | tailtriage-core/src/collector.rs:739-814 | retained plus pending never exceeds the limit, every taken token resolves into a retained event, and starts offered while open are retained, pending, refused or counted as unfinished |
| `CaptureProtocol.CompletionsRecordOnce` | tailtriage-core/src/collector.rs:924-932 | retained requests are the recorded completions in order, no key is recorded twice, and a recorded key has no token left |
| `CaptureProtocol.TimersOfferOnce` | tailtriage-core/src/timers.rs:163-368 | retained stages and queues are the first N of the events of a log, in order; the steps each logged timer took in the run are exactly: opened while admitted, polled at the event's start, then ready (completed) or dropped (partial), then recorded; no timer is logged twice, and a timer is logged if and only if it recorded while capture was open |
| `CaptureProtocol.TimerTellsItsStory` | tailtriage-core/src/timers.rs:163-368 | for every run the state of a timer determines exactly the steps it took and their order: refused, never polled, polled, ended, abandoned or recorded once |
| `CaptureProtocol.CompletedMeansReady` | tailtriage-core/src/timers.rs:103-215 | a logged event is completed if and only if its timer became ready somewhere in the run, at that end and with that success, and partial if and only if the timer was dropped, at that end |
| `CaptureProtocol.CountsAgreeWithGuards` | tailtriage-core/src/collector.rs:590-650 | while open a gauge's count is the number of live guards on it, no count is zero, the gauges fit the limit, and both early returns of the drop are unreachable |
| `CaptureProtocol.TruncationIsCoherent` | tailtriage-core/src/collector.rs:143-154 | run flag, atomic flag and drop counters agree with what was lost; owed plus made listener calls are one exactly when something was dropped; each section is the first-N prefix of what was offered and its counter the exact rest |
| `CaptureProtocol.ShutdownWritesOnce` | tailtriage-core/src/collector.rs:487-548 | the sink gets at most one run, the normalization of the finalized run; nobody but a refused caller returns before the collector is closed; after a success every other caller returns normally; after a failure with message m the winner returns the sink error m and every other caller the sink error `prior tailtriage sink attempt failed: m`; only strict capture refuses, and only over unfinished requests |
| `CaptureProtocol.FinalizationIsFinal` | tailtriage-core/src/collector.rs:487-548 | along any continuation the phase only moves forward and the run never changes once capture is no longer open |
| `CaptureProtocol.StrictRefusalIsInvisible` | tailtriage-core/src/collector.rs:503-508 | every run that goes on after a strict refusal would have gone the same way without it, to the same world but for the refused caller's answer |
| `CaptureProtocol.StrictFinalizesComplete` | tailtriage-core/src/collector.rs:503-508 | strict capture never finalizes over an unfinished request: once it left open, every start offered while open was retained or refused at admission |
| `CaptureProtocol.WaitersCanReturn` | tailtriage-core/src/collector.rs:489-501 | from any world meeting the shutdown invariant at most three shutdown steps let a waiting caller return: normally after a success, and with the winner's message as that of a prior attempt after a failure |
| `CaptureHistories.CompletionsComeFromSteps` | tailtriage-core/src/collector.rs:739-932 | every retained request is one start of the run that was admitted, taken once and resolved, in those three steps; id, route, kind and start are the start's, end, duration and outcome label those its token was taken with; different retained requests are different starts |
| `CaptureHistories.KeyTellsItsStory` | tailtriage-core/src/collector.rs:775-932 | the n-th key belongs to the n-th start, and whoever holds a key holds what that start drew and has taken exactly the steps that lead there |
| `CaptureHistories.AdmissionIsTight` | tailtriage-core/src/collector.rs:792-807 | a start is refused only when the limit is used up: if any was refused, retained and pending, or afterwards retained and unfinished, requests add up to the limit exactly |
| `CaptureHistories.GuardsTell` | tailtriage-core/src/collector.rs:590-650 | at any time in any run a guard is refused exactly when capture is not open or its gauge is held by nobody while the allowed number of gauges is held, and every transition shows its gauge, its clock sample and the number of guards then held on that gauge |
| `CaptureHistories.FinalizedByTheWinner` | tailtriage-core/src/collector.rs:503-536 | once capture is not open, one shutdown call of the run won it: the run is what had been captured then, with that call's time, the first end reason or `Shutdown`, one warning, the count and the oldest five of the requests pending then; strict capture had none pending |
| `CaptureHistories.EndReasonIsTheFirstGiven` | tailtriage-core/src/collector.rs:550-558 | while capture is open the end reason is the first one the run's steps gave, and none before |
| `CaptureHistories.StagesShowTimers` | tailtriage-core/src/timers.rs:103-289 | each stage offer of the log is one stage event, in order, with the ids, start, end, duration, completion and success of its timer |
| `CaptureHistories.QueuesShowTimers` | tailtriage-core/src/timers.rs:218-368 | the same for queue events, with the depth at the start |
| `CaptureProtocol.FirstEndReasonWins` | tailtriage-core/src/collector.rs:520-534 | over whole runs the first end reason is never replaced, and a run that left open has an end reason and a finalization time |
| `CaptureProtocol.FinalizationReportsTheOldest` | tailtriage-core/src/collector.rs:510-532 | finalization reports the number of unfinished requests and the oldest five of them, oldest first |
| `Normalization.RetainRequests` | tailtriage-core/src/validation.rs:511-559 | keeps, cleared, exactly the valid requests whose id no other valid request has |
| `Normalization.BuildParentStates` | tailtriage-core/src/validation.rs:685-717 | the state of every request id: ambiguous, uniquely retained with its interval, or excluded only |
| `Normalization.ChildPolicy` | tailtriage-core/src/validation.rs:728-788 | a child is kept exactly when one valid request has its id and contains its interval where both are precise |
| `Normalization.NormalizeRunPermissive` | tailtriage-core/src/validation.rs:455-673 | the run computed pass by pass is the declared normalization |
| `NormalizationLaws.RequestsExactly` | tailtriage-core/src/validation.rs:511-559 | a request survives if and only if its id, route and outcome have text, it does not end before it starts, and no other such request has its id; survivors keep their order |
| `NormalizationLaws.ChildrenExactly` | tailtriage-core/src/validation.rs:562-788 | a stage or queue event survives if and only if it is sound itself, exactly one sound request has its id, and that request contains it where both have coherent offsets |
| `NormalizationLaws.OffsetsExactly` | tailtriage-core/src/validation.rs:993-1026 | offsets stay if and only if both are there, in order and no more than 2000 us from the duration apart; otherwise both are cleared |
| `NormalizationLaws.NormalizeExactly` | tailtriage-core/src/validation.rs:455-673 | the whole run: surviving events in order and repaired, samples of named gauges, zero worker counts cleared, metadata and truncation untouched |
| `NormalizationLaws.WhiteSpaceExactly` | tailtriage-core/src/validation.rs:813-832 | the 25 characters that count as white space |
| `Normalization.RequestIdsUnique` | tailtriage-core/src/validation.rs:511-559 | retained request ids are unique |
| `Normalization.ParentStays` | tailtriage-core/src/validation.rs:685-788 | a child kept among the input requests is kept, with the same parent interval, among the retained ones |
| `Normalization.NormalizeIsIdempotent` | tailtriage-core/src/validation.rs:239-241 | normalizing a normalized run changes nothing |
| `Normalization.NormalizeMeetsPreconditions` | tailtriage-core/src/validation.rs:207-241 | a normalized run has unique request ids, no inverted offsets, only children of retained requests, and no zero worker count |
| `Normalization.NormalMeansKeptAsIs` | tailtriage-core/src/validation.rs:455-673 | a run is one the analyzer can receive if and only if its ids are unique and every event is valid, kept and needs no offset or worker count cleared |
| `Normalization.SliceStaysNormalized` | tailtriage-analyzer/src/slicing.rs:101-123 | normalizing a slice of a normalized run leaves its requests, stages and queues as they are |
| `Normalization.ToleranceBoundsLoss` | tailtriage-core/src/validation.rs:10-11 | in a normalized run, observing partial waits lowers a request's wait by at most the tolerance per completed wait |
| `Attribution.AttributedElapsedDuration` | tailtriage-analyzer/src/attribution.rs:19-73 | without gaps the result is the number of distinct covered microseconds, cut off at the cap; with a gap it is the exact sum of durations, cut off at the cap |
| `ShareLaws.AttributionExactly` | tailtriage-analyzer/src/attribution.rs:19-73 | with an event lacking its interval the capped sum of durations, otherwise the capped number of microseconds inside some event's interval |
| `Attribution.MergeSorted` | tailtriage-analyzer/src/attribution.rs:48-67 | the sort-and-merge loop counts the union of the intervals exactly; no saturating operation saturates |
| `Attribution.PreciseIgnoresOrderAndRepetition` | tailtriage-analyzer/src/attribution.rs:41-69 | a precise attribution depends only on which events occur, not on order or repetition |
| `Attribution.AttributionIgnoresOrder` | tailtriage-analyzer/src/attribution.rs:19-73 | in either mode a permutation of the events gives the same attribution |
| `Attribution.PreciseMonotone` | tailtriage-analyzer/src/attribution.rs:41-69 | adding intervals never lowers a precise attribution |
| `Attribution.ObservedDominates` | tailtriage-analyzer/src/attribution.rs:31-39 | adding events never lowers an attribution unless the switch to durations falls short of the union |
| `Attribution.DominationCondition` | tailtriage-analyzer/src/attribution.rs:31-39 | no partial event can lower an attribution if and only if the completed events have a gap or their durations add up to the capped union |
| `Attribution.DominationCanFail` | tailtriage-analyzer/src/attribution.rs:31-39 | whatever the cap up to a machine word, a wait of interval 100 us recorded as 0 us attributes min(100, cap) alone and 0 us beside an interval-less partial event |
| `Attribution.LengthsBoundUnion` | tailtriage-analyzer/src/attribution.rs:41-69 | a union is at most the durations plus the slack by which intervals may exceed them |
| `Attribution.ObservedLossBounded` | tailtriage-analyzer/src/attribution.rs:31-39 | with such a slack, adding events lowers an attribution by at most the slack of each completed event |
| `Percentiles.PercentileIsRank` | tailtriage-analyzer/src/lib.rs:905-930 | the percentile is the one value with at most `index` values below it and more than `index` at or below it: a definition without sorting |
| `Percentiles.PercentileIsNearestRank` | tailtriage-analyzer/src/lib.rs:905-930 | the percentile is the value of the rank i with (i-1)*denominator < (n-1)*numerator <= i*denominator: the rank is rounded up |
| `Percentiles.CountIsSize` | tailtriage-analyzer/src/lib.rs:905-930 | ranks count positions: the values below, or at or below, the given one |
| `Percentiles.TailIsSmall` | tailtriage-analyzer/src/lib.rs:905-930 | at most (n-1)/20 values lie above the p95 |
| `Percentiles.PercentileEnds` | tailtriage-analyzer/src/lib.rs:905-930 | the last percentile is the largest value and the first the smallest |
| `Percentiles.PercentileIsElement` | tailtriage-analyzer/src/lib.rs:905-930 | a percentile of a non-empty list exists and is one of its values |
| `Percentiles.PercentileIgnoresOrder` | tailtriage-analyzer/src/lib.rs:905-930 | a permutation has the same percentiles |
| `Percentiles.PercentilePointwise` | tailtriage-analyzer/src/lib.rs:916-930 | order statistics of pointwise ordered lists are ordered |
| `Percentiles.PercentileMonotone` | tailtriage-analyzer/src/lib.rs:451-453 | a higher percentile is never lower: p50 <= p95 <= p99 |
| `Percentiles.TailSize` | tailtriage-analyzer/src/stage_attribution.rs:38-43 | at least 1 + (n-1)/20 values reach the p95 |
| `TimeShares.GroupByRequest` | tailtriage-analyzer/src/lib.rs:678-697 | the two maps hold, per request id, its completed and its observed waits in recorded order |
| `TimeShares.ComputeRequestTimeShares` | tailtriage-analyzer/src/lib.rs:677-735 | the three series hold one permille share per request of non-zero latency, from completed, from observed and from remaining time |
| `ShareLaws.SharesExactly` | tailtriage-analyzer/src/lib.rs:677-735 | the k-th entries belong to the k-th request that took time: the share of its completed wait, of its observed wait, and of what its completed wait leaves |
| `ShareLaws.InputsAreWaits` | tailtriage-analyzer/src/lib.rs:683-697 | a request's waits are the queue events under its id, the completed ones or all, in order, each with its duration and, where both ends have an offset, its interval |
| `ShareLaws.ShareIsQuotient` | tailtriage-analyzer/src/lib.rs:718-725 | a share is the number of whole thousandths the part is of the whole |
| `ShareLaws.ServiceComplementsQueue` | tailtriage-analyzer/src/lib.rs:718-725 | each request's completed queue share and service share make up 1000, or 999 by rounding |
| `TimeShares.SharesSplitLatency` | tailtriage-analyzer/src/lib.rs:718-725 | queue and service share of a request add up to at most 1000, to at least 999 unless a product saturates, and to 1000 exactly when the division leaves no rest |
| `TimeShares.SharesIgnoreQueueOrder` | tailtriage-analyzer/src/lib.rs:683-697 | the shares do not depend on the order of the queue events |
| `TimeShares.ObservedSharesDominate` | tailtriage-analyzer/src/lib.rs:700-725 | where no switch loses, every observed share is at least the completed share of the same request |
| `TimeShares.ObservedP95Dominates` | tailtriage-analyzer/src/lib.rs:460 | where no switch loses, the observed p95 share exists exactly when the completed one does and is at least as large |
| `TimeShares.WaitsDominatedExactly` | tailtriage-analyzer/src/lib.rs:700-716 | whatever partial events join, no request's observed wait falls below its completed wait, if and only if each request's completed durations add up to its union or already have a gap |
| `LowerBounds.WaitsDominatedInNormalRuns` | tailtriage-analyzer/src/lib.rs:700-716 | over all runs the analyzer can receive that extend a completed one by partial waits, no observed wait falls below its completed wait, if and only if each request's completed durations add up to its union or already have a gap |
| `LowerBounds.ObservedFallsBelowCompleted` | tailtriage-analyzer/src/lib.rs:700-716 | a run the analyzer can receive whose completed p95 share is 1000 and whose observed one is 0, so that with any trigger from 1 to 1000 the completed queue candidate exists and the observed one does not |
| `LowerBounds.PartsDominatedInNormalRuns` | tailtriage-analyzer/src/stage_attribution.rs:109-157 | the same if-and-only-if for a stage: over all runs the analyzer can receive that extend a completed one by partial stage events, no request's observed part falls below its completed part |
| `TimeShares.FaithfulDurationsNeverLose` | tailtriage-analyzer/src/lib.rs:737-742 | durations no shorter than their intervals imply that no switch loses |
| `TimeShares.WaitLossBounded` | tailtriage-analyzer/src/lib.rs:700-716 | with a slack per event, observing lowers a request's wait by at most the slack of its completed waits |
| `TimeShares.NoPartialNoDifference` | tailtriage-analyzer/src/lib.rs:677-735 | without partial events the completed and the observed series coincide |
| `StageAttribution.RequestContexts` | tailtriage-analyzer/src/stage_attribution.rs:30-54 | contexts with the last request of an id winning, and the saturating totals over all requests and over the tail |
| `StageAttribution.GroupStages` | tailtriage-analyzer/src/stage_attribution.rs:77-106 | per stage name and basis, each request's inputs in recorded order, and the exact number of partial events; unknown requests are skipped |
| `StageAttribution.Summarize` | tailtriage-analyzer/src/stage_attribution.rs:115-155 | visiting a group's hash map in any order gives the one summary of the group |
| `StageAttribution.DualStageSummaries` | tailtriage-analyzer/src/stage_attribution.rs:73-162 | both summaries of every stage, ordered by stage name |
| `ShareLaws.ContextsExactly` | tailtriage-analyzer/src/stage_attribution.rs:30-54 | an id has a context exactly when a request has it; the last such request gives the latency and whether it is in the tail |
| `ShareLaws.TotalsExactly` | tailtriage-analyzer/src/stage_attribution.rs:30-54 | the denominators are the sums of all latencies and of those no lower than the p95, cut off at the machine word |
| `ShareLaws.InputsAreStages` | tailtriage-analyzer/src/stage_attribution.rs:77-106 | a request's inputs to a stage are the events of that stage under its id, if the request is known, the completed ones or all, in order |
| `ShareLaws.SummaryExactly` | tailtriage-analyzer/src/stage_attribution.rs:109-157 | over any list of the requests with an event of the stage: how many they are, the p95 and the sums of what the stage takes of each, over all and over the tail, the shares, and the number of partial events |
| `ShareLaws.PermilleIsQuotient` | tailtriage-analyzer/src/stage_attribution.rs:132-153 | a summary's share is the number of whole thousandths, and zero of a zero total |
| `ShareLaws.SummariesExactly` | tailtriage-analyzer/src/stage_attribution.rs:73-162 | a completed and an observed summary, in that order, of every stage some known request has an event of, and of no other, by name |
| `StageAttribution.SummaryIgnoresVisitingOrder` | tailtriage-analyzer/src/stage_attribution.rs:118-137 | two enumerations of a group's requests give the same summary |
| `StageAttribution.DualSummariesIgnoreEventOrder` | tailtriage-analyzer/src/stage_attribution.rs:73-162 | stage events in any order give the same list of summaries |
| `StageAttribution.DistinctIdsFit` | tailtriage-analyzer/src/stage_attribution.rs:30-54 | the latencies of distinct ids, as their last requests give them, add up to at most the latencies of all requests |
| `StageAttribution.SharesBounded` | tailtriage-analyzer/src/stage_attribution.rs:132-153 | cumulative and tail share are at most 1000 permille for every run, even with duplicate ids or saturated totals, and every total is the exact sum cut off at the machine word |
| `StageAttribution.TailTotalZero` | tailtriage-analyzer/src/stage_attribution.rs:38-43 | the tail denominator is zero if and only if every request latency is zero |
| `StageAttribution.ObservedSummaryDominates` | tailtriage-analyzer/src/stage_attribution.rs:109-157 | where no switch loses, a stage's observed summary has at least the samples, totals and shares of its completed summary |
| `StageAttribution.NoPartialNoDifferenceInSummary` | tailtriage-analyzer/src/stage_attribution.rs:109-157 | a stage without partial events has the same observed summary as completed summary |
| `Inflight.PositionsOnlyBreakTies` | tailtriage-analyzer/src/lib.rs:798-804 | sorting by time and position is sorting stably by time |
| `Inflight.LatestBlockExists` | tailtriage-analyzer/src/lib.rs:806-820 | there is a last maximal block of positive counts if and only if some count is positive |
| `Inflight.LatestEpisode` | tailtriage-analyzer/src/lib.rs:806-820 | the one-pass loop returns the last maximal block of positive counts with the zero that closes it, if any |
| `Inflight.InflightTrendForGauge` | tailtriage-analyzer/src/lib.rs:790-861 | the candidate of a gauge is read off the latest episode of its time-ordered samples |
| `InflightLaws.TrendTells` | tailtriage-analyzer/src/lib.rs:790-861 | a trend is read off the last stretch of positive counts with its closing zero, in time order: activity, samples, peak and p95 count; growth is exactly last minus first count, cut off only beyond a signed word; the rate is that growth times 10^9 over the elapsed microseconds, truncated and clamped, and missing exactly without elapsed run-relative time |
| `InflightLaws.DominantIsPreferred` | tailtriage-analyzer/src/lib.rs:863-895 | the dominant gauge is preferred to every other: active first, then growing, then larger growth, larger positive rate, larger p95, larger peak, smaller name |
| `InflightLaws.LargerGrowthIsNotBeaten` | tailtriage-analyzer/src/lib.rs:863-903 | an active gauge whose last count exceeds its first by more than another's, within a signed word, is not dominated by that other |
| `Inflight.GrowthMeansActive` | tailtriage-analyzer/src/lib.rs:790-861 | positive growth implies the gauge is still active; a closed episode has shrunk |
| `Inflight.ActiveMeansLastPositive` | tailtriage-analyzer/src/lib.rs:790-861 | a gauge has a candidate if and only if some count is positive, and is active if and only if its last sample in time is positive |
| `Inflight.RateMissesOnlyZeroElapsed` | tailtriage-analyzer/src/lib.rs:830-847 | for run-relative samples the rate is missing only when no time passed: the two other checks never fire |
| `Inflight.CompareIsLexicographic` | tailtriage-analyzer/src/lib.rs:863-895 | the comparator with its conditional steps is the lexicographic order on keys, then the smaller gauge name |
| `Inflight.CompareIsTotalOrder` | tailtriage-analyzer/src/lib.rs:863-895 | the comparator is total and transitive, and candidates of different gauges never tie |
| `Inflight.DominantInflightCandidate` | tailtriage-analyzer/src/lib.rs:775-788 | the returned candidate is one no gauge's candidate exceeds; none is returned only when no gauge has one |
| `Inflight.DominantUnique` | tailtriage-analyzer/src/lib.rs:775-788 | there is one dominant candidate |
| `Inflight.DominantIgnoresInterleaving` | tailtriage-analyzer/src/lib.rs:775-788 | runs with the same samples per gauge have the same dominant candidate, however the gauges interleave |
| `Scoring.QueueScoreMonotone` | tailtriage-analyzer/src/scoring.rs:235-256 | more share or more depth never lowers the queue score, across the clean-extreme cap switch |
| `ScoreLaws.QueueCandidateExactly` | tailtriage-analyzer/src/scoring.rs:198-330 | a queue candidate exists if and only if its p95 share reaches the trigger; its score is made of that share, the deepest depth, growth and the number of shares, above 95 only on clean extreme evidence |
| `ScoreLaws.DeepestIsMaximum` | tailtriage-analyzer/src/scoring.rs:302-330 | the depth used is the largest recorded with a wait of the representation, or zero |
| `ScoreLaws.QueueChoiceExactly` | tailtriage-analyzer/src/scoring.rs:187-196 | the completed candidate is taken unless there is none or the observed one scores higher |
| `ScoreLaws.BlockingSuspectExactly` | tailtriage-analyzer/src/scoring.rs:349-425 | a blocking suspect exists if and only if a blocking depth was sampled and its p95 is positive or enough samples are not zero; its score from p95, peak, share of non-zero samples and sample count, above 94 only on clean extreme evidence |
| `ScoreLaws.BlockingScoreMonotone` | tailtriage-analyzer/src/scoring.rs:394-409 | more p95, peak, non-zero share or samples never lower the blocking score, across the cap switch |
| `ScoreLaws.ExecutorSuspectExactly` | tailtriage-analyzer/src/scoring.rs:427-592 | an executor suspect exists if and only if a worker status is known and the global p95, or with complete workers the per-worker p95, reaches its minimum; its limitation is none, missing local depth or ambiguous workers exactly as the status says |
| `ScoreLaws.NormalizedExecutorScore` | tailtriage-analyzer/src/scoring.rs:459-480 | with complete workers the score is 34 plus one of six bands of the per-worker p95, growth and the sample bonus, cut off at 100 |
| `ScoreLaws.AbsoluteExecutorScore` | tailtriage-analyzer/src/scoring.rs:433-447 | otherwise the score is 34 plus capped parts of the global, local and alive p95, growth and the sample bonus, above 94 only with a global p95 of 140 over 30 samples |
| `ScoreLaws.AbsoluteExecutorScoreMonotone` | tailtriage-analyzer/src/scoring.rs:433-592 | a rise of global, local or alive p95, samples or growth keeps the suspect and never lowers its score, across the soft cap |
| `ScoreLaws.NormalizedExecutorScoreMonotone` | tailtriage-analyzer/src/scoring.rs:459-592 | the same for the per-worker p95, samples and growth |
| `ScoreLaws.PerWorkerIsQuotient` | tailtriage-analyzer/src/scoring.rs:117-121 | runnable tasks per worker are counted in whole thousandths, a missing local depth as zero |
| `ScoreLaws.SeriesHoldsReadings` | tailtriage-analyzer/src/lib.rs:744-749 | a series holds the reading of every snapshot that has one, in order |
| `ScoreLaws.WorkerStatusExactly` | tailtriage-analyzer/src/scoring.rs:78-115 | the status told by the snapshots with a global depth: none, a zero named, no count named, two that disagree, some silent, or one count named by all |
| `ScoreLaws.BestStageExactly` | tailtriage-analyzer/src/scoring.rs:621-645 | the chosen stage has the highest score, then the largest tail share, then the largest cumulative share, then a completed representation, then the first name |
| `ScoreLaws.StageScoreExactly` | tailtriage-analyzer/src/scoring.rs:672-686 | a stage scores its tail and cumulative shares and its samples, above 95 only on clean extreme evidence |
| `ScoreLaws.DownstreamSuspectExactly` | tailtriage-analyzer/src/scoring.rs:716-799 | the downstream suspect is the best stage with its own score, unless that stage is correlated and the blocking depths are strong: then at most the blocking score less the margin |
| `Scoring.StageCandidatesHold` | tailtriage-analyzer/src/scoring.rs:663-689 | the candidates are exactly the summaries with enough samples, each with its own score |
| `Scoring.ObservedScoreDominates` | tailtriage-analyzer/src/scoring.rs:151-300 | where no switch loses, the observed queue candidate exists whenever the completed one does and scores at least as high |
| `Scoring.CompletedIsSelectedOnTie` | tailtriage-analyzer/src/scoring.rs:187-196 | the choice is Completed if and only if that candidate exists and the observed one does not score higher; where no switch loses, if and only if it exists and the scores tie |
| `Scoring.LowerBoundQueueNeedsPartial` | tailtriage-analyzer/src/scoring.rs:187-196 | a lower-bound queue suspect implies a partial queue event |
| `Scoring.ClassifyWorkerEvidence` | tailtriage-analyzer/src/scoring.rs:78-115 | which of the six statuses the snapshots with a global depth give, by the set of worker counts they name |
| `Scoring.PerWorkerMonotone` | tailtriage-analyzer/src/scoring.rs:117-121 | more runnable tasks or fewer workers never lower the normalized queue depth |
| `Scoring.PerWorkerScales` | tailtriage-analyzer/src/scoring.rs:117-121 | scaling tasks and workers together leaves the normalized queue depth as it is |
| `Scoring.CompareStagesOrder` | tailtriage-analyzer/src/scoring.rs:624-644 | the stage comparator is reflexive, asymmetric and transitive |
| `Scoring.BestStageIsBest` | tailtriage-analyzer/src/scoring.rs:623-645 | `max_by` returns a candidate no other exceeds |
| `Scoring.DownstreamStageCandidates` | tailtriage-analyzer/src/scoring.rs:663-689 | one scored candidate per summary with enough samples, in order |
| `Scoring.ComputeDownstreamSuspect` | tailtriage-analyzer/src/scoring.rs:716-775 | the downstream suspect of a run, whatever order its hash maps are visited in |
| `Scoring.LowerBoundStageNeedsPartial` | tailtriage-analyzer/src/scoring.rs:621-645 | a lower-bound downstream choice implies a partial event of the chosen stage on a known request |
| `Scoring.StageScoreMonotone` | tailtriage-analyzer/src/scoring.rs:672-686 | more share or more samples never lower the stage score, across the clean-extreme cap switch |
| `Scoring.CompletedStageIsSelectedOnTie` | tailtriage-analyzer/src/scoring.rs:621-645 | where no switch loses, a completed representation is chosen only when the observed one of the same stage ties with it in score and in both shares |
| `Scoring.CorrelatedStageYields` | tailtriage-analyzer/src/scoring.rs:777-799 | a blocking-correlated stage scores at least the margin below strong blocking evidence |
| `Evidence.StrongQualityMeans` | tailtriage-analyzer/src/evidence.rs:80-120 | Strong if and only if there are enough requests, nothing was dropped, queue or stage events exist, none is partial and no depth is missing throughout; Weak if and only if the request section is not present or nothing explains it |
| `Evidence.SectionStatuses` | tailtriage-analyzer/src/evidence.rs:144-190 | each section's status on its events: truncated when any was dropped, missing when empty, partial when an event is partial or a depth never sampled or requests are few, present otherwise |
| `ConfidenceCaps.AmbiguityClusterIndices` | tailtriage-analyzer/src/confidence.rs:194-224 | the cluster is empty or exactly the (at least two) real suspects above the minimum that no real suspect beats by more than the gap |
| `ConfidenceLaws.ClusterIsRivals` | tailtriage-analyzer/src/confidence.rs:194-224 | a suspect is in the cluster exactly when it and another score the minimum and neither is further than the gap below any real suspect |
| `ConfidenceLaws.FinalConfidenceExactly` | tailtriage-analyzer/src/confidence.rs:33-191 | the final confidence: High if and only if the score reaches it and no reason holds it down, Low if and only if the score is below both thresholds or a real suspect has no requests |
| `ConfidenceLaws.NotesExactly` | tailtriage-analyzer/src/confidence.rs:62-191 | which notes a suspect ends with: every note that speaks, once, when its confidence was lowered or the note concerns the cluster, lower bounds or executor limits; none otherwise |
| `ConfidenceCaps.AmbiguityWarning` | tailtriage-analyzer/src/lib.rs:597-612 | the warning fires if and only if the list it reads has a cluster |
| `ConfidenceCaps.ApplyFamilyEvidenceCaps` | tailtriage-analyzer/src/confidence.rs:121-191 | the cap falls to Medium exactly for a family reason, and which notes are added in which order |
| `ConfidenceCaps.CapOne` | tailtriage-analyzer/src/confidence.rs:62-117 | the step-by-step caps give the declared cap, and notes are kept exactly when a cap, the cluster, partial evidence or an executor limitation speaks |
| `ConfidenceCaps.ApplyEvidenceAwareConfidenceCaps` | tailtriage-analyzer/src/confidence.rs:33-118 | the array in place holds every suspect capped with its own cluster membership, computed before any cap |
| `Analysis.FinalizeScoredSuspects` | tailtriage-analyzer/src/lib.rs:545-595 | re-scored, capped and sorted: the returned list is the declared ranking and in rank order |
| `Analysis.FinalsAre` | tailtriage-analyzer/src/lib.rs:545-563 | caps leave kind, score and basis alone, never raise a confidence, and leave no cluster member High |
| `Analysis.RankedInOrder` | tailtriage-analyzer/src/lib.rs:565-595 | the returned list puts real suspects before the fallback, the more confident first, at equal confidence the higher score, and at equal score queue, blocking, executor, downstream |
| `Analysis.PrimaryIsBest` | tailtriage-analyzer/src/lib.rs:565-595 | the first suspect scores highest among the most confident, and is the fallback only when there is no other |
| `ConfidenceLaws.CandidatesExactly` | tailtriage-analyzer/src/candidate.rs:17-48 | the candidates are the suspects the four families have, in family order; only without any, insufficient evidence with a score of 50 |
| `Analysis.RankingIsUnique` | tailtriage-analyzer/src/lib.rs:565-595 | the ranking is the only sorted permutation of the family-distinct capped candidates |
| `Analysis.WarningMeansCluster` | tailtriage-analyzer/src/lib.rs:597-612 | the ranked list has a cluster if and only if capping found one |
| `Analysis.AnalyzeRun` | tailtriage-analyzer/src/lib.rs:440-543 | the whole pipeline: ranked suspects of the run's candidates, the dominant gauge, and the ambiguity flag; the list is in rank order |
| `Analysis.CandidatesAreDistinctFamilies` | tailtriage-analyzer/src/candidate.rs:17-48 | there is always a candidate, at most one per family, and each is its family's own choice |
| `Analysis.CandidatesIgnoreEventOrder` | tailtriage-analyzer/src/lib.rs:440-512 | the candidates do not depend on the order in which queue and stage events were appended, even with duplicate request ids |
| `OrderFree.NormalizePermutes` | tailtriage-core/src/validation.rs:455-673 | runs with the same events in another order, section by section, normalize to runs with the same events: neither parents nor ambiguous ids depend on the order of the requests |
| `OrderFree.WorkerEvidenceIgnoresOrder` | tailtriage-analyzer/src/scoring.rs:78-115 | permuted runtime snapshots have one worker status |
| `OrderFree.CandidatesIgnoreOrder` | tailtriage-analyzer/src/lib.rs:440-512 | with unique ids the candidates do not depend on the order of requests, stages, queue events or runtime snapshots |
| `OrderFree.AnalysisIgnoresOrder` | tailtriage-analyzer/src/lib.rs:387-563 | any two runs with the same events in another order, requests and runtime snapshots included, get the same worker status, dominant gauge and ranked suspects with their scores, confidences and notes, provided each gauge kept its samples in order or its clock orders them |
| `OrderFree.TiedSamplesMatter` | tailtriage-analyzer/src/lib.rs:798-820 | the proviso is needed: two samples of one gauge at one time, 1 and 0, leave it inactive in one order and active in the other |
| `Analysis.LowerBoundNeedsPartial` | tailtriage-analyzer/src/scoring.rs:187-196 | a suspect resting on a lower bound is a queue or downstream suspect whose family has a partial event in the run |
| `Analysis.QueueSuspectWithoutEvents` | tailtriage-analyzer/src/scoring.rs:217-233 | without queue events a queue suspect exists if and only if the trigger is zero and some request took time |
| `Analysis.QueueScoreWithoutEvents` | tailtriage-analyzer/src/scoring.rs:235-256 | without queue events a queue suspect scores 22 plus the growth bonus plus the sample-quality bonus: at most 35 |
| `Analysis.StrongEvidenceCapsOnly` | tailtriage-analyzer/src/confidence.rs:33-191 | with strong evidence, a suspect outside the cluster and without an executor limitation ends below its score-derived confidence if and only if it is the queue suspect, there are no queue events, the trigger is zero, some request took time, and 22 plus the two bonuses reaches the high threshold |
| `Analysis.StrongRunIsCappedExactly` | tailtriage-analyzer/src/confidence.rs:33-191 | the same for a whole run: some such suspect is lowered if and only if that condition on run and options holds and the queue suspect is outside the cluster |
| `Analysis.EventlessQueueIsLowered` | tailtriage-analyzer/src/confidence.rs:33-191 | that condition with a cluster minimum above those few points is enough for the first candidate to be lowered |
| `EndToEnd.StrongRunCanBeCapped` | tailtriage-analyzer/src/confidence.rs:143-148 | a run the analyzer can receive, with strong evidence, one completed stage and no queue event, on which trigger 0 and high threshold 20 lower the queue suspect from High |
| `Analysis.StrongEvidenceKeepsConfidence` | tailtriage-analyzer/src/confidence.rs:33-191 | with strong evidence every suspect keeps its score-derived confidence unless it is in the cluster, carries an executor limitation, or is a queue suspect of a run without queue events |
| `Analysis.PositiveTriggerNeedsQueues` | tailtriage-analyzer/src/confidence.rs:143-148 | with a positive queue trigger the last exception cannot occur |
| `Slicing.RetainKeepsOrder` | tailtriage-analyzer/src/slicing.rs:138-143 | filtering keeps exactly the wanted positions, in order |
| `Slicing.RetainSplits` | tailtriage-analyzer/src/slicing.rs:138-143 | two filters of which each element passes exactly one split a list without loss |
| `TemporalLaws.SliceExactly` | tailtriage-analyzer/src/slicing.rs:130-186 | a slice keeps the requests, stages and queue events of the ids and the samples inside the window on the clock both have, ends included, each in order; nothing global without a window |
| `TemporalLaws.FallbackExactly` | tailtriage-analyzer/src/slicing.rs:178-186 | fallback concerns exactly the kept samples without a run-relative time under a window that has that range |
| `Slicing.RetainSample` | tailtriage-analyzer/src/slicing.rs:178-186 | kept if and only if in the window on the clock both have; fallback reported exactly for a kept sample without the window's clock |
| `Slicing.SliceRun` | tailtriage-analyzer/src/slicing.rs:130-176 | the sliced run, and the fallback flag exactly when some sample was kept by wall clock although the window has a run-relative range |
| `Temporal.SplitPartitions` | tailtriage-analyzer/src/temporal.rs:20-91 | early and late partition the requests with sizes n/2 and (n+1)/2, and no early request starts after a late one on the chosen clock |
| `TemporalLaws.SplitExactly` | tailtriage-analyzer/src/temporal.rs:20-91 | the halves in sequence are all requests ordered by run-relative start when every request has one and by wall clock otherwise, ties by wall clock and then id; an odd request goes to the late half |
| `Temporal.SplitIgnoresOrder` | tailtriage-analyzer/src/temporal.rs:20-36 | with unique ids the split does not depend on the order of the requests |
| `Temporal.SplitForSegments` | tailtriage-analyzer/src/temporal.rs:75-84 | the halves are produced exactly when the run and its smaller half are large enough |
| `Temporal.SegmentUnixWindow` | tailtriage-analyzer/src/temporal.rs:57-67 | the window is the tightest containing the segment on the wall clock; none only for an empty segment |
| `Temporal.SegmentRunRelativeWindow` | tailtriage-analyzer/src/temporal.rs:38-55 | the tightest run-relative window, missing exactly when the segment is empty or some request lacks a time |
| `Temporal.SliceRecoversSegment` | tailtriage-analyzer/src/slicing.rs:130-143 | slicing by a half's ids gives exactly that half's requests, which its own order arranges as the half |
| `Temporal.SlicesShareOutChildren` | tailtriage-analyzer/src/slicing.rs:138-143 | the two slices share out requests, stages and queues: none lost, none in both |
| `EndToEnd.WrittenRunIsReady` | tailtriage-core/src/collector.rs:1087-1097 | after any interleaving the run given to the sink meets the analyzer's preconditions and is unchanged by the analyzer's own normalization |
| `EndToEnd.CaptureLossIsNotStrong` | tailtriage-analyzer/src/evidence.rs:80-120 | evidence lost to a limit during capture is never rated strong |
| `EndToEnd.AnalyzeRunWithOptions` | tailtriage-analyzer/src/lib.rs:387-421 | for any run at all: the worker status of the run as captured, and the ranking, dominant gauge and ambiguity flag of its normalization |
| `EndToEnd.AnalyzeSlice` | tailtriage-analyzer/src/slicing.rs:101-123 | for any run and ids: the ranking of the normalized slice, no worker status without a window, and whether some sample was kept by wall clock although the window has a run-relative range |
| `PublicationOrder.BuildGraph` | scripts/check_release.py:75-89 | the graph of internal non-development dependencies, packages of one name pooled, and the disallowed requirements in order |
| `PublicationLaws.GraphExactly` | scripts/check_release.py:75-83 | an edge for exactly the listed non-development dependencies on packages of the workspace |
| `PublicationLaws.ProblemsExactly` | scripts/check_release.py:84-89 | a problem for exactly the listed edges whose requirement does not admit the version |
| `PublicationLaws.ProblemsInOrder` | scripts/check_release.py:79-89 | problems come in the order of the packages |
| `PublicationLaws.LayerIsLongestChain` | scripts/check_release.py:92-101 | a package is published in the round given by the longest chain of dependencies below it: no later and no earlier |
| `PublicationOrder.Layering` | scripts/check_release.py:90-101 | rounds until nothing is ready: the sorted layers in order, and what is left |
| `PublicationOrder.LayersUnique` | scripts/check_release.py:90-101 | the layered list is determined by the graph |
| `PublicationOrder.LayersAreTopological` | scripts/check_release.py:90-101 | each package is listed once, after everything it depends on |
| `PublicationOrder.LeftoverReachesCycle` | scripts/check_release.py:94-96 | what is left when nothing is ready is exactly what can reach a cycle |
| `PublicationOrder.ComputePublicationOrder` | scripts/check_release.py:74-102 | a cycle is reported, with the sorted stuck packages, if and only if the graph has one, and the order omits exactly the packages that can reach one |
| `RustLexer.RustLex` | scripts/validate_invariant_proofs.py:157-190 | the loop over the character list gives the declared result; at every loop head `line` is one more than the newlines before `i` |
| `LexerLaws.KindExactly` | scripts/validate_invariant_proofs.py:163-186 | which token starts where: two slashes, slash and star, `r` with hashes and a quotation mark, a quotation mark or a character literal, or code |
| `LexerLaws.BlockEndBalances` | scripts/validate_invariant_proofs.py:167-175 | a block comment ends where openers and closers first balance, or with the text |
| `LexerLaws.RawEndIsFirst` | scripts/validate_invariant_proofs.py:176-180 | a raw literal ends after the first quotation mark followed by its number of hashes, or with the text |
| `LexerLaws.QuoteEndIsFirst` | scripts/validate_invariant_proofs.py:181-187 | a quoted literal ends after the first quote that no backslash escapes |
| `LexerLaws.QuoteEndWithoutQuote` | scripts/validate_invariant_proofs.py:181-187 | without such a quote it runs to the end of the text or one past it |
| `RustLexer.OutputKeepsShape` | scripts/validate_invariant_proofs.py:160-162 | newlines stay in place and every other character is unchanged or blank |
| `RustLexer.VisibleIsCode` | scripts/validate_invariant_proofs.py:157-190 | what is not blank in the output is code of the text, unchanged |
| `RustLexer.LexIsIdempotent` | scripts/validate_invariant_proofs.py:157-190 | lexing the output again changes nothing, reports no comment and cannot fail |
| `RustLexer.FailsExactly` | scripts/validate_invariant_proofs.py:181-187 | the index error strikes if and only if the text ends in an odd number of backslashes inside a quoted literal |
| `RustLexer.FailsOnOpenEscape` | scripts/validate_invariant_proofs.py:181-187 | a quotation mark followed by a backslash is such a text |
| `RustLexer.CommentsAreReported` | scripts/validate_invariant_proofs.py:164-166 | every line comment is reported whole under its own line |
| `RustLexer.ReportsAreComments` | scripts/validate_invariant_proofs.py:164-166 | nothing but line comments is reported |
| `Machine.SatSumIsExactOrMax` | tailtriage-analyzer/src/stage_attribution.rs:36-43 | a fold of saturating additions is the exact sum cut off at the machine word |

## Left out

- Real clocks, UUIDs, host names and generated request ids: times are arguments and ids are given strings.
- Fewer than 2^64 guards are held at once and fewer than 2^64 pending keys are drawn, so neither the live count nor the sequence wraps in a reachable world.
- Panics in the sink, the listener or a guard's drop, and mutex poisoning: callbacks are taken to return.
- Replacing or clearing the limits-hit listener, the per-section saturation flags and sampler registration: each is one flag beside the protocol.
- The condition variable: a waiting caller is a state from which it may look at the phase again at any time; that the scheduler does wake it is not modelled.
- JSON, file sinks, the command line, middleware, tracing intake, Tokio sampling and the controller crate.
- Validation reports, issue codes, dispositions and lifecycle warning texts: only the normalized run is modelled.
- Run metadata other than the end reason, the finalization time and the unfinished requests.
- Evidence, next-check, warning and note texts: notes are kept as an enumeration, and the limitation and warning lists of the report are absent.
- Matching of stage names against the blocking-correlated patterns: the match is an option of the model, `correlates`.
- Route breakdowns and the materiality tests of temporal segments: single-branch comparisons of two reports.
- The choice of the fallback when no suspect survives is `Analysis.Fallback`; the second fallback of the report is unreachable because the ranking is never empty.
- Option validation, overrides and their textual forms.
- Cargo requirement matching in `scripts/check_release.py`: whether a requirement admits the version is given with the dependency.
- White space is the Unicode White_Space set; strings compare by character, which is the order of their UTF-8 bytes.
