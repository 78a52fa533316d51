/** How much the retained evidence of a run can support. */
module Evidence {
  import opened Machine
  import opened Events
  import opened Suspects

  datatype Status = Present | Missing | PartialSignal | Truncated

  datatype Quality = StrongQuality | PartialQuality | WeakQuality

  datatype CompletionCounts = CompletionCounts(completed: nat, partial: nat)
  {
    function Total(): nat { completed + partial }
  }

  function QueueCounts(queues: seq<QueueEvent>): CompletionCounts
  {
    if queues == [] then CompletionCounts(0, 0)
    else
      var c := QueueCounts(queues[..|queues| - 1]);
      if queues[|queues| - 1].completed then c.(completed := c.completed + 1) else c.(partial := c.partial + 1)
  }

  function StageCounts(stages: seq<StageEvent>): CompletionCounts
  {
    if stages == [] then CompletionCounts(0, 0)
    else
      var c := StageCounts(stages[..|stages| - 1]);
      if stages[|stages| - 1].completed then c.(completed := c.completed + 1) else c.(partial := c.partial + 1)
  }

  function FamilyStatus(total: nat, partial: nat, dropped: u64): Status
  {
    if dropped > 0 then Truncated else if total == 0 then Missing
    else if partial > 0 then PartialSignal else Present
  }

  /** Snapshots exist, but one of the three queue depths was never sampled. */
  predicate RuntimePartial(snapshots: seq<RuntimeSnapshot>): (b: bool)
    ensures b ==> snapshots != []
  {
    snapshots != []
    && ((forall x :: x in snapshots ==> x.blockingDepth.None?)
        || (forall x :: x in snapshots ==> x.localDepth.None?)
        || (forall x :: x in snapshots ==> x.globalDepth.None?))
  }

  function RuntimeStatus(run: Run): Status
  {
    if run.truncation.droppedRuntime > 0 then Truncated
    else if run.runtime == [] then Missing
    else if RuntimePartial(run.runtime) then PartialSignal
    else Present
  }

  function RequestStatus(run: Run, options: AnalyzeOptions): Status
  {
    if run.requests == [] then Missing
    else if run.truncation.droppedRequests > 0 then Truncated
    else if |run.requests| < options.lowRequestThreshold then PartialSignal
    else Present
  }

  function EvidenceQuality(run: Run, options: AnalyzeOptions): Quality
  {
    var queues := FamilyStatus(QueueCounts(run.queues).Total(), QueueCounts(run.queues).partial,
                               run.truncation.droppedQueues);
    var stages := FamilyStatus(StageCounts(run.stages).Total(), StageCounts(run.stages).partial,
                               run.truncation.droppedStages);
    var runtime := RuntimeStatus(run);
    var inflight := FamilyStatus(|run.inflight|, 0, run.truncation.droppedInflight);
    var nonRequestTruncated := queues.Truncated? || stages.Truncated? || runtime.Truncated? || inflight.Truncated?;
    var explanatoryPresent := run.queues != [] || run.stages != [] || run.runtime != [];
    if run.requests == [] || |run.requests| < options.lowRequestThreshold
       || run.truncation.droppedRequests > 0 || !explanatoryPresent then WeakQuality
    else if nonRequestTruncated || (run.queues == [] && run.stages == []) || runtime.PartialSignal?
            || QueueCounts(run.queues).partial > 0 || StageCounts(run.stages).partial > 0 then PartialQuality
    else StrongQuality
  }

  lemma {:induction false} PartialQueueCount(queues: seq<QueueEvent>)
    ensures QueueCounts(queues).partial > 0 <==> exists q :: q in queues && !q.completed
    ensures QueueCounts(queues).Total() == |queues|
  {
    if queues != [] {
      PartialQueueCount(queues[..|queues| - 1]);
      assert queues == queues[..|queues| - 1] + [queues[|queues| - 1]];
    }
  }

  lemma {:induction false} PartialStageCount(stages: seq<StageEvent>)
    ensures StageCounts(stages).partial > 0 <==> exists e :: e in stages && !e.completed
    ensures StageCounts(stages).Total() == |stages|
  {
    if stages != [] {
      PartialStageCount(stages[..|stages| - 1]);
      assert stages == stages[..|stages| - 1] + [stages[|stages| - 1]];
    }
  }

  /** The status of each section, on its events: truncated when any was dropped, missing when there is none,
      partial when one of them is, or when a depth was never sampled or requests are few; present otherwise.
      An empty request section is missing even when requests were dropped. */
  lemma SectionStatuses(run: Run, options: AnalyzeOptions)
    ensures var s := FamilyStatus(QueueCounts(run.queues).Total(), QueueCounts(run.queues).partial,
                                  run.truncation.droppedQueues);
            && (s.Truncated? <==> run.truncation.droppedQueues != 0)
            && (s.Missing? <==> run.truncation.droppedQueues == 0 && run.queues == [])
            && (s.PartialSignal? <==> run.truncation.droppedQueues == 0 && exists q :: q in run.queues && !q.completed)
    ensures var s := FamilyStatus(StageCounts(run.stages).Total(), StageCounts(run.stages).partial,
                                  run.truncation.droppedStages);
            && (s.Truncated? <==> run.truncation.droppedStages != 0)
            && (s.Missing? <==> run.truncation.droppedStages == 0 && run.stages == [])
            && (s.PartialSignal? <==> run.truncation.droppedStages == 0 && exists e :: e in run.stages && !e.completed)
    ensures var s := FamilyStatus(|run.inflight|, 0, run.truncation.droppedInflight);
            && (s.Truncated? <==> run.truncation.droppedInflight != 0) && !s.PartialSignal?
            && (s.Missing? <==> run.truncation.droppedInflight == 0 && run.inflight == [])
    ensures var s, t, u := RuntimeStatus(run), run.truncation.droppedRuntime, run.runtime;
            && (s.Truncated? <==> t != 0) && (s.Missing? <==> t == 0 && u == [])
            && (s.Present? <==>
                  && t == 0 && (exists x :: x in u && x.blockingDepth.Some?)
                  && (exists x :: x in u && x.localDepth.Some?) && (exists x :: x in u && x.globalDepth.Some?))
    ensures var s := RequestStatus(run, options);
            && (s.Missing? <==> run.requests == [])
            && (s.Truncated? <==> run.requests != [] && run.truncation.droppedRequests != 0)
            && (s.Present? <==> run.requests != [] && run.truncation.droppedRequests == 0
                                && |run.requests| >= options.lowRequestThreshold)
  {
    PartialQueueCount(run.queues);
    PartialStageCount(run.stages);
    hide QueueCounts, StageCounts;
  }

  ghost predicate NothingDropped(t: Truncation)
  {
    t.droppedRequests == 0 && t.droppedStages == 0 && t.droppedQueues == 0
    && t.droppedInflight == 0 && t.droppedRuntime == 0
  }

  /** Strong evidence, said once: enough requests, nothing dropped in any section, queue or stage
      events, no partial event, and no snapshot series missing a depth throughout. */
  lemma StrongQualityMeans(run: Run, options: AnalyzeOptions)
    ensures EvidenceQuality(run, options).StrongQuality? <==>
              && run.requests != [] && |run.requests| >= options.lowRequestThreshold
              && NothingDropped(run.truncation)
              && (run.queues != [] || run.stages != [])
              && (forall q :: q in run.queues ==> q.completed)
              && (forall e :: e in run.stages ==> e.completed)
              && !RuntimePartial(run.runtime)
    ensures EvidenceQuality(run, options).WeakQuality? <==>
              || RequestStatus(run, options) != Present
              || (run.queues == [] && run.stages == [] && run.runtime == [])
  {
    hide RuntimePartial, QueueCounts, StageCounts;
    PartialQueueCount(run.queues);
    PartialStageCount(run.stages);
  }
}
