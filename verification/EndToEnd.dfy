/** From capture to analysis: what any interleaved capture hands to the analyzer. */
module EndToEnd {
  import opened Machine
  import opened Events
  import CaptureProtocol
  import CaptureSteps
  import CaptureWorld
  import Normalization
  import Temporal
  import Analysis
  import ConfidenceCaps
  import Inflight
  import Scoring
  import LowerBounds
  import Slicing
  import opened Suspects
  import opened Evidence

  /** The run given to the sink is normalized; only lifecycle warnings are added to its metadata. */
  ghost predicate NormalizesForLifecycle(norm: Run -> Run)
  {
    forall r :: norm(r) == Normalization.Normalize(r).(metadata := norm(r).metadata)
  }

  lemma MetadataDoesNotMatter(run: Run, m: Metadata)
    ensures Normalization.Normalize(run.(metadata := m)) == Normalization.Normalize(run).(metadata := m)
  {}

  /** Whatever the threads do, a run given to the sink meets the analyzer's preconditions, and the
      analyzer's own normalization leaves it as it is. */
  lemma WrittenRunIsReady(cfg: CaptureSteps.Config, steps: seq<CaptureSteps.Action>, written: Run)
    requires CaptureSteps.After(cfg, steps).Some? && NormalizesForLifecycle(cfg.norm)
    requires written in CaptureSteps.After(cfg, steps).value.closing.writes
    ensures Analysis.RunNormalized(written) && Temporal.UniqueIds(written.requests)
    ensures Normalization.Normalize(written) == written
  {
    hide Normalization.Normalize, CaptureSteps.After, Analysis.RunNormalized, Temporal.UniqueIds;
    CaptureProtocol.ShutdownWritesOnce(cfg, steps);
    var captured := CaptureSteps.After(cfg, steps).value.core.run;
    var normalized := Normalization.Normalize(captured);
    assert written == cfg.norm(captured) == normalized.(metadata := written.metadata);
    Normalization.NormalizeIsIdempotent(captured);
    MetadataDoesNotMatter(normalized, written.metadata);
    Normalization.NormalizeMeetsPreconditions(captured);
    SamePreconditions(normalized, written.metadata);
  }

  lemma SamePreconditions(run: Run, m: Metadata)
    ensures Analysis.RunNormalized(run.(metadata := m)) <==> Analysis.RunNormalized(run)
    ensures Temporal.UniqueIds(run.(metadata := m).requests) <==> Temporal.UniqueIds(run.requests)
  {}

  /** Evidence lost to a limit during capture is never called strong by the analysis. */
  lemma CaptureLossIsNotStrong(cfg: CaptureSteps.Config, steps: seq<CaptureSteps.Action>, written: Run,
                               options: AnalyzeOptions)
    requires CaptureSteps.After(cfg, steps).Some? && NormalizesForLifecycle(cfg.norm)
    requires written in CaptureSteps.After(cfg, steps).value.closing.writes
    requires CaptureProtocol.Lost(CaptureSteps.After(cfg, steps).value) > 0
    ensures !EvidenceQuality(written, options).StrongQuality?
  {
    hide CaptureSteps.After, EvidenceQuality, CaptureProtocol.Lost, CaptureWorld.WorldSections;
    CaptureProtocol.ShutdownWritesOnce(cfg, steps);
    CaptureProtocol.TruncationIsCoherent(cfg, steps);
    var captured := CaptureSteps.After(cfg, steps).value.core.run;
    assert written == cfg.norm(captured);
    assert written.truncation == captured.truncation;
    StrongQualityMeans(written, options);
  }

  // ----- a strong run with a capped suspect

  const STAGE := StageEvent("a", "db", 0, Some(0), 1, Some(100), 100, true, true)

  const STRONG_RUN := EMPTY_RUN.(requests := [LowerBounds.REQUEST], stages := [STAGE])

  /** The default thresholds but for a zero queue trigger and low confidence thresholds. */
  const ZERO_TRIGGER := AnalyzeOptions(0, 2, 12, 20, 700, 30, 1, 500, 3, (stage: string) => false, 2, 10, 20, 60, 4, 1)

  lemma StageIsKept()
    ensures Normalization.KeepStage([LowerBounds.REQUEST])(STAGE) && Normalization.ClearStage(STAGE) == STAGE
  {
    assert 'a' in "a" && 'd' in "db";
    assert Normalization.ValidStage(STAGE) && Normalization.ClearStage(STAGE) == STAGE;
    hide Normalization.ValidStage, Normalization.ClearStage, Normalization.ValidRequest, Normalization.ValidCount,
      Normalization.FindValid, Normalization.ClearRequest;
    LowerBounds.RequestIsValid();
    Normalization.FoundIs([LowerBounds.REQUEST], LowerBounds.REQUEST);
  }

  lemma StrongRunIsNormal()
    ensures Normalization.NormalRun(STRONG_RUN) && EvidenceQuality(STRONG_RUN, ZERO_TRIGGER).StrongQuality?
  {
    hide Normalization.ValidRequest, Normalization.ClearRequest, Normalization.KeepQueue, Normalization.ClearQueue,
      Normalization.KeepStage, Normalization.ClearStage, Normalization.NormalRun, EvidenceQuality;
    LowerBounds.RequestIsValid();
    StageIsKept();
    Normalization.NormalMeansKeptAsIs(STRONG_RUN);
    StrongQualityMeans(STRONG_RUN, ZERO_TRIGGER);
  }

  lemma StrongRunTookTime()
    ensures Analysis.ScoreWithoutEvents(STRONG_RUN.requests, false) == 22
    ensures exists r :: r in STRONG_RUN.requests && r.latencyUs != 0
  {
    var requests := STRONG_RUN.requests;
    assert requests[..0] == [] && requests[0] in requests;
    assert Analysis.TookTime(requests[..0]) == 0;
    assert Analysis.TookTime(requests) == 1;
  }

  /** One completed request of one completed stage, no queue event, a zero trigger and a high threshold of
      20: the evidence is strong, the queue suspect's 22 points give High, and it ends Medium, outside any
      cluster and without an executor limitation. */
  lemma StrongRunCanBeCapped()
    ensures Normalization.NormalRun(STRONG_RUN) && EvidenceQuality(STRONG_RUN, ZERO_TRIGGER).StrongQuality?
    ensures STRONG_RUN.queues == [] && ZERO_TRIGGER.triggerPermille == 0
    ensures Analysis.Lowered(STRONG_RUN, None, false, ZERO_TRIGGER, 0)
  {
    hide Normalization.NormalRun, EvidenceQuality, Analysis.Lowered, Analysis.ScoreWithoutEvents;
    StrongRunIsNormal();
    StrongRunTookTime();
    Analysis.EventlessQueueIsLowered(STRONG_RUN, None, false, ZERO_TRIGGER);
  }

  // ----- the analyzer's entry points, over any run

  /** The worker status is read from the run as it was captured, everything else from its normalization. */
  method AnalyzeRunWithOptions(run: Run, options: AnalyzeOptions)
    returns (ranked: seq<Scored>, trend: Option<Inflight.Candidate>, ambiguous: bool, status: Option<WorkerEvidence>)
    ensures Scoring.IsWorkerEvidence(run.runtime, status) && Scoring.UsableStatus(status)
    ensures var n := Normalization.Normalize(run);
            && Inflight.IsDominant(n.inflight, trend)
            && ranked == Analysis.Ranked(Analysis.CandidatesOf(n, status, Analysis.Growing(trend), options), n,
                                         EvidenceQuality(n, options), options)
            && ranked != [] && Analysis.InRankOrder(ranked)
            && (ambiguous <==> exists i :: ConfidenceCaps.InCluster(ranked, options, i))
  {
    hide Normalization.Normalize, Analysis.RunNormalized, Analysis.Ranked, Analysis.InRankOrder,
      Analysis.CandidatesOf, EvidenceQuality, Scoring.IsWorkerEvidence, Inflight.IsDominant, ConfidenceCaps.InCluster;
    status := Scoring.ClassifyWorkerEvidence(run.runtime);
    var normalized := Normalization.NormalizeRunPermissive(run);
    Normalization.NormalizeMeetsPreconditions(run);
    ranked, trend, ambiguous := Analysis.AnalyzeRun(normalized, status, options);
  }

  /** A slice is analyzed like a run; without a window it carries no runtime evidence, so no worker status. */
  method AnalyzeSlice(source: Run, samples: Run, requestIds: seq<string>, policy: Slicing.GlobalEvidencePolicy,
                      options: AnalyzeOptions)
    returns (ranked: seq<Scored>, trend: Option<Inflight.Candidate>, usedUnixFallback: bool,
             status: Option<WorkerEvidence>)
    ensures var sliced := Slicing.Sliced(source, samples, (set id | id in requestIds), policy);
            && Scoring.UsableStatus(status)
            && (if policy.Exclude? then status.None? else Scoring.IsWorkerEvidence(sliced.runtime, status))
            && ranked == Analysis.Ranked(
                 Analysis.CandidatesOf(Normalization.Normalize(sliced), status, Analysis.Growing(trend), options),
                 Normalization.Normalize(sliced), EvidenceQuality(Normalization.Normalize(sliced), options), options)
            && Inflight.IsDominant(Normalization.Normalize(sliced).inflight, trend)
            && ranked != [] && Analysis.InRankOrder(ranked)
    ensures usedUnixFallback <==>
              && policy.Within?
              && (Slicing.RuntimeFellBack(samples.runtime, policy.window) ||
                  Slicing.InflightFellBack(samples.inflight, policy.window))
  {
    hide Normalization.Normalize, Analysis.RunNormalized, Analysis.Ranked, Analysis.InRankOrder,
      Analysis.CandidatesOf, EvidenceQuality, Scoring.IsWorkerEvidence, Inflight.IsDominant, ConfidenceCaps.InCluster,
      Slicing.Sliced, Slicing.RuntimeFellBack, Slicing.InflightFellBack;
    var sliced := Slicing.SliceRun(source, samples, requestIds, policy);
    usedUnixFallback := sliced.usedUnixFallback;
    match policy {
      case Exclude => status := None;
      case Within(_) => status := Scoring.ClassifyWorkerEvidence(sliced.run.runtime);
    }
    var normalized := Normalization.NormalizeRunPermissive(sliced.run);
    Normalization.NormalizeMeetsPreconditions(sliced.run);
    var ambiguous;
    ranked, trend, ambiguous := Analysis.AnalyzeRun(normalized, status, options);
  }
}
