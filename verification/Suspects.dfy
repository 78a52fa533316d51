/** Analyzer options, and what a scored suspect carries from scoring to ranking. */
module Suspects {
  import opened Machine
  import opened StageAttribution

  datatype AnalyzeOptions = AnalyzeOptions(
    triggerPermille: u64,
    minNonzeroSamples: nat, strongP95: u64, strongPeak: u64, strongNonzeroShare: u64, strongMinSamples: nat,
    minGlobalP95: u64, minRunnablePerWorkerMilli: u64,
    minStageSamples: nat, correlates: string -> bool, correlationMargin: nat,
    mediumThreshold: nat, highThreshold: nat, ambiguityMinScore: nat, ambiguityGap: nat,
    lowRequestThreshold: nat)

  datatype Kind = Queue | Blocking | Executor | Downstream | Insufficient

  datatype Confidence = Low | Medium | High
  {
    function Rank(): nat { match this case Low => 1 case Medium => 2 case High => 3 }

    function AtMost(cap: Confidence): Confidence { if Rank() <= cap.Rank() then this else cap }
  }

  function FromScore(score: nat, options: AnalyzeOptions): Confidence
  {
    if score >= options.highThreshold then High
    else if score >= options.mediumThreshold then Medium
    else Low
  }

  datatype WorkerEvidence =
    | HistoricalAbsent
    | Complete(workerCount: nat, localComplete: bool)
    | Partial
    | Inconsistent
    | InvalidZero

  datatype Limitation = AmbiguousWorkers(status: WorkerEvidence) | MissingLocalDepth

  /** Which sentence a confidence note is; the texts themselves are not modelled. */
  datatype Note =
    | LowRequestCount | TruncationCaps | PartialQueueEvidence | PartialStageEvidence
    | MissingQueues | MissingStages | MissingRuntime | PartialRuntime
    | ExecutorLimited(limitation: Limitation) | Ambiguous

  datatype Scored = Scored(
    kind: Kind, score: nat, confidence: Confidence, basis: Basis,
    limitation: Option<Limitation>, notes: seq<Note>)

  function NewScored(kind: Kind, score: nat, basis: Basis, limitation: Option<Limitation>,
                     options: AnalyzeOptions): Scored
  {
    Scored(kind, score, FromScore(score, options), basis, limitation, [])
  }
}
