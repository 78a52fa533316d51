/** The run artifact: what a capture records and what the analyzer reads. */
module Events {
  import opened Machine

  datatype RequestEvent = RequestEvent(
    requestId: string, route: string, kind: Option<string>,
    startedUnixMs: u64, startedRunUs: Option<u64>,
    finishedUnixMs: u64, finishedRunUs: Option<u64>,
    latencyUs: u64, outcome: string)

  datatype StageEvent = StageEvent(
    requestId: string, stage: string,
    startedUnixMs: u64, startedRunUs: Option<u64>,
    finishedUnixMs: u64, finishedRunUs: Option<u64>,
    latencyUs: u64, success: bool, completed: bool)

  datatype QueueEvent = QueueEvent(
    requestId: string, queue: string,
    fromUnixMs: u64, fromRunUs: Option<u64>,
    untilUnixMs: u64, untilRunUs: Option<u64>,
    waitUs: u64, depthAtStart: Option<u64>, completed: bool)

  datatype InFlightSnapshot = InFlightSnapshot(gauge: string, atUnixMs: u64, atRunUs: Option<u64>, count: u64)

  datatype RuntimeSnapshot = RuntimeSnapshot(
    atUnixMs: u64, atRunUs: Option<u64>, aliveTasks: Option<u64>, workerCount: Option<nat>,
    globalDepth: Option<u64>, localDepth: Option<u64>, blockingDepth: Option<u64>)

  datatype Truncation = Truncation(
    limitsHit: bool, droppedRequests: u64, droppedStages: u64, droppedQueues: u64,
    droppedInflight: u64, droppedRuntime: u64)

  datatype RunEndReason = ManualDisarm | Shutdown | AutoSealOnLimitsHit

  /** Request id and route of a request still pending at shutdown. */
  datatype UnfinishedSample = UnfinishedSample(requestId: string, route: string)

  datatype Metadata = Metadata(
    runEndReason: Option<RunEndReason>, finalizedUnixMs: Option<u64>,
    unfinishedWarnings: nat, unfinishedCount: nat, unfinishedSample: seq<UnfinishedSample>)

  datatype Run = Run(
    metadata: Metadata,
    requests: seq<RequestEvent>, stages: seq<StageEvent>, queues: seq<QueueEvent>,
    inflight: seq<InFlightSnapshot>, runtime: seq<RuntimeSnapshot>, truncation: Truncation)

  const EMPTY_RUN := Run(Metadata(None, None, 0, 0, []), [], [], [], [], [], Truncation(false, 0, 0, 0, 0, 0))
}
