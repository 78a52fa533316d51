/** The per-run collector: what one critical section under the collector's mutex does.

    The functions say what each critical section computes from the locked state; the class
    `Tailtriage` performs the same sections on its own fields and is proved against them.
    Clock samples and sequence numbers are drawn before the lock is taken, so they come in as
    arguments. */
module Collector {
  import opened Machine
  import opened Events

  type Key = nat

  datatype Limits = Limits(
    maxRequests: nat, maxStages: nat, maxQueues: nat, maxInflight: nat, maxRuntime: nat)

  datatype IntervalStart = IntervalStart(unixMs: u64, runUs: Option<u64>)

  datatype ClockSample = ClockSample(unixMs: u64, runUs: u64)

  /** The end of a measured interval: a clock sample and the monotonic duration. */
  datatype IntervalEnd = IntervalEnd(at: ClockSample, durationUs: u64)

  datatype Outcome = Ok | Error | Cancelled | Other(text: string)

  datatype Pending = Pending(requestId: string, route: string, kind: Option<string>, start: IntervalStart)

  datatype Terminal = Success | Failure(message: string)

  datatype Phase = Open | Finalizing | Closed(terminal: Terminal)

  /** Everything the mutex guards, and the atomic flag that is only written under it. */
  datatype Core = Core(
    run: Run, pending: map<Key, Pending>, counts: map<string, u64>, phase: Phase, limitsFlag: bool)

  /** The state after a critical section, whether the caller owes the listener a call,
      and whether the request or guard was admitted. */
  datatype Stepped = Stepped(core: Core, notify: bool, admitted: bool)

  const INITIAL := Core(EMPTY_RUN, map[], map[], Open, false)

  const PRIOR_FAILURE := "prior tailtriage sink attempt failed: "

  function OutcomeLabel(o: Outcome): string
  {
    match o
    case Ok => "ok"
    case Error => "error"
    case Cancelled => "cancelled"
    case Other(text) => text
  }

  function RequestEventOf(p: Pending, start: IntervalStart, end: IntervalEnd, o: Outcome): RequestEvent
  {
    RequestEvent(p.requestId, p.route, p.kind, start.unixMs, start.runUs,
                 end.at.unixMs, Some(end.at.runUs), end.durationUs, OutcomeLabel(o))
  }

  // ----- bounded retention: keep the first N, count the rest

  function PushRequest(run: Run, max: nat, e: RequestEvent): (Run, bool)
  {
    if |run.requests| < max then (run.(requests := run.requests + [e]), false)
    else (run.(truncation := run.truncation.(limitsHit := true,
               droppedRequests := SatAdd(run.truncation.droppedRequests, 1))), true)
  }

  function PushStage(run: Run, max: nat, e: StageEvent): (Run, bool)
  {
    if |run.stages| < max then (run.(stages := run.stages + [e]), false)
    else (run.(truncation := run.truncation.(limitsHit := true,
               droppedStages := SatAdd(run.truncation.droppedStages, 1))), true)
  }

  function PushQueue(run: Run, max: nat, e: QueueEvent): (Run, bool)
  {
    if |run.queues| < max then (run.(queues := run.queues + [e]), false)
    else (run.(truncation := run.truncation.(limitsHit := true,
               droppedQueues := SatAdd(run.truncation.droppedQueues, 1))), true)
  }

  function PushInflight(run: Run, max: nat, e: InFlightSnapshot): (Run, bool)
  {
    if |run.inflight| < max then (run.(inflight := run.inflight + [e]), false)
    else (run.(truncation := run.truncation.(limitsHit := true,
               droppedInflight := SatAdd(run.truncation.droppedInflight, 1))), true)
  }

  function PushRuntime(run: Run, max: nat, e: RuntimeSnapshot): (Run, bool)
  {
    if |run.runtime| < max then (run.(runtime := run.runtime + [e]), false)
    else (run.(truncation := run.truncation.(limitsHit := true,
               droppedRuntime := SatAdd(run.truncation.droppedRuntime, 1))), true)
  }

  // ----- critical sections, and what each of them leaves alone

  ghost predicate OnlyRequests(c: Core, c': Core)
  {
    c' == c.(run := c.run.(requests := c'.run.requests, truncation := c.run.truncation.(
                    limitsHit := c'.run.truncation.limitsHit,
                    droppedRequests := c'.run.truncation.droppedRequests)),
             pending := c'.pending, limitsFlag := c'.limitsFlag)
  }

  ghost predicate OnlyInflight(c: Core, c': Core)
  {
    c' == c.(run := c.run.(inflight := c'.run.inflight, truncation := c.run.truncation.(
                    limitsHit := c'.run.truncation.limitsHit,
                    droppedInflight := c'.run.truncation.droppedInflight)),
             counts := c'.counts, limitsFlag := c'.limitsFlag)
  }

  ghost predicate OnlyTimed(c: Core, c': Core)
  {
    c' == c.(run := c.run.(stages := c'.run.stages, queues := c'.run.queues, truncation := c.run.truncation.(
                    limitsHit := c'.run.truncation.limitsHit,
                    droppedStages := c'.run.truncation.droppedStages,
                    droppedQueues := c'.run.truncation.droppedQueues)),
             limitsFlag := c'.limitsFlag)
  }

  ghost predicate OnlyRuntime(c: Core, c': Core)
  {
    c' == c.(run := c.run.(runtime := c'.run.runtime, truncation := c.run.truncation.(
                    limitsHit := c'.run.truncation.limitsHit,
                    droppedRuntime := c'.run.truncation.droppedRuntime)),
             limitsFlag := c'.limitsFlag)
  }

  /** The section owes the listener a call exactly when it raised the flag; the flag stays up,
      and once capture is no longer open the section changes nothing. */
  ghost predicate Owes(c: Core, s: Stepped)
  {
    && (s.notify <==> !c.limitsFlag && s.core.limitsFlag)
    && (c.limitsFlag ==> s.core.limitsFlag)
    && (!c.phase.Open? ==> s == Stepped(c, false, false))
  }

  /** The first section to hit a limit wins the right to call the listener. */
  function MarkLimitsHit(c: Core): Stepped
  {
    Stepped(c.(run := c.run.(truncation := c.run.truncation.(limitsHit := true)), limitsFlag := true),
            !c.limitsFlag, false)
  }

  /** Installs a run some event was pushed into, marking the limit when the event was dropped. */
  function AfterPush(c: Core, pushed: (Run, bool)): Stepped
  {
    var c' := c.(run := pushed.0);
    if pushed.1 then MarkLimitsHit(c').(admitted := true) else Stepped(c', false, true)
  }

  function StartRequest(c: Core, lim: Limits, key: Key, p: Pending): (s: Stepped)
    ensures OnlyRequests(c, s.core) && Owes(c, s)
  {
    if c.phase.Open? && |c.run.requests| + |c.pending| < lim.maxRequests then
      Stepped(c.(pending := c.pending[key := p]), false, true)
    else if c.phase.Open? then
      MarkLimitsHit(c.(run := c.run.(truncation := c.run.truncation.(
        droppedRequests := SatAdd(c.run.truncation.droppedRequests, 1)))))
    else
      Stepped(c, false, false)
  }

  function ResolveRequest(c: Core, lim: Limits, key: Key, start: IntervalStart, end: IntervalEnd,
                          o: Outcome): (s: Stepped)
    ensures OnlyRequests(c, s.core) && Owes(c, s)
  {
    if !c.phase.Open? || key !in c.pending then Stepped(c, false, false)
    else
      AfterPush(c.(pending := c.pending - {key}),
                PushRequest(c.run, lim.maxRequests, RequestEventOf(c.pending[key], start, end, o)))
  }

  /** The live count is a machine word; the increment wraps as an unchecked build does. */
  function Increment(count: u64): u64
  {
    if count == U64_MAX then 0 else count + 1
  }

  function OpenGuard(c: Core, lim: Limits, gauge: string, at: ClockSample): (s: Stepped)
    ensures OnlyInflight(c, s.core) && Owes(c, s)
  {
    if !c.phase.Open? then Stepped(c, false, false)
    else if gauge !in c.counts && |c.counts| >= lim.maxInflight then
      MarkLimitsHit(c.(run := c.run.(truncation := c.run.truncation.(
        droppedInflight := SatAdd(c.run.truncation.droppedInflight, 1)))))
    else
      var count := Increment(if gauge in c.counts then c.counts[gauge] else 0);
      AfterPush(c.(counts := c.counts[gauge := count]),
                PushInflight(c.run, lim.maxInflight, InFlightSnapshot(gauge, at.unixMs, Some(at.runUs), count)))
  }

  /** `admitted` tells whether the drop passed both early returns. */
  function DropGuard(c: Core, lim: Limits, gauge: string, at: ClockSample): (s: Stepped)
    ensures OnlyInflight(c, s.core) && Owes(c, s)
  {
    if !c.phase.Open? || gauge !in c.counts || c.counts[gauge] == 0 then Stepped(c, false, false)
    else
      var count: u64 := c.counts[gauge] - 1;
      AfterPush(c.(counts := if count == 0 then c.counts - {gauge} else c.counts[gauge := count]),
                PushInflight(c.run, lim.maxInflight, InFlightSnapshot(gauge, at.unixMs, Some(at.runUs), count)))
  }

  function RecordStage(c: Core, lim: Limits, e: StageEvent): (s: Stepped)
    ensures OnlyTimed(c, s.core) && Owes(c, s)
  {
    if !c.phase.Open? then Stepped(c, false, false) else AfterPush(c, PushStage(c.run, lim.maxStages, e))
  }

  function RecordQueue(c: Core, lim: Limits, e: QueueEvent): (s: Stepped)
    ensures OnlyTimed(c, s.core) && Owes(c, s)
  {
    if !c.phase.Open? then Stepped(c, false, false) else AfterPush(c, PushQueue(c.run, lim.maxQueues, e))
  }

  function RecordRuntime(c: Core, lim: Limits, e: RuntimeSnapshot): (s: Stepped)
    ensures OnlyRuntime(c, s.core) && Owes(c, s)
  {
    if !c.phase.Open? then Stepped(c, false, false) else AfterPush(c, PushRuntime(c.run, lim.maxRuntime, e))
  }

  function SetEndReason(c: Core, reason: RunEndReason): Core
  {
    if c.phase.Open? && c.run.metadata.runEndReason.None? then
      c.(run := c.run.(metadata := c.run.metadata.(runEndReason := Some(reason))))
    else c
  }

  /** What a call of `shutdown` finds when it holds the lock. */
  datatype Attempt =
    | Wait
    | Replay(result: ShutdownResult)
    | Refused(count: nat)
    | Won

  datatype ShutdownResult = Done | UnfinishedRequests(count: nat) | SinkError(message: string)

  /** What every caller but the winner gets from the winner's sink attempt. */
  function ReplayOf(t: Terminal): ShutdownResult
  {
    match t
    case Success => Done
    case Failure(message) => SinkError(PRIOR_FAILURE + message)
  }

  function AttemptOf(c: Core, strict: bool): Attempt
  {
    match c.phase
    case Finalizing => Wait
    case Closed(t) => Replay(ReplayOf(t))
    case Open => if |c.pending| > 0 && strict then Refused(|c.pending|) else Won
  }

  /** The result the winning caller returns for its own sink attempt. */
  function OwnResult(t: Terminal): ShutdownResult
  {
    match t
    case Success => Done
    case Failure(message) => SinkError(message)
  }

  ghost function Finalize(c: Core, now: u64): Core
  {
    var m := c.run.metadata;
    var m' := m.(runEndReason := if m.runEndReason.None? then Some(Shutdown) else m.runEndReason,
                 finalizedUnixMs := Some(now));
    var m'' := if |c.pending| > 0 then
                 m'.(unfinishedWarnings := m.unfinishedWarnings + 1, unfinishedCount := |c.pending|,
                     unfinishedSample := Samples(OldestKeys(c.pending.Keys, 5), c.pending))
               else m';
    c.(run := c.run.(metadata := m''), pending := map[], phase := Finalizing)
  }

  // ----- the unfinished-request sample: the oldest pending keys, ascending

  ghost function MinKey(keys: set<Key>): (k: Key)
    requires keys != {}
    ensures k in keys && forall j :: j in keys ==> k <= j
  {
    var x :| x in keys;
    var rest := keys - {x};
    assert forall j :: j in keys ==> j == x || j in rest;
    if rest == {} then x
    else
      var k := MinKey(rest);
      if x < k then x else k
  }

  ghost function OldestKeys(keys: set<Key>, n: nat): (ks: seq<Key>)
    ensures forall k :: k in ks ==> k in keys
    decreases n
  {
    if n == 0 || keys == {} then []
    else [MinKey(keys)] + OldestKeys(keys - {MinKey(keys)}, n - 1)
  }

  /** The sample is as long as it may be, ascends, and every key left out is younger than all of it. */
  lemma {:induction false} OldestKeysAreOldest(keys: set<Key>, n: nat)
    ensures |OldestKeys(keys, n)| == Min(|keys|, n)
    ensures forall i, j :: 0 <= i < j < |OldestKeys(keys, n)| ==> OldestKeys(keys, n)[i] < OldestKeys(keys, n)[j]
    ensures forall k, o :: k in keys && k !in OldestKeys(keys, n) && o in OldestKeys(keys, n) ==> o < k
    decreases n
  {
    if n != 0 && keys != {} {
      var k, ks := MinKey(keys), OldestKeys(keys, n);
      var rest := OldestKeys(keys - {k}, n - 1);
      OldestKeysAreOldest(keys - {k}, n - 1);
      assert ks == [k] + rest;
      forall j | 0 <= j < |rest| ensures k < rest[j] {
        assert rest[j] in rest;
      }
    }
  }

  function Samples(ks: seq<Key>, pending: map<Key, Pending>): seq<UnfinishedSample>
    requires forall k :: k in ks ==> k in pending
  {
    if ks == [] then []
    else Samples(ks[..|ks| - 1], pending)
         + [UnfinishedSample(pending[ks[|ks| - 1]].requestId, pending[ks[|ks| - 1]].route)]
  }

  // ----- the invariant of the locked state

  ghost predicate AnyDropped(t: Truncation)
  {
    t.droppedRequests > 0 || t.droppedStages > 0 || t.droppedQueues > 0
    || t.droppedInflight > 0 || t.droppedRuntime > 0
  }

  ghost predicate CoreInv(c: Core, lim: Limits)
  {
    && |c.run.requests| + |c.pending| <= lim.maxRequests
    && |c.run.stages| <= lim.maxStages
    && |c.run.queues| <= lim.maxQueues
    && |c.run.inflight| <= lim.maxInflight
    && |c.run.runtime| <= lim.maxRuntime
    && |c.counts| <= lim.maxInflight
    && (forall g :: g in c.counts ==> c.counts[g] > 0)
    && (c.run.truncation.limitsHit <==> c.limitsFlag)
    && (c.limitsFlag <==> AnyDropped(c.run.truncation))
  }

  lemma ShrinkMap<K, V>(m: map<K, V>, k: K)
    requires k in m
    ensures |m - {k}| == |m| - 1
  {
    assert (m - {k}).Keys == m.Keys - {k};
  }

  lemma GrowMap<K, V>(m: map<K, V>, k: K, v: V)
    ensures |m[k := v]| == if k in m then |m| else |m| + 1
  {
    assert m[k := v].Keys == m.Keys + {k};
  }

  /** Admission leaves room for the completion it will record, so recording it never drops. */
  lemma StartKeepsInv(c: Core, lim: Limits, key: Key, p: Pending)
    requires CoreInv(c, lim)
    ensures CoreInv(StartRequest(c, lim, key, p).core, lim)
  {
    GrowMap(c.pending, key, p);
  }

  lemma ResolveNeverDrops(c: Core, lim: Limits, key: Key, start: IntervalStart, end: IntervalEnd, o: Outcome)
    requires CoreInv(c, lim)
    ensures CoreInv(ResolveRequest(c, lim, key, start, end, o).core, lim)
    ensures !ResolveRequest(c, lim, key, start, end, o).notify
    ensures c.phase.Open? && key in c.pending ==>
              ResolveRequest(c, lim, key, start, end, o).core ==
              c.(pending := c.pending - {key},
                 run := c.run.(requests := c.run.requests + [RequestEventOf(c.pending[key], start, end, o)]))
  {
    if key in c.pending {
      ShrinkMap(c.pending, key);
    }
  }

  lemma OpenGuardKeepsInv(c: Core, lim: Limits, gauge: string, at: ClockSample)
    requires CoreInv(c, lim)
    requires gauge in c.counts ==> c.counts[gauge] < U64_MAX
    ensures CoreInv(OpenGuard(c, lim, gauge, at).core, lim)
  {
    GrowMap(c.counts, gauge, (if gauge in c.counts then c.counts[gauge] else 0) + 1);
  }

  lemma FinalizeKeepsInv(c: Core, lim: Limits, now: u64)
    requires CoreInv(c, lim)
    ensures CoreInv(Finalize(c, now), lim)
  {
    hide Samples, OldestKeys;
  }

  /** Counts are never zero, so a drop always finds a unit to give back when its gauge is counted. */
  lemma DropGuardKeepsInv(c: Core, lim: Limits, gauge: string, at: ClockSample)
    requires CoreInv(c, lim)
    ensures CoreInv(DropGuard(c, lim, gauge, at).core, lim)
    ensures c.phase.Open? && gauge in c.counts ==> DropGuard(c, lim, gauge, at).admitted
  {
    if gauge in c.counts {
      ShrinkMap(c.counts, gauge);
      if c.counts[gauge] > 1 {
        GrowMap(c.counts, gauge, c.counts[gauge] - 1);
      }
    }
  }
}
