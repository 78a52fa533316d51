/** The collector, its guards, completion tokens and timer records as objects that update their
    fields, each method proved against the functions of `Collector`. One call here is one critical
    section followed, after the unlock, by the listener call it may owe. */
module Capture {
  import opened Machine
  import opened Events
  import opened Collector

  lemma SamplesAppend(ks: seq<Key>, k: Key, pending: map<Key, Pending>)
    requires k in pending && forall j :: j in ks ==> j in pending
    ensures forall j :: j in ks + [k] ==> j in pending
    ensures Samples(ks + [k], pending) ==
            Samples(ks, pending) + [UnfinishedSample(pending[k].requestId, pending[k].route)]
  {
    assert (ks + [k])[..|ks + [k]| - 1] == ks;
  }

  lemma OldestFirst(chosen: seq<Key>, keys: set<Key>, n: nat)
    requires n > 0 && keys != {}
    ensures chosen + OldestKeys(keys, n) == chosen + [MinKey(keys)] + OldestKeys(keys - {MinKey(keys)}, n - 1)
  {}

  class Tailtriage {
    const limits: Limits
    const strict: bool
    var run: Run
    var pendingRequests: map<Key, Pending>
    var inflightCounts: map<string, u64>
    var phase: Phase
    var limitsHit: bool
    var listenerCalls: nat

    function View(): Core
      reads this
    {
      Core(run, pendingRequests, inflightCounts, phase, limitsHit)
    }

    ghost predicate Valid()
      reads this
    {
      CoreInv(View(), limits)
    }

    constructor (limits: Limits, strict: bool)
      ensures Valid() && View() == INITIAL && listenerCalls == 0
      ensures this.limits == limits && this.strict == strict
    {
      this.limits, this.strict := limits, strict;
      run, pendingRequests, inflightCounts, phase, limitsHit := EMPTY_RUN, map[], map[], Open, false;
      listenerCalls := 0;
    }

    // ----- bounded retention

    method PushRequestBounded(e: RequestEvent) returns (dropped: bool)
      modifies this`run
      ensures (run, dropped) == PushRequest(old(run), limits.maxRequests, e)
      ensures dropped <==> |old(run.requests)| >= limits.maxRequests
      ensures run == if dropped then
                       old(run).(truncation := old(run.truncation).(limitsHit := true,
                         droppedRequests := Min(old(run.truncation.droppedRequests) + 1, U64_MAX)))
                     else old(run).(requests := old(run.requests) + [e])
    {
      if |run.requests| < limits.maxRequests {
        run := run.(requests := run.requests + [e]);
        return false;
      }
      run := run.(truncation := run.truncation.(limitsHit := true));
      run := run.(truncation := run.truncation.(droppedRequests := SatAdd(run.truncation.droppedRequests, 1)));
      return true;
    }

    method PushStageBounded(e: StageEvent) returns (dropped: bool)
      modifies this`run
      ensures (run, dropped) == PushStage(old(run), limits.maxStages, e)
      ensures dropped <==> |old(run.stages)| >= limits.maxStages
      ensures run == if dropped then
                       old(run).(truncation := old(run.truncation).(limitsHit := true,
                         droppedStages := Min(old(run.truncation.droppedStages) + 1, U64_MAX)))
                     else old(run).(stages := old(run.stages) + [e])
    {
      if |run.stages| < limits.maxStages {
        run := run.(stages := run.stages + [e]);
        return false;
      }
      run := run.(truncation := run.truncation.(limitsHit := true));
      run := run.(truncation := run.truncation.(droppedStages := SatAdd(run.truncation.droppedStages, 1)));
      return true;
    }

    method PushQueueBounded(e: QueueEvent) returns (dropped: bool)
      modifies this`run
      ensures (run, dropped) == PushQueue(old(run), limits.maxQueues, e)
      ensures dropped <==> |old(run.queues)| >= limits.maxQueues
      ensures run == if dropped then
                       old(run).(truncation := old(run.truncation).(limitsHit := true,
                         droppedQueues := Min(old(run.truncation.droppedQueues) + 1, U64_MAX)))
                     else old(run).(queues := old(run.queues) + [e])
    {
      if |run.queues| < limits.maxQueues {
        run := run.(queues := run.queues + [e]);
        return false;
      }
      run := run.(truncation := run.truncation.(limitsHit := true));
      run := run.(truncation := run.truncation.(droppedQueues := SatAdd(run.truncation.droppedQueues, 1)));
      return true;
    }

    method PushInflightSnapshotBounded(e: InFlightSnapshot) returns (dropped: bool)
      modifies this`run
      ensures (run, dropped) == PushInflight(old(run), limits.maxInflight, e)
      ensures dropped <==> |old(run.inflight)| >= limits.maxInflight
      ensures run == if dropped then
                       old(run).(truncation := old(run.truncation).(limitsHit := true,
                         droppedInflight := Min(old(run.truncation.droppedInflight) + 1, U64_MAX)))
                     else old(run).(inflight := old(run.inflight) + [e])
    {
      if |run.inflight| < limits.maxInflight {
        run := run.(inflight := run.inflight + [e]);
        return false;
      }
      run := run.(truncation := run.truncation.(limitsHit := true));
      run := run.(truncation := run.truncation.(droppedInflight := SatAdd(run.truncation.droppedInflight, 1)));
      return true;
    }

    method PushRuntimeSnapshotBounded(e: RuntimeSnapshot) returns (dropped: bool)
      modifies this`run
      ensures (run, dropped) == PushRuntime(old(run), limits.maxRuntime, e)
      ensures dropped <==> |old(run.runtime)| >= limits.maxRuntime
      ensures run == if dropped then
                       old(run).(truncation := old(run.truncation).(limitsHit := true,
                         droppedRuntime := Min(old(run.truncation.droppedRuntime) + 1, U64_MAX)))
                     else old(run).(runtime := old(run.runtime) + [e])
    {
      if |run.runtime| < limits.maxRuntime {
        run := run.(runtime := run.runtime + [e]);
        return false;
      }
      run := run.(truncation := run.truncation.(limitsHit := true));
      run := run.(truncation := run.truncation.(droppedRuntime := SatAdd(run.truncation.droppedRuntime, 1)));
      return true;
    }

    /** Raises the flag of the run and compare-exchanges the atomic one. */
    method MarkRunLimitsHit() returns (first: bool)
      modifies this`run, this`limitsHit
      ensures View() == MarkLimitsHit(old(View())).core && first == MarkLimitsHit(old(View())).notify
      ensures run == old(run).(truncation := old(run.truncation).(limitsHit := true))
      ensures limitsHit && first == !old(limitsHit)
    {
      run := run.(truncation := run.truncation.(limitsHit := true));
      first := !limitsHit;
      limitsHit := true;
    }

    method NotifyLimitsHitListener()
      modifies this`listenerCalls
      ensures listenerCalls == old(listenerCalls) + 1
    {
      listenerCalls := listenerCalls + 1;
    }

    // ----- critical sections

    method StartRequest(key: Key, p: Pending) returns (admitted: bool)
      requires Valid()
      modifies this
      ensures Valid()
      ensures var s := Collector.StartRequest(old(View()), limits, key, p);
              View() == s.core && admitted == s.admitted
              && listenerCalls == old(listenerCalls) + if s.notify then 1 else 0
    {
      StartKeepsInv(View(), limits, key, p);
      var notify := false;
      if phase.Open? && |run.requests| + |pendingRequests| < limits.maxRequests {
        pendingRequests := pendingRequests[key := p];
        admitted := true;
      } else {
        if phase.Open? {
          run := run.(truncation := run.truncation.(droppedRequests := SatAdd(run.truncation.droppedRequests, 1)));
          notify := MarkRunLimitsHit();
        }
        admitted := false;
      }
      if notify {
        NotifyLimitsHitListener();
      }
    }

    method ResolveRequest(key: Key, start: IntervalStart, end: IntervalEnd, o: Outcome)
      requires Valid()
      modifies this
      ensures Valid()
      ensures View() == Collector.ResolveRequest(old(View()), limits, key, start, end, o).core
      ensures listenerCalls == old(listenerCalls)
    {
      hide CoreInv;
      if !phase.Open? || key !in pendingRequests {
        return;
      }
      var pending := pendingRequests[key];
      pendingRequests := pendingRequests - {key};
      var notify := false;
      var dropped := PushRequestBounded(RequestEventOf(pending, start, end, o));
      if dropped {
        notify := MarkRunLimitsHit();
      }
      if notify {
        NotifyLimitsHitListener();
      }
      ResolveNeverDrops(old(View()), limits, key, start, end, o);
    }

    /** The caller builds a guard that is enabled exactly when this returns true. */
    method Inflight(gauge: string, at: ClockSample) returns (enabled: bool)
      requires Valid() && (gauge in inflightCounts ==> inflightCounts[gauge] < U64_MAX)
      modifies this
      ensures Valid()
      ensures var s := OpenGuard(old(View()), limits, gauge, at);
              View() == s.core && enabled == s.admitted
              && listenerCalls == old(listenerCalls) + if s.notify then 1 else 0
    {
      hide CoreInv;
      OpenGuardKeepsInv(View(), limits, gauge, at);
      if !phase.Open? {
        return false;
      }
      if gauge !in inflightCounts && |inflightCounts| >= limits.maxInflight {
        run := run.(truncation := run.truncation.(droppedInflight := SatAdd(run.truncation.droppedInflight, 1)));
        var first := MarkRunLimitsHit();
        if first {
          NotifyLimitsHitListener();
        }
        return false;
      }
      var count := Increment(if gauge in inflightCounts then inflightCounts[gauge] else 0);
      inflightCounts := inflightCounts[gauge := count];
      var notify := false;
      var dropped := PushInflightSnapshotBounded(InFlightSnapshot(gauge, at.unixMs, Some(at.runUs), count));
      if dropped {
        notify := MarkRunLimitsHit();
      }
      if notify {
        NotifyLimitsHitListener();
      }
      return true;
    }

    /** The critical section of a guard's drop. */
    method ReleaseInflight(gauge: string, at: ClockSample)
      requires Valid()
      modifies this
      ensures Valid()
      ensures var s := DropGuard(old(View()), limits, gauge, at);
              View() == s.core && listenerCalls == old(listenerCalls) + if s.notify then 1 else 0
    {
      hide CoreInv;
      DropGuardKeepsInv(View(), limits, gauge, at);
      if !phase.Open? || gauge !in inflightCounts || inflightCounts[gauge] == 0 {
        return;
      }
      var count: u64 := inflightCounts[gauge] - 1;
      inflightCounts := inflightCounts[gauge := count];
      var dropped := PushInflightSnapshotBounded(InFlightSnapshot(gauge, at.unixMs, Some(at.runUs), count));
      if count == 0 {
        inflightCounts := inflightCounts - {gauge};
        assert inflightCounts == old(inflightCounts) - {gauge};
      }
      var notify := false;
      if dropped {
        notify := MarkRunLimitsHit();
      }
      if notify {
        NotifyLimitsHitListener();
      }
    }

    method RecordStageEvent(e: StageEvent)
      requires Valid()
      modifies this
      ensures Valid()
      ensures var s := RecordStage(old(View()), limits, e);
              View() == s.core && listenerCalls == old(listenerCalls) + if s.notify then 1 else 0
    {
      if !phase.Open? {
        return;
      }
      var notify := false;
      var dropped := PushStageBounded(e);
      if dropped {
        notify := MarkRunLimitsHit();
      }
      if notify {
        NotifyLimitsHitListener();
      }
    }

    method RecordQueueEvent(e: QueueEvent)
      requires Valid()
      modifies this
      ensures Valid()
      ensures var s := RecordQueue(old(View()), limits, e);
              View() == s.core && listenerCalls == old(listenerCalls) + if s.notify then 1 else 0
    {
      if !phase.Open? {
        return;
      }
      var notify := false;
      var dropped := PushQueueBounded(e);
      if dropped {
        notify := MarkRunLimitsHit();
      }
      if notify {
        NotifyLimitsHitListener();
      }
    }

    /** A snapshot without a run-relative time is stamped from the clock before the lock. */
    method RecordRuntimeSnapshot(e: RuntimeSnapshot, runUs: u64)
      requires Valid()
      modifies this
      ensures Valid()
      ensures var stamped := if e.atRunUs.None? then e.(atRunUs := Some(runUs)) else e;
              var s := RecordRuntime(old(View()), limits, stamped);
              View() == s.core && listenerCalls == old(listenerCalls) + if s.notify then 1 else 0
    {
      var snapshot := e;
      if snapshot.atRunUs.None? {
        snapshot := snapshot.(atRunUs := Some(runUs));
      }
      if !phase.Open? {
        return;
      }
      var notify := false;
      var dropped := PushRuntimeSnapshotBounded(snapshot);
      if dropped {
        notify := MarkRunLimitsHit();
      }
      if notify {
        NotifyLimitsHitListener();
      }
    }

    method SetRunEndReasonIfAbsent(reason: RunEndReason)
      requires Valid()
      modifies this`run
      ensures Valid() && View() == SetEndReason(old(View()), reason)
    {
      if phase.Open? && run.metadata.runEndReason.None? {
        run := run.(metadata := run.metadata.(runEndReason := Some(reason)));
      }
    }

    // ----- shutdown

    static method Oldest(keys: set<Key>) returns (k: Key)
      requires keys != {}
      ensures k == MinKey(keys)
    {
      k :| k in keys;
      var others := keys - {k};
      while others != {}
        invariant k in keys && others <= keys
        invariant forall j :: j in keys && j !in others ==> k <= j
        decreases |others|
      {
        var j :| j in others;
        if j < k {
          k := j;
        }
        others := others - {j};
      }
    }

    /** The pending requests in key order, cut off after `n`. */
    method OldestPending(n: nat) returns (sample: seq<UnfinishedSample>)
      ensures sample == Samples(OldestKeys(pendingRequests.Keys, n), pendingRequests)
    {
      sample := [];
      ghost var chosen: seq<Key> := [];
      var rest := pendingRequests.Keys;
      var i := 0;
      while i < n && rest != {}
        invariant i <= n && rest <= pendingRequests.Keys
        invariant forall k :: k in chosen ==> k in pendingRequests
        invariant sample == Samples(chosen, pendingRequests)
        invariant chosen + OldestKeys(rest, n - i) == OldestKeys(pendingRequests.Keys, n)
      {
        hide Samples, OldestKeys, MinKey;
        var k := Oldest(rest);
        SamplesAppend(chosen, k, pendingRequests);
        OldestFirst(chosen, rest, n - i);
        sample := sample + [UnfinishedSample(pendingRequests[k].requestId, pendingRequests[k].route)];
        chosen := chosen + [k];
        rest := rest - {k};
        i := i + 1;
      }
      assert chosen == OldestKeys(pendingRequests.Keys, n);
    }

    /** The locked part of `shutdown`: finds the phase, refuses, or finalizes and hands out the run
        the caller must write. */
    method BeginShutdown(now: u64) returns (attempt: Attempt, candidate: Run)
      requires Valid()
      modifies this
      ensures Valid() && listenerCalls == old(listenerCalls)
      ensures attempt == AttemptOf(old(View()), strict)
      ensures match old(phase)
              case Open =>
                if strict && |old(pendingRequests)| > 0 then attempt == Refused(|old(pendingRequests)|)
                else attempt == Won
              case Finalizing => attempt == Wait
              case Closed(Success) => attempt == Replay(Done)
              case Closed(Failure(m)) => attempt == Replay(SinkError("prior tailtriage sink attempt failed: " + m))
      ensures View() == if attempt.Won? then Finalize(old(View()), now) else old(View())
      ensures candidate == run
    {
      hide CoreInv, Samples, OldestKeys, MinKey;
      candidate := run;
      FinalizeKeepsInv(View(), limits, now);
      match phase {
        case Finalizing => return Wait, candidate;
        case Closed(Success) => return Replay(Done), candidate;
        case Closed(Failure(message)) => return Replay(SinkError(PRIOR_FAILURE + message)), candidate;
        case Open =>
      }
      var pendingCount := |pendingRequests|;
      if pendingCount > 0 && strict {
        return Refused(pendingCount), candidate;
      }
      var samples := OldestPending(5);
      pendingRequests := map[];
      if run.metadata.runEndReason.None? {
        run := run.(metadata := run.metadata.(runEndReason := Some(Shutdown)));
      }
      run := run.(metadata := run.metadata.(finalizedUnixMs := Some(now)));
      if pendingCount > 0 {
        run := run.(metadata := run.metadata.(unfinishedWarnings := run.metadata.unfinishedWarnings + 1));
        run := run.(metadata := run.metadata.(unfinishedCount := pendingCount, unfinishedSample := samples));
      }
      candidate := run;
      phase := Finalizing;
      return Won, candidate;
    }

    /** The winner's second locked part, after its sink attempt. */
    method FinishShutdown(terminal: Terminal) returns (result: ShutdownResult)
      requires Valid() && phase.Finalizing?
      modifies this`phase
      ensures Valid() && View() == old(View()).(phase := Closed(terminal))
      ensures match terminal
              case Success => result == Done
              case Failure(m) => result == SinkError(m)
    {
      phase := Closed(terminal);
      match terminal {
        case Success => return Done;
        case Failure(message) => return SinkError(message);
      }
    }
  }

  /** RAII guard of one in-flight unit. */
  class InflightGuard {
    const tailtriage: Tailtriage
    const gauge: string
    const enabled: bool

    constructor (tailtriage: Tailtriage, gauge: string, enabled: bool)
      ensures this.tailtriage == tailtriage && this.gauge == gauge && this.enabled == enabled
    {
      this.tailtriage, this.gauge, this.enabled := tailtriage, gauge, enabled;
    }

    method Drop(at: ClockSample)
      requires tailtriage.Valid()
      modifies tailtriage
      ensures tailtriage.Valid()
      ensures var s := if enabled then DropGuard(old(tailtriage.View()), tailtriage.limits, gauge, at)
                       else Stepped(old(tailtriage.View()), false, false);
              tailtriage.View() == s.core
              && tailtriage.listenerCalls == old(tailtriage.listenerCalls) + if s.notify then 1 else 0
    {
      if !enabled {
        return;
      }
      tailtriage.ReleaseInflight(gauge, at);
    }
  }

  datatype ArmedCompletion = ArmedCompletion(key: Key, start: IntervalStart)

  /** Completion token: explicit finish takes the armed state, so the drop that follows is inert. */
  class RequestCompletion {
    const tailtriage: Tailtriage
    var state: Option<ArmedCompletion>

    constructor (tailtriage: Tailtriage, state: Option<ArmedCompletion>)
      ensures this.tailtriage == tailtriage && this.state == state
    {
      this.tailtriage, this.state := tailtriage, state;
    }

    method Finish(end: IntervalEnd, outcome: Outcome)
      requires tailtriage.Valid()
      modifies this`state, tailtriage
      ensures state.None? && tailtriage.Valid() && tailtriage.listenerCalls == old(tailtriage.listenerCalls)
      ensures tailtriage.View() ==
              match old(state)
              case Some(armed) =>
                Collector.ResolveRequest(old(tailtriage.View()), tailtriage.limits, armed.key,
                                         armed.start, end, outcome).core
              case None => old(tailtriage.View())
    {
      if state.Some? {
        var armed := state.value;
        state := None;
        tailtriage.ResolveRequest(armed.key, armed.start, end, outcome);
      }
    }

    /** Dropping an armed token records a cancelled request; dropping a finished one, nothing. */
    method Drop(end: IntervalEnd)
      requires tailtriage.Valid()
      modifies this`state, tailtriage
      ensures state.None? && tailtriage.Valid() && tailtriage.listenerCalls == old(tailtriage.listenerCalls)
      ensures tailtriage.View() ==
              match old(state)
              case Some(armed) =>
                Collector.ResolveRequest(old(tailtriage.View()), tailtriage.limits, armed.key,
                                         armed.start, end, Cancelled).core
              case None => old(tailtriage.View())
    {
      if state.Some? {
        var armed := state.value;
        state := None;
        tailtriage.ResolveRequest(armed.key, armed.start, end, Cancelled);
      }
    }
  }

  datatype TimedWork = TimedStage(stage: string) | TimedQueue(queue: string, depth: Option<u64>)

  /** The armed part of a stage or queue timer: readiness disarms it, otherwise its drop records a
      partial event. */
  class ArmedTimerRecord {
    const tailtriage: Tailtriage
    const requestId: string
    const work: TimedWork
    var start: Option<IntervalStart>

    constructor (tailtriage: Tailtriage, requestId: string, work: TimedWork, start: IntervalStart)
      ensures this.tailtriage == tailtriage && this.requestId == requestId && this.work == work
      ensures this.start == Some(start)
    {
      this.tailtriage, this.requestId, this.work, this.start := tailtriage, requestId, work, Some(start);
    }

    /** What recording does to the collector; a partial stage is never a success. */
    function Recorded(c: Core, s: IntervalStart, end: IntervalEnd, completed: bool, success: bool): Stepped
    {
      match work
      case TimedStage(stage) =>
        RecordStage(c, tailtriage.limits,
                    StageEvent(requestId, stage, s.unixMs, s.runUs, end.at.unixMs, Some(end.at.runUs), end.durationUs,
                               completed && success, completed))
      case TimedQueue(queue, depth) =>
        RecordQueue(c, tailtriage.limits,
                    QueueEvent(requestId, queue, s.unixMs, s.runUs, end.at.unixMs, Some(end.at.runUs), end.durationUs,
                               depth, completed))
    }

    method Disarm() returns (taken: Option<IntervalStart>)
      modifies this`start
      ensures taken == old(start) && start.None?
    {
      taken := start;
      start := None;
    }

    /** The awaited future became ready: record it as completed unless it was already recorded. */
    method Ready(end: IntervalEnd, success: bool)
      requires tailtriage.Valid()
      modifies this`start, tailtriage
      ensures start.None? && tailtriage.Valid()
      ensures var s := if old(start).Some? then Recorded(old(tailtriage.View()), old(start).value, end, true, success)
                       else Stepped(old(tailtriage.View()), false, false);
              tailtriage.View() == s.core
              && tailtriage.listenerCalls == old(tailtriage.listenerCalls) + if s.notify then 1 else 0
    {
      hide CoreInv;
      var taken := Disarm();
      if taken.Some? {
        Record(taken.value, end, true, success);
      }
    }

    method Drop(end: IntervalEnd)
      requires tailtriage.Valid()
      modifies this`start, tailtriage
      ensures start.None? && tailtriage.Valid()
      ensures var s := if old(start).Some? then Recorded(old(tailtriage.View()), old(start).value, end, false, false)
                       else Stepped(old(tailtriage.View()), false, false);
              tailtriage.View() == s.core
              && tailtriage.listenerCalls == old(tailtriage.listenerCalls) + if s.notify then 1 else 0
    {
      hide CoreInv;
      if start.Some? {
        var s := start.value;
        start := None;
        Record(s, end, false, false);
      }
    }

    method Record(s: IntervalStart, end: IntervalEnd, completed: bool, success: bool)
      requires tailtriage.Valid()
      modifies tailtriage
      ensures tailtriage.Valid()
      ensures var r := Recorded(old(tailtriage.View()), s, end, completed, success);
              tailtriage.View() == r.core
              && tailtriage.listenerCalls == old(tailtriage.listenerCalls) + if r.notify then 1 else 0
    {
      hide CoreInv;
      match work {
        case TimedStage(stage) =>
          tailtriage.RecordStageEvent(
            StageEvent(requestId, stage, s.unixMs, s.runUs, end.at.unixMs, Some(end.at.runUs), end.durationUs,
                       completed && success, completed));
        case TimedQueue(queue, depth) =>
          tailtriage.RecordQueueEvent(
            QueueEvent(requestId, queue, s.unixMs, s.runUs, end.at.unixMs, Some(end.at.runUs), end.durationUs,
                       depth, completed));
      }
    }
  }
}
