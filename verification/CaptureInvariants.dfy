/** What the parts of a capture world keep, each under the steps that touch it: tokens and records,
    gauge counts and guards, retained sections, timers, and shutdown. */
module CaptureInvariants {
  import opened Machine
  import opened Events
  import opened Collector
  import opened Sorting
  import opened CaptureSteps

  // ----- the invariants, each over the part of the world it speaks of

  /** Who owns a drawn key: a start before the lock, or a token that is armed or taken. While
      open, a request is pending exactly when it has a token, and both agree on its start. */
  ghost predicate KeyInv(open: bool, pending: map<Key, Pending>, t: Tokens, k: Key)
  {
    && (k in t.drawn || k in t.armed || k in t.taken || k in pending ==> k < t.nextKey)
    && (k in t.drawn ==> k !in t.armed && k !in t.taken && k !in pending)
    && (k in t.armed ==> k !in t.taken)
    && (open ==>
          && (k in pending <==> k in t.armed || k in t.taken)
          && (k in t.armed ==> t.armed[k] == pending[k].start)
          && (k in t.taken ==> t.taken[k].start == pending[k].start))
  }

  ghost predicate TokenInv(open: bool, pending: map<Key, Pending>, t: Tokens)
  {
    forall k :: KeyInv(open, pending, t, k)
  }

  function EventOf(r: Record): RequestEvent
  {
    RequestEventOf(r.pending, r.taken.start, r.taken.end, r.taken.outcome)
  }

  /** The key was drawn, and nothing can use it any more. */
  ghost predicate Gone(pending: map<Key, Pending>, t: Tokens, k: Key)
  {
    k < t.nextKey && k !in t.drawn && k !in t.armed && k !in t.taken && k !in pending
  }

  ghost predicate RecordAt(requests: seq<RequestEvent>, pending: map<Key, Pending>, t: Tokens, i: nat)
    requires i < |requests| == |t.records|
  {
    && requests[i] == EventOf(t.records[i])
    && t.records[i].taken.start == t.records[i].pending.start
    && Gone(pending, t, t.records[i].key)
  }

  ghost predicate OnePerKey(records: seq<Record>)
  {
    forall i, j :: 0 <= i < j < |records| ==> records[i].key != records[j].key
  }

  /** The retained completions are exactly the recorded ones, one per key. */
  ghost predicate RecordInv(requests: seq<RequestEvent>, pending: map<Key, Pending>, t: Tokens)
  {
    && |t.records| == |requests|
    && (forall i :: 0 <= i < |requests| ==> RecordAt(requests, pending, t, i))
    && OnePerKey(t.records)
  }

  /** Starts offered while open are conserved. */
  ghost predicate StartInv(open: bool, retained: nat, pending: nat, unfinished: nat, dropped: u64, t: Tokens)
  {
    && t.offered == retained + t.refused + (if open then pending else unfinished)
    && (if open then unfinished == 0 else pending == 0)
    && dropped == Min(t.refused, U64_MAX)
  }

  /** A section keeps the first `max` of what it was offered and counts the rest. */
  ghost predicate FirstN<T>(kept: seq<T>, offered: seq<T>, max: nat, dropped: u64, refused: nat)
  {
    && kept == offered[..Min(|offered|, max)]
    && dropped == Min(|offered| - |kept| + refused, U64_MAX)
  }

  ghost predicate NoticeInv(n: Notices, limitsFlag: bool)
  {
    n.owed + n.made == if limitsFlag then 1 else 0
  }

  ghost function Holders(guards: map<GuardId, string>, g: string): set<GuardId>
  {
    set id | id in guards && guards[id] == g
  }

  function CountOf(counts: map<string, u64>, g: string): u64
  {
    if g in counts then counts[g] else 0
  }

  ghost predicate GuardInv(open: bool, counts: map<string, u64>, guards: map<GuardId, string>)
  {
    open ==> forall g :: CountOf(counts, g) == |Holders(guards, g)|
  }

  /** The timer of an offer is done, and measured what the offer says. */
  ghost predicate OfferAt(timers: map<TimerId, Timer>, log: seq<Offer>, i: nat)
    requires i < |log|
  {
    log[i].timer in timers && timers[log[i].timer] == Spent(log[i].work, true)
  }

  ghost predicate Offered(log: seq<Offer>, id: TimerId)
  {
    exists i :: 0 <= i < |log| && log[i].timer == id
  }

  /** The offers are exactly those of the timers that say so, one each. */
  ghost predicate TimerInv(h: Helpers)
  {
    && (forall i :: 0 <= i < |h.log| ==> OfferAt(h.timers, h.log, i))
    && (forall i, j :: 0 <= i < j < |h.log| ==> h.log[i].timer != h.log[j].timer)
    && (forall id :: id in h.timers && h.timers[id].Spent? && h.timers[id].offered ==> Offered(h.log, id))
  }

  /** The caller is between winning finalization and closing the collector. */
  ghost predicate InCharge(cl: Closing, c: CallerId)
  {
    c in cl.callers && (cl.callers[c].Writing? || cl.callers[c].Written?)
  }

  /** A caller that returned was refused for unfinished requests, which only strict capture does, or
      reports the terminal outcome: the winner its own attempt, any other caller the replay of it. */
  ghost predicate Answered(strict: bool, cl: Closing, c: CallerId, t: Option<Terminal>)
    requires c in cl.callers
  {
    cl.callers[c].Returned? ==>
      var r := cl.callers[c].result;
      || (strict && r.UnfinishedRequests? && r.count > 0 && cl.winner != Some(c))
      || (t.Some? && r == if cl.winner == Some(c) then OwnResult(t.value) else ReplayOf(t.value))
  }

  ghost predicate ShutdownInv(cfg: Config, phase: Phase, run: Run, cl: Closing)
  {
    match phase
    case Open =>
      && cl.writes == [] && cl.winner.None?
      && (forall c :: c in cl.callers ==> cl.callers[c].Returned? && Answered(cfg.strict, cl, c, None))
    case Finalizing =>
      && cl.winner.Some? && InCharge(cl, cl.winner.value)
      && (forall c :: InCharge(cl, c) ==> c == cl.winner.value)
      && (cl.callers[cl.winner.value].Writing? ==>
            cl.callers[cl.winner.value].candidate == run && cl.writes == [])
      && (cl.callers[cl.winner.value].Written? ==> cl.writes == [cfg.norm(run)])
      && (forall c :: c in cl.callers ==> Answered(cfg.strict, cl, c, None))
    case Closed(t) =>
      && cl.winner.Some? && cl.winner.value in cl.callers && cl.callers[cl.winner.value].Returned?
      && cl.writes == [cfg.norm(run)]
      && (forall c :: c in cl.callers ==> !InCharge(cl, c) && Answered(cfg.strict, cl, c, Some(t)))
  }

  // ----- admission and completion

  lemma AdmitKeepsTokens(lim: Limits, c: Core, t: Tokens, k: Key)
    requires TokenInv(c.phase.Open?, c.pending, t) && k in t.drawn
    ensures TokenInv(c.phase.Open?, StartRequest(c, lim, k, t.drawn[k]).core.pending,
                     TokenStep(lim, c, t, AdmitStart(k)))
  {
    var c', t' := StartRequest(c, lim, k, t.drawn[k]).core, TokenStep(lim, c, t, AdmitStart(k));
    assert KeyInv(c.phase.Open?, c.pending, t, k);
    forall j ensures KeyInv(c.phase.Open?, c'.pending, t', j) {
      assert KeyInv(c.phase.Open?, c.pending, t, j);
    }
  }

  lemma ResolveKeepsTokens(open: bool, pending: map<Key, Pending>, t: Tokens, t': Tokens, k: Key)
    requires TokenInv(open, pending, t) && k in t.taken
    requires t' == t.(taken := t.taken - {k}, records := t'.records)
    ensures TokenInv(open, if open then pending - {k} else pending, t')
  {
    var pending' := if open then pending - {k} else pending;
    forall j ensures KeyInv(open, pending', t', j) {
      assert KeyInv(open, pending, t, j);
    }
  }

  lemma DrawAndTakeKeepTokens(lim: Limits, c: Core, t: Tokens, a: TokenAction)
    requires TokenInv(c.phase.Open?, c.pending, t) && TokenEnabled(t, a)
    requires a.DrawStart? || a.TakeToken?
    ensures TokenInv(c.phase.Open?, c.pending, TokenStep(lim, c, t, a))
  {
    forall j ensures KeyInv(c.phase.Open?, c.pending, TokenStep(lim, c, t, a), j) {
      assert KeyInv(c.phase.Open?, c.pending, t, j);
    }
  }

  lemma TokenStepKeepsTokens(lim: Limits, c: Core, t: Tokens, a: TokenAction)
    requires CoreInv(c, lim) && TokenInv(c.phase.Open?, c.pending, t) && TokenEnabled(t, a)
    ensures var c' := TokenSection(lim, c, t, a).core;
            TokenInv(c'.phase.Open?, c'.pending, TokenStep(lim, c, t, a))
  {
    match a
    case AdmitStart(k) =>
      hide CoreInv, TokenInv;
      AdmitKeepsTokens(lim, c, t, k);
    case ResolveToken(k) =>
      assert KeyInv(c.phase.Open?, c.pending, t, k);
      hide CoreInv, TokenInv, KeyInv;
      ResolveNeverDrops(c, lim, k, t.taken[k].start, t.taken[k].end, t.taken[k].outcome);
      ResolveKeepsTokens(c.phase.Open?, c.pending, t, TokenStep(lim, c, t, a), k);
    case _ =>
      hide CoreInv, TokenInv;
      DrawAndTakeKeepTokens(lim, c, t, a);
  }

  /** A resolving token always finds its pending request while capture is open, and takes the
      key out of circulation. */
  lemma ResolveKeepsRecords(requests: seq<RequestEvent>, pending: map<Key, Pending>, t: Tokens, k: Key)
    requires TokenInv(true, pending, t) && k in t.taken && k in pending
    requires RecordInv(requests, pending, t)
    ensures var r := Record(k, pending[k], t.taken[k]);
            RecordInv(requests + [EventOf(r)], pending - {k}, t.(taken := t.taken - {k}, records := t.records + [r]))
  {
    assert KeyInv(true, pending, t, k);
    var r := Record(k, pending[k], t.taken[k]);
    var requests', pending', t' :=
      requests + [EventOf(r)], pending - {k}, t.(taken := t.taken - {k}, records := t.records + [r]);
    forall i | 0 <= i < |requests'| ensures RecordAt(requests', pending', t', i) {
      assert i < |requests| ==> RecordAt(requests, pending, t, i);
    }
    forall i | 0 <= i < |t.records| ensures t.records[i].key != k {
      assert RecordAt(requests, pending, t, i);
    }
  }

  lemma OthersKeepRecords(lim: Limits, c: Core, t: Tokens, a: TokenAction)
    requires TokenEnabled(t, a) && !a.ResolveToken?
    requires RecordInv(c.run.requests, c.pending, t)
    ensures var c' := TokenSection(lim, c, t, a).core;
            RecordInv(c'.run.requests, c'.pending, TokenStep(lim, c, t, a))
  {
    hide OnePerKey;
    var c', t' := TokenSection(lim, c, t, a).core, TokenStep(lim, c, t, a);
    forall i | 0 <= i < |c.run.requests| ensures RecordAt(c'.run.requests, c'.pending, t', i) {
      assert RecordAt(c.run.requests, c.pending, t, i);
    }
  }

  lemma TokenStepKeepsRecords(lim: Limits, c: Core, t: Tokens, a: TokenAction)
    requires CoreInv(c, lim) && TokenInv(c.phase.Open?, c.pending, t) && TokenEnabled(t, a)
    requires RecordInv(c.run.requests, c.pending, t)
    ensures var c' := TokenSection(lim, c, t, a).core;
            RecordInv(c'.run.requests, c'.pending, TokenStep(lim, c, t, a))
  {
    if a.ResolveToken? {
      assert KeyInv(c.phase.Open?, c.pending, t, a.key);
      hide CoreInv, TokenInv, KeyInv, OnePerKey;
      ResolveNeverDrops(c, lim, a.key, t.taken[a.key].start, t.taken[a.key].end, t.taken[a.key].outcome);
      if c.phase.Open? {
        hide RecordInv;
        ResolveKeepsRecords(c.run.requests, c.pending, t, a.key);
      } else {
        forall i | 0 <= i < |c.run.requests|
          ensures RecordAt(c.run.requests, c.pending, TokenStep(lim, c, t, a), i)
        {
          assert RecordAt(c.run.requests, c.pending, t, i);
        }
      }
    } else {
      hide CoreInv, TokenInv, RecordInv;
      OthersKeepRecords(lim, c, t, a);
    }
  }

  lemma TokenStepKeepsStarts(lim: Limits, c: Core, t: Tokens, a: TokenAction)
    requires CoreInv(c, lim) && TokenEnabled(t, a)
    requires TokenInv(c.phase.Open?, c.pending, t)
    requires StartInv(c.phase.Open?, |c.run.requests|, |c.pending|, c.run.metadata.unfinishedCount,
                      c.run.truncation.droppedRequests, t)
    ensures var c' := TokenSection(lim, c, t, a).core;
            StartInv(c'.phase.Open?, |c'.run.requests|, |c'.pending|, c'.run.metadata.unfinishedCount,
                     c'.run.truncation.droppedRequests, TokenStep(lim, c, t, a))
  {
    hide CoreInv;
    match a
    case AdmitStart(k) =>
      assert KeyInv(c.phase.Open?, c.pending, t, k);
      GrowMap(c.pending, k, t.drawn[k]);
    case ResolveToken(k) =>
      ResolveNeverDrops(c, lim, k, t.taken[k].start, t.taken[k].end, t.taken[k].outcome);
      assert KeyInv(c.phase.Open?, c.pending, t, k);
      if c.phase.Open? {
        ShrinkMap(c.pending, k);
      }
    case _ =>
  }

  lemma TokenStepKeepsCore(lim: Limits, c: Core, t: Tokens, a: TokenAction)
    requires CoreInv(c, lim) && TokenEnabled(t, a)
    ensures CoreInv(TokenSection(lim, c, t, a).core, lim)
  {
    hide CoreInv;
    match a
    case AdmitStart(k) => StartKeepsInv(c, lim, k, t.drawn[k]);
    case ResolveToken(k) =>
      ResolveNeverDrops(c, lim, k, t.taken[k].start, t.taken[k].end, t.taken[k].outcome);
    case _ =>
  }

  // ----- the live counts and the guards

  lemma HoldersAfterAcquire(guards: map<GuardId, string>, id: GuardId, g: string, x: string)
    requires id !in guards
    ensures |Holders(guards[id := g], x)| == |Holders(guards, x)| + if x == g then 1 else 0
  {
    if x == g {
      assert Holders(guards[id := g], x) == Holders(guards, x) + {id};
    } else {
      assert Holders(guards[id := g], x) == Holders(guards, x);
    }
  }

  lemma HoldersAfterRelease(guards: map<GuardId, string>, id: GuardId, x: string)
    requires id in guards
    ensures |Holders(guards - {id}, x)| == |Holders(guards, x)| - if x == guards[id] then 1 else 0
  {
    if x == guards[id] {
      assert Holders(guards - {id}, x) == Holders(guards, x) - {id};
    } else {
      assert Holders(guards - {id}, x) == Holders(guards, x);
    }
  }

  /** Acquiring never wraps the live count and keeps it equal to the number of holders. */
  lemma AcquireKeepsCounts(lim: Limits, c: Core, g: Gauges, id: GuardId, gauge: string, at: ClockSample)
    requires CoreInv(c, lim) && GuardInv(true, c.counts, g.guards) && c.phase.Open?
    requires GaugeEnabled(g, Acquire(id, gauge, at))
    ensures var s := OpenGuard(c, lim, gauge, at);
            CoreInv(s.core, lim) &&
            GuardInv(true, s.core.counts, if s.admitted then g.guards[id := gauge] else g.guards)
  {
    assert CountOf(c.counts, gauge) == |Holders(g.guards, gauge)|;
    SubsetSize(Holders(g.guards, gauge), g.guards.Keys);
    OpenGuardKeepsInv(c, lim, gauge, at);
    var s := OpenGuard(c, lim, gauge, at);
    if s.admitted {
      forall x ensures CountOf(s.core.counts, x) == |Holders(g.guards[id := gauge], x)| {
        HoldersAfterAcquire(g.guards, id, gauge, x);
        assert CountOf(c.counts, x) == |Holders(g.guards, x)|;
      }
    }
  }

  /** A live guard's gauge is counted above zero, so neither early return of its drop is taken. */
  lemma ReleaseKeepsCounts(lim: Limits, c: Core, g: Gauges, id: GuardId, at: ClockSample)
    requires CoreInv(c, lim) && GuardInv(true, c.counts, g.guards) && c.phase.Open?
    requires id in g.guards
    ensures var s := DropGuard(c, lim, g.guards[id], at);
            s.admitted && CoreInv(s.core, lim) && GuardInv(true, s.core.counts, g.guards - {id})
  {
    var gauge := g.guards[id];
    assert id in Holders(g.guards, gauge);
    assert CountOf(c.counts, gauge) == |Holders(g.guards, gauge)|;
    DropGuardKeepsInv(c, lim, gauge, at);
    var s := DropGuard(c, lim, gauge, at);
    forall x ensures CountOf(s.core.counts, x) == |Holders(g.guards - {id}, x)| {
      HoldersAfterRelease(g.guards, id, x);
      assert CountOf(c.counts, x) == |Holders(g.guards, x)|;
    }
  }

  lemma GaugeStepKeepsCounts(lim: Limits, c: Core, g: Gauges, a: GaugeAction)
    requires CoreInv(c, lim) && GuardInv(c.phase.Open?, c.counts, g.guards) && GaugeEnabled(g, a)
    ensures var c' := GaugeSection(lim, c, g, a).core;
            CoreInv(c', lim) && GuardInv(c'.phase.Open?, c'.counts, GaugeStep(lim, c, g, a).guards)
  {
    if c.phase.Open? {
      hide CoreInv, GuardInv;
      match a
      case Acquire(id, gauge, at) => AcquireKeepsCounts(lim, c, g, id, gauge, at);
      case Release(id, at) => ReleaseKeepsCounts(lim, c, g, id, at);
    }
  }

  lemma GaugeStepKeepsSection(lim: Limits, c: Core, g: Gauges, a: GaugeAction)
    requires FirstN(c.run.inflight, g.offered, lim.maxInflight, c.run.truncation.droppedInflight, g.refused)
    requires GaugeEnabled(g, a)
    ensures var c', g' := GaugeSection(lim, c, g, a).core, GaugeStep(lim, c, g, a);
            FirstN(c'.run.inflight, g'.offered, lim.maxInflight, c'.run.truncation.droppedInflight, g'.refused)
  {
    match a
    case Acquire(id, gauge, at) =>
      if OpenGuard(c, lim, gauge, at).admitted {
        AcquireOffers(lim, c, g, id, gauge, at);
      }
    case Release(id, at) =>
      if DropGuard(c, lim, g.guards[id], at).admitted {
        ReleaseOffers(lim, c, g, id, at);
      }
  }

  lemma AcquireOffers(lim: Limits, c: Core, g: Gauges, id: GuardId, gauge: string, at: ClockSample)
    requires FirstN(c.run.inflight, g.offered, lim.maxInflight, c.run.truncation.droppedInflight, g.refused)
    requires GaugeEnabled(g, Acquire(id, gauge, at)) && OpenGuard(c, lim, gauge, at).admitted
    ensures var a := Acquire(id, gauge, at); var c', g' := GaugeSection(lim, c, g, a).core, GaugeStep(lim, c, g, a);
            FirstN(c'.run.inflight, g'.offered, lim.maxInflight, c'.run.truncation.droppedInflight, g'.refused)
  {
    hide FirstN;
    var count := OpenGuard(c, lim, gauge, at).core.counts[gauge];
    PushInflightKeepsFirstN(c.run, lim.maxInflight, g.offered, Transition(gauge, at, count), g.refused);
  }

  lemma ReleaseOffers(lim: Limits, c: Core, g: Gauges, id: GuardId, at: ClockSample)
    requires FirstN(c.run.inflight, g.offered, lim.maxInflight, c.run.truncation.droppedInflight, g.refused)
    requires GaugeEnabled(g, Release(id, at)) && DropGuard(c, lim, g.guards[id], at).admitted
    ensures var a := Release(id, at); var c', g' := GaugeSection(lim, c, g, a).core, GaugeStep(lim, c, g, a);
            FirstN(c'.run.inflight, g'.offered, lim.maxInflight, c'.run.truncation.droppedInflight, g'.refused)
  {
    hide FirstN;
    var gauge := g.guards[id];
    PushInflightKeepsFirstN(c.run, lim.maxInflight, g.offered, Transition(gauge, at, c.counts[gauge] - 1), g.refused);
  }

  lemma PushInflightKeepsFirstN(run: Run, max: nat, offered: seq<InFlightSnapshot>, e: InFlightSnapshot, refused: nat)
    requires FirstN(run.inflight, offered, max, run.truncation.droppedInflight, refused)
    ensures var run' := PushInflight(run, max, e).0;
            FirstN(run'.inflight, offered + [e], max, run'.truncation.droppedInflight, refused)
  {}

  // ----- timer helpers

  lemma HelperStepKeepsTimers(c: Core, h: Helpers, a: HelperAction)
    requires TimerInv(h) && HelperEnabled(h, a)
    ensures TimerInv(HelperStep(c, h, a))
  {
    var h' := HelperStep(c, h, a);
    forall i | 0 <= i < |h'.log| ensures OfferAt(h'.timers, h'.log, i) {
      assert i < |h.log| ==> OfferAt(h.timers, h.log, i);
    }
    forall i, j | 0 <= i < j < |h'.log| ensures h'.log[i].timer != h'.log[j].timer {
      assert OfferAt(h.timers, h.log, i);
    }
    forall id | id in h'.timers && h'.timers[id].Spent? && h'.timers[id].offered ensures Offered(h'.log, id) {
      if id == a.timer {
        assert h'.log[|h.log|].timer == id;
      } else {
        assert Offered(h.log, id);
        var i :| 0 <= i < |h.log| && h.log[i].timer == id;
        assert h'.log[i].timer == id;
      }
    }
  }

  lemma OneMoreOffer(log: seq<Offer>, x: Offer)
    ensures StagesIn(log + [x]) == StagesIn(log) + if x.work.subject.OfStage? then [StageEventOf(x.work)] else []
    ensures QueuesIn(log + [x]) == QueuesIn(log) + if x.work.subject.OfQueue? then [QueueEventOf(x.work)] else []
  {
    assert (log + [x])[..|log|] == log;
  }

  lemma PushStageKeepsFirstN(run: Run, max: nat, offered: seq<StageEvent>, e: StageEvent)
    requires FirstN(run.stages, offered, max, run.truncation.droppedStages, 0)
    ensures var run' := PushStage(run, max, e).0;
            FirstN(run'.stages, offered + [e], max, run'.truncation.droppedStages, 0)
  {}

  lemma PushQueueKeepsFirstN(run: Run, max: nat, offered: seq<QueueEvent>, e: QueueEvent)
    requires FirstN(run.queues, offered, max, run.truncation.droppedQueues, 0)
    ensures var run' := PushQueue(run, max, e).0;
            FirstN(run'.queues, offered + [e], max, run'.truncation.droppedQueues, 0)
  {}

  lemma HelperStepKeepsSections(lim: Limits, c: Core, h: Helpers, a: HelperAction)
    requires FirstN(c.run.stages, StagesIn(h.log), lim.maxStages, c.run.truncation.droppedStages, 0)
    requires FirstN(c.run.queues, QueuesIn(h.log), lim.maxQueues, c.run.truncation.droppedQueues, 0)
    requires HelperEnabled(h, a)
    ensures var c', h' := HelperSection(lim, c, h, a).core, HelperStep(c, h, a);
            && FirstN(c'.run.stages, StagesIn(h'.log), lim.maxStages, c'.run.truncation.droppedStages, 0)
            && FirstN(c'.run.queues, QueuesIn(h'.log), lim.maxQueues, c'.run.truncation.droppedQueues, 0)
  {
    hide FirstN, StagesIn, QueuesIn;
    if a.RecordTimer? && c.phase.Open? {
      var e := h.timers[a.timer].work;
      OneMoreOffer(h.log, Offer(a.timer, e));
      if e.subject.OfStage? {
        PushStageKeepsFirstN(c.run, lim.maxStages, StagesIn(h.log), StageEventOf(e));
        assert QueuesIn(h.log) + [] == QueuesIn(h.log);
      } else {
        PushQueueKeepsFirstN(c.run, lim.maxQueues, QueuesIn(h.log), QueueEventOf(e));
        assert StagesIn(h.log) + [] == StagesIn(h.log);
      }
    }
  }

  lemma HelperStepKeepsCore(lim: Limits, c: Core, h: Helpers, a: HelperAction)
    requires CoreInv(c, lim) && HelperEnabled(h, a)
    ensures CoreInv(HelperSection(lim, c, h, a).core, lim)
  {}

  // ----- shutdown

  lemma CallKeepsShutdown(cfg: Config, c: Core, cl: Closing, a: ClosingAction)
    requires ShutdownInv(cfg, c.phase, c.run, cl) && ClosingEnabled(cl, a)
    requires a.CallShutdown?
    ensures var c', cl' := ClosingCore(cfg, c, cl, a), ClosingStep(cfg, c, cl, a);
            ShutdownInv(cfg, c'.phase, c'.run, cl')
  {
    var c', cl' := ClosingCore(cfg, c, cl, a), ClosingStep(cfg, c, cl, a);
    forall x | x in cl'.callers && x != a.caller ensures x in cl.callers && cl'.callers[x] == cl.callers[x] {}
    forall x | x in cl.callers ensures Answered(cfg.strict, cl, x, TerminalOf(c.phase)) {}
    if c.phase.Finalizing? {
      assert InCharge(cl', cl.winner.value);
    }
    forall x | InCharge(cl', x) && x != a.caller ensures InCharge(cl, x) {}
  }

  function TerminalOf(p: Phase): Option<Terminal>
  {
    if p.Closed? then Some(p.terminal) else None
  }

  lemma WakeKeepsShutdown(cfg: Config, c: Core, cl: Closing, a: ClosingAction)
    requires ShutdownInv(cfg, c.phase, c.run, cl) && ClosingEnabled(cl, a)
    requires a.WakeShutdown?
    ensures var c', cl' := ClosingCore(cfg, c, cl, a), ClosingStep(cfg, c, cl, a);
            ShutdownInv(cfg, c'.phase, c'.run, cl')
  {}

  lemma WinnerKeepsShutdown(cfg: Config, c: Core, cl: Closing, a: ClosingAction)
    requires ShutdownInv(cfg, c.phase, c.run, cl) && ClosingEnabled(cl, a)
    requires a.WriteSink? || a.CloseShutdown?
    ensures var c', cl' := ClosingCore(cfg, c, cl, a), ClosingStep(cfg, c, cl, a);
            ShutdownInv(cfg, c'.phase, c'.run, cl')
  {
    var cl' := ClosingStep(cfg, c, cl, a);
    assert InCharge(cl, a.caller) && c.phase.Finalizing? && cl.winner == Some(a.caller);
    forall x | x in cl'.callers && x != a.caller ensures x in cl.callers && cl'.callers[x] == cl.callers[x] {}
    forall x | x in cl.callers ensures Answered(cfg.strict, cl, x, None) {}
    forall x | InCharge(cl', x) ensures InCharge(cl, x) {}
    assert a.WriteSink? ==> InCharge(cl', a.caller);
  }

  lemma ClosingStepKeepsShutdown(cfg: Config, c: Core, cl: Closing, a: ClosingAction)
    requires ShutdownInv(cfg, c.phase, c.run, cl) && ClosingEnabled(cl, a)
    ensures var c', cl' := ClosingCore(cfg, c, cl, a), ClosingStep(cfg, c, cl, a);
            ShutdownInv(cfg, c'.phase, c'.run, cl')
  {
    hide ShutdownInv;
    match a
    case CallShutdown(_, _) => CallKeepsShutdown(cfg, c, cl, a);
    case WakeShutdown(_) => WakeKeepsShutdown(cfg, c, cl, a);
    case _ => WinnerKeepsShutdown(cfg, c, cl, a);
  }
}
