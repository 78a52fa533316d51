/** The capture collector as a concurrent protocol: what holds over every run of any number of
    threads, whatever the interleaving. */
module CaptureProtocol {
  import opened Machine
  import opened Events
  import opened Collector
  import opened Sorting
  import opened CaptureSteps
  import opened CaptureInvariants
  import opened CaptureWorld

  // ----- safety over whole runs

  ghost predicate Inv(cfg: Config, w: World)
  {
    && WorldCounts(cfg, w)
    && WorldTokens(w)
    && WorldSections(cfg.limits, w)
    && NoticeInv(w.notices, w.core.limitsFlag)
    && TimerInv(w.helpers)
    && WorldShutdown(cfg, w)
  }

  lemma NobodyHolds()
    ensures GuardInv(true, map[], map[])
  {
    forall g ensures CountOf(map[], g) == |Holders(map[], g)| {
      assert Holders(map[], g) == {};
    }
  }

  lemma StartHasNoTokens()
    ensures WorldTokens(START)
  {}

  lemma StartHasNoSections(cfg: Config)
    ensures WorldSections(cfg.limits, START) && CoreInv(START.core, cfg.limits)
  {}

  lemma StartHasNoTimers()
    ensures TimerInv(START.helpers)
  {}

  lemma StartHasNoCallers(cfg: Config)
    ensures WorldShutdown(cfg, START)
  {}

  lemma StartOwesNothing()
    ensures NoticeInv(START.notices, START.core.limitsFlag)
  {}

  lemma StartIsGood(cfg: Config)
    ensures Inv(cfg, START)
  {
    hide GuardInv, WorldTokens, WorldSections, CoreInv, NoticeInv, TimerInv, WorldShutdown;
    NobodyHolds();
    StartHasNoTokens();
    StartHasNoSections(cfg);
    StartHasNoTimers();
    StartHasNoCallers(cfg);
    StartOwesNothing();
  }

  lemma StepKeepsInv(cfg: Config, w: World, a: Action)
    requires Inv(cfg, w) && Enabled(w, a)
    ensures Inv(cfg, Next(cfg, w, a))
  {
    hide Next, Enabled, WorldTokens, WorldSections, WorldShutdown, NoticeInv, TimerInv, CoreInv, GuardInv;
    StepKeepsCounts(cfg, w, a);
    StepKeepsTokens(cfg, w, a);
    StepKeepsSections(cfg, w, a);
    StepKeepsNotices(cfg, w, a);
    StepKeepsTimers(cfg, w, a);
    StepKeepsShutdown(cfg, w, a);
  }

  /** Whatever the interleaving, every reachable world satisfies the invariants. */
  lemma {:induction false} Always(cfg: Config, run: seq<Action>)
    ensures After(cfg, run).Some? ==> Inv(cfg, After(cfg, run).value)
  {
    hide Inv, Next, Enabled;
    if run == [] {
      StartIsGood(cfg);
    } else if After(cfg, run).Some? {
      Always(cfg, run[..|run| - 1]);
      StepKeepsInv(cfg, After(cfg, run[..|run| - 1]).value, run[|run| - 1]);
    }
  }

  // ----- what the invariants mean

  /** Admission reserves the room completion needs: capacity is never exceeded, a resolving token
      finds its request and records it without dropping, and every start offered while open is
      retained, pending, refused or, after finalization, counted as unfinished. */
  lemma AdmissionReservesAndConserves(cfg: Config, run: seq<Action>)
    requires After(cfg, run).Some?
    ensures var w := After(cfg, run).value; var r := w.core.run;
            && |r.requests| + |w.core.pending| <= cfg.limits.maxRequests
            && r.truncation.droppedRequests == Min(w.tokens.refused, U64_MAX)
            && w.tokens.offered == |r.requests| + w.tokens.refused
                 + (if w.core.phase.Open? then |w.core.pending| else r.metadata.unfinishedCount)
            && (w.core.phase.Open? ==> forall k :: k in w.tokens.taken ==>
                  && k in w.core.pending
                  && Next(cfg, w, OnToken(ResolveToken(k))).core.run
                     == r.(requests := r.requests + [EventOf(Record(k, w.core.pending[k], w.tokens.taken[k]))]))
  {
    Always(cfg, run);
    var w := After(cfg, run).value;
    assert CoreInv(w.core, cfg.limits) && WorldTokens(w);
    if w.core.phase.Open? {
      forall k | k in w.tokens.taken ensures ResolvesInto(cfg, w, k) {
        TakenResolves(cfg, w, k);
      }
    }
  }

  ghost predicate ResolvesInto(cfg: Config, w: World, k: Key)
    requires k in w.tokens.taken
  {
    && k in w.core.pending
    && Next(cfg, w, OnToken(ResolveToken(k))).core.run
       == w.core.run.(requests := w.core.run.requests + [EventOf(Record(k, w.core.pending[k], w.tokens.taken[k]))])
  }

  lemma TakenResolves(cfg: Config, w: World, k: Key)
    requires CoreInv(w.core, cfg.limits) && TokenInv(true, w.core.pending, w.tokens)
    requires w.core.phase.Open? && k in w.tokens.taken
    ensures ResolvesInto(cfg, w, k)
  {
    hide CoreInv;
    assert KeyInv(true, w.core.pending, w.tokens, k);
    var x := w.tokens.taken[k];
    ResolveNeverDrops(w.core, cfg.limits, k, x.start, x.end, x.outcome);
  }

  /** Each admitted completion is recorded at most once: retained requests are the recorded
      completions in order, no key is recorded twice, and a recorded key has no token left. */
  lemma CompletionsRecordOnce(cfg: Config, run: seq<Action>)
    requires After(cfg, run).Some?
    ensures var w := After(cfg, run).value; var t := w.tokens;
            && |w.core.run.requests| == |t.records|
            && (forall i :: 0 <= i < |t.records| ==> w.core.run.requests[i] == EventOf(t.records[i]))
            && (forall i, j :: 0 <= i < j < |t.records| ==> t.records[i].key != t.records[j].key)
            && (forall i :: 0 <= i < |t.records| ==>
                  t.records[i].key !in t.drawn && t.records[i].key !in t.armed && t.records[i].key !in t.taken)
  {
    Always(cfg, run);
    var w := After(cfg, run).value;
    hide After, StartInv, TokenInv, WorldCounts, WorldSections, NoticeInv, TimerInv, WorldShutdown;
    assert WorldTokens(w);
    forall i | 0 <= i < |w.tokens.records|
      ensures w.core.run.requests[i] == EventOf(w.tokens.records[i])
      ensures Gone(w.core.pending, w.tokens, w.tokens.records[i].key)
    {
      assert RecordAt(w.core.run.requests, w.core.pending, w.tokens, i);
    }
  }

  // ----- what a timer went through

  /** The steps of a run that one timer took, in order. */
  function StepsOf(run: seq<Action>, id: TimerId): seq<HelperAction>
  {
    if run == [] then []
    else
      var a := run[|run| - 1];
      StepsOf(run[..|run| - 1], id) + if a.OnHelper? && a.h.timer == id then [a.h] else []
  }

  /** Admitted, polled, and then ready when what it measured is completed, dropped when it is not. */
  function Life(id: TimerId, e: Ended): seq<HelperAction>
  {
    [NewTimer(id, e.subject, true), PollTimer(id, e.start),
     if e.completed then ReadyTimer(id, e.end, e.success) else DropTimer(id, e.end)]
  }

  function Story(id: TimerId, t: Timer): seq<HelperAction>
  {
    match t
    case Inert(s) => [NewTimer(id, s, false)]
    case Unpolled(s) => [NewTimer(id, s, true)]
    case Armed(s, start) => [NewTimer(id, s, true), PollTimer(id, start)]
    case Recording(e) => Life(id, e)
    case Abandoned(s, end) => [NewTimer(id, s, true), DropTimer(id, end)]
    case Spent(e, _) => Life(id, e) + [RecordTimer(id)]
  }

  /** The state of a timer says exactly which steps it took, and in which order. */
  lemma {:induction false} TimerTellsItsStory(cfg: Config, run: seq<Action>, id: TimerId)
    requires After(cfg, run).Some?
    ensures var timers := After(cfg, run).value.helpers.timers;
            StepsOf(run, id) == if id in timers then Story(id, timers[id]) else []
    decreases |run|
  {
    if run != [] {
      var n := |run| - 1;
      var w, a := After(cfg, run[..n]).value, run[n];
      TimerTellsItsStory(cfg, run[..n], id);
      hide After, Next, HelperStep, Story;
      HelpersAfter(cfg, w, a);
      if a.OnHelper? {
        StoryGrows(w.core, w.helpers, a.h, id);
      }
    }
  }

  lemma HelpersAfter(cfg: Config, w: World, a: Action)
    requires Enabled(w, a)
    ensures Next(cfg, w, a).helpers == if a.OnHelper? then HelperStep(w.core, w.helpers, a.h) else w.helpers
  {
    hide TokenSection, TokenStep, GaugeSection, GaugeStep, HelperSection, HelperStep, ClosingStep, ClosingCore;
  }

  lemma StoryGrows(c: Core, h: Helpers, a: HelperAction, id: TimerId)
    requires HelperEnabled(h, a)
    ensures var h' := HelperStep(c, h, a);
            (if id in h'.timers then Story(id, h'.timers[id]) else []) ==
            (if id in h.timers then Story(id, h.timers[id]) else []) + if a.timer == id then [a] else []
  {}

  /** Exactly-once recording by timers: the retained stage and queue events are the first of those the
      log offers, in order; each offer is the whole life of one timer, which was admitted, polled, then
      ready or dropped, and then recorded; no timer offers twice, and one that was refused, never polled
      or not yet recorded offers nothing. */
  lemma TimersOfferOnce(cfg: Config, run: seq<Action>)
    requires After(cfg, run).Some?
    ensures var w := After(cfg, run).value; var h := w.helpers;
            && w.core.run.stages == StagesIn(h.log)[..Min(|StagesIn(h.log)|, cfg.limits.maxStages)]
            && w.core.run.queues == QueuesIn(h.log)[..Min(|QueuesIn(h.log)|, cfg.limits.maxQueues)]
            && (forall i :: 0 <= i < |h.log| ==>
                  StepsOf(run, h.log[i].timer) ==
                  Life(h.log[i].timer, h.log[i].work) + [RecordTimer(h.log[i].timer)])
            && (forall i, j :: 0 <= i < j < |h.log| ==> h.log[i].timer != h.log[j].timer)
            && (forall id :: id in h.timers ==>
                  (Offered(h.log, id) <==> h.timers[id].Spent? && h.timers[id].offered))
  {
    hide After, StepsOf, Inv, StagesIn, QueuesIn, WorldSections, TimerInv, Offered, Life;
    var w := After(cfg, run).value;
    Always(cfg, run);
    GoodTimers(cfg, w);
    SectionsOfHelpers(cfg.limits, w);
    LoggedOnce(w.helpers);
    forall i | 0 <= i < |w.helpers.log|
      ensures StepsOf(run, w.helpers.log[i].timer) ==
              Life(w.helpers.log[i].timer, w.helpers.log[i].work) + [RecordTimer(w.helpers.log[i].timer)]
    {
      TimerTellsItsStory(cfg, run, w.helpers.log[i].timer);
    }
  }

  lemma GoodTimers(cfg: Config, w: World)
    requires Inv(cfg, w)
    ensures TimerInv(w.helpers) && WorldSections(cfg.limits, w)
  {
    hide WorldCounts, WorldTokens, WorldSections, NoticeInv, TimerInv, WorldShutdown;
  }

  lemma SectionsOfHelpers(lim: Limits, w: World)
    requires WorldSections(lim, w)
    ensures w.core.run.stages == StagesIn(w.helpers.log)[..Min(|StagesIn(w.helpers.log)|, lim.maxStages)]
    ensures w.core.run.queues == QueuesIn(w.helpers.log)[..Min(|QueuesIn(w.helpers.log)|, lim.maxQueues)]
  {
    hide StagesIn, QueuesIn;
  }

  /** Each logged timer is spent on the work it is logged with. */
  lemma LoggedOnce(h: Helpers)
    requires TimerInv(h)
    ensures forall i :: 0 <= i < |h.log| ==>
              h.log[i].timer in h.timers && h.timers[h.log[i].timer] == Spent(h.log[i].work, true)
    ensures forall i, j :: 0 <= i < j < |h.log| ==> h.log[i].timer != h.log[j].timer
    ensures forall id :: id in h.timers ==> (Offered(h.log, id) <==> h.timers[id].Spent? && h.timers[id].offered)
  {
    forall i | 0 <= i < |h.log|
      ensures h.log[i].timer in h.timers && h.timers[h.log[i].timer] == Spent(h.log[i].work, true)
    {
      assert OfferAt(h.timers, h.log, i);
    }
  }

  lemma {:induction false} StepsOfAre(run: seq<Action>, id: TimerId, a: HelperAction)
    requires a.timer == id
    ensures a in StepsOf(run, id) <==> OnHelper(a) in run
  {
    if run != [] {
      StepsOfAre(run[..|run| - 1], id, a);
      assert run == run[..|run| - 1] + [run[|run| - 1]];
    }
  }

  /** An offered event is completed exactly when its timer became ready somewhere in the run, and
      partial exactly when the timer was dropped, at the end and with the success the event reports. */
  lemma CompletedMeansReady(cfg: Config, run: seq<Action>, i: nat)
    requires After(cfg, run).Some? && i < |After(cfg, run).value.helpers.log|
    ensures var x := After(cfg, run).value.helpers.log[i];
            && OnHelper(PollTimer(x.timer, x.work.start)) in run
            && (forall end, ok :: OnHelper(ReadyTimer(x.timer, end, ok)) in run <==>
                  x.work.completed && end == x.work.end && ok == x.work.success)
            && (forall end :: OnHelper(DropTimer(x.timer, end)) in run <==> !x.work.completed && end == x.work.end)
  {
    TimersOfferOnce(cfg, run);
    var x := After(cfg, run).value.helpers.log[i];
    hide After, StepsOf, Life;
    forall a: HelperAction | a.timer == x.timer
      ensures OnHelper(a) in run <==> a in Life(x.timer, x.work) + [RecordTimer(x.timer)]
    {
      StepsOfAre(run, x.timer, a);
    }
    forall a: HelperAction ensures InLife(x.timer, x.work, a) { LifeHas(x.timer, x.work, a); }
    assert InLife(x.timer, x.work, PollTimer(x.timer, x.work.start));
    forall end, ok ensures OnHelper(ReadyTimer(x.timer, end, ok)) in run <==>
                           x.work.completed && end == x.work.end && ok == x.work.success
    {
      assert InLife(x.timer, x.work, ReadyTimer(x.timer, end, ok));
    }
    forall end ensures OnHelper(DropTimer(x.timer, end)) in run <==> !x.work.completed && end == x.work.end {
      assert InLife(x.timer, x.work, DropTimer(x.timer, end));
    }
  }

  ghost predicate InLife(id: TimerId, e: Ended, a: HelperAction)
  {
    a in Life(id, e) + [RecordTimer(id)] <==>
      || a == NewTimer(id, e.subject, true) || a == PollTimer(id, e.start) || a == RecordTimer(id)
      || a == if e.completed then ReadyTimer(id, e.end, e.success) else DropTimer(id, e.end)
  }

  lemma LifeHas(id: TimerId, e: Ended, a: HelperAction)
    ensures InLife(id, e, a)
  {
    var last := if e.completed then ReadyTimer(id, e.end, e.success) else DropTimer(id, e.end);
    assert Life(id, e) + [RecordTimer(id)] ==
           [NewTimer(id, e.subject, true), PollTimer(id, e.start), last, RecordTimer(id)];
  }

  /** While capture is open, a gauge's live count is the number of guards held on it, no counted
      gauge is at zero, the gauges fit the limit, and dropping any live guard takes neither early
      return. */
  lemma CountsAgreeWithGuards(cfg: Config, run: seq<Action>)
    requires After(cfg, run).Some? && After(cfg, run).value.core.phase.Open?
    ensures var w := After(cfg, run).value;
            && (forall g :: CountOf(w.core.counts, g) == |Holders(w.gauges.guards, g)|)
            && (forall g :: g in w.core.counts ==> w.core.counts[g] > 0)
            && |w.core.counts| <= cfg.limits.maxInflight
            && (forall id, at :: id in w.gauges.guards ==>
                  DropGuard(w.core, cfg.limits, w.gauges.guards[id], at).admitted)
  {
    Always(cfg, run);
    var w := After(cfg, run).value;
    hide After;
    assert WorldCounts(cfg, w);
    forall id, at | id in w.gauges.guards
      ensures DropGuard(w.core, cfg.limits, w.gauges.guards[id], at).admitted
    {
      ReleaseKeepsCounts(cfg.limits, w.core, w.gauges, id, at);
    }
  }

  /** The limit flag of the run, the atomic flag and the drop counters tell one story; every section
      is the first-N prefix of what was offered and its counter the exact rest; and the listener is
      called at most once, by a thread that saw the flag rise. */
  lemma TruncationIsCoherent(cfg: Config, run: seq<Action>)
    requires After(cfg, run).Some?
    ensures var w := After(cfg, run).value; var t := w.core.run.truncation;
            && (t.limitsHit <==> w.core.limitsFlag)
            && (w.core.limitsFlag <==> AnyDropped(t))
            && (AnyDropped(t) <==> Lost(w) > 0)
            && w.notices.owed + w.notices.made == (if AnyDropped(t) then 1 else 0)
            && WorldSections(cfg.limits, w)
  {
    Always(cfg, run);
    var w := After(cfg, run).value;
    hide After;
    assert CoreInv(w.core, cfg.limits) && WorldTokens(w) && WorldSections(cfg.limits, w);
    hide TokenInv, RecordInv, WorldShutdown, TimerInv, GuardInv;
  }

  /** How much was offered while open and not retained. */
  function Lost(w: World): int
  {
    var run := w.core.run;
    w.tokens.refused + (|StagesIn(w.helpers.log)| - |run.stages|) + (|QueuesIn(w.helpers.log)| - |run.queues|)
    + (|w.samples| - |run.runtime|) + (|w.gauges.offered| - |run.inflight|) + w.gauges.refused
  }

  /** The caller was sent back for unfinished requests, which only strict capture does. */
  predicate WasRefused(cfg: Config, cl: Closing, c: CallerId)
    requires c in cl.callers
  {
    cfg.strict && cl.callers[c].Returned? && cl.callers[c].result.UnfinishedRequests?
    && cl.callers[c].result.count > 0
  }

  /** The sink is written at most once, with the normalization of the finalized run. After a success
      every caller that was not refused returned normally; after a failure the winner returned the
      sink's own error, every other such caller the winner's message as that of a prior attempt; before
      the collector is closed nobody but a refused caller has returned. */
  lemma ShutdownWritesOnce(cfg: Config, run: seq<Action>)
    requires After(cfg, run).Some?
    ensures var w := After(cfg, run).value; var cl := w.closing;
            && (cl.writes == [] || cl.writes == [cfg.norm(w.core.run)])
            && (w.core.phase.Open? ==> cl.writes == [])
            && (cl.winner.None? <==> w.core.phase.Open?)
            && (w.core.phase.Closed? ==>
                  cl.writes == [cfg.norm(w.core.run)]
                  && cl.winner.value in cl.callers && cl.callers[cl.winner.value].Returned?)
            && (forall c :: c in cl.callers && cl.callers[c].Returned? && !WasRefused(cfg, cl, c) ==>
                  match w.core.phase
                  case Closed(Success) => cl.callers[c].result == Done
                  case Closed(Failure(m)) =>
                    cl.callers[c].result ==
                    SinkError(if cl.winner == Some(c) then m else "prior tailtriage sink attempt failed: " + m)
                  case _ => false)
            && (cl.winner.Some? && cl.winner.value in cl.callers ==> !WasRefused(cfg, cl, cl.winner.value))
  {
    Always(cfg, run);
    var w := After(cfg, run).value;
    var cl := w.closing;
    assert WorldShutdown(cfg, w);
    hide After, Inv;
    forall c | c in cl.callers ensures Answered(cfg.strict, cl, c, TerminalOf(w.core.phase)) {}
    if w.core.phase.Closed? {
      WinnerReturned(cfg, w);
    }
  }

  /** Once closed, nobody is in charge, nobody waits as the winner: the winner has returned. */
  lemma WinnerReturned(cfg: Config, w: World)
    requires WorldShutdown(cfg, w) && w.core.phase.Closed?
    ensures var cl := w.closing;
            cl.winner.Some? && cl.winner.value in cl.callers
            && cl.callers[cl.winner.value] == Returned(OwnResult(w.core.phase.terminal))
  {}

  function Rank(p: Phase): nat
  {
    match p
    case Open => 0
    case Finalizing => 1
    case Closed(_) => 2
  }

  lemma StepIsForward(cfg: Config, w: World, a: Action)
    requires WorldShutdown(cfg, w) && Enabled(w, a)
    ensures var w' := Next(cfg, w, a);
            && Rank(w.core.phase) <= Rank(w'.core.phase)
            && (!w.core.phase.Open? ==> w'.core.run == w.core.run)
            && (w.core.phase.Closed? ==> w'.core.phase == w.core.phase)
  {
    if a.OnClosing? {
      if a.c.CloseShutdown? {
        ClosingFollowsFinalizing(cfg, w, a.c);
      }
      hide ShutdownInv, ClosingStep;
    } else {
      hide Next, ShutdownInv;
      OthersRespectClosing(cfg, w, a);
    }
  }

  /** The phase only moves forward, and once it leaves open the run never changes again. */
  lemma {:induction false} FinalizationIsFinal(cfg: Config, run: seq<Action>, more: seq<Action>)
    requires After(cfg, run + more).Some?
    ensures After(cfg, run).Some?
    ensures var w, w' := After(cfg, run).value, After(cfg, run + more).value;
            && Rank(w.core.phase) <= Rank(w'.core.phase)
            && (!w.core.phase.Open? ==> w'.core.run == w.core.run)
            && (w.core.phase.Closed? ==> w'.core.phase == w.core.phase)
    decreases |more|
  {
    hide Inv, Next, Enabled;
    if more == [] {
      assert run + more == run;
    } else {
      var less := more[..|more| - 1];
      assert (run + more)[..|run + more| - 1] == run + less;
      FinalizationIsFinal(cfg, run, less);
      Always(cfg, run + less);
      StepIsForwardWhenGood(cfg, After(cfg, run + less).value, more[|more| - 1]);
    }
  }

  lemma StepIsForwardWhenGood(cfg: Config, w: World, a: Action)
    requires Inv(cfg, w) && Enabled(w, a)
    ensures var w' := Next(cfg, w, a);
            && Rank(w.core.phase) <= Rank(w'.core.phase)
            && (!w.core.phase.Open? ==> w'.core.run == w.core.run)
            && (w.core.phase.Closed? ==> w'.core.phase == w.core.phase)
  {
    hide Next, WorldCounts, WorldTokens, WorldSections, NoticeInv, TimerInv, WorldShutdown;
    StepIsForward(cfg, w, a);
  }

  /** An end reason once given is never replaced, and a run that left open has one and its time. */
  ghost predicate EndReasonKept(c: Core, c': Core)
  {
    && (c.run.metadata.runEndReason.Some? ==> c'.run.metadata.runEndReason == c.run.metadata.runEndReason)
    && (c.phase.Open? && !c'.phase.Open? ==>
          c'.run.metadata.runEndReason.Some? && c'.run.metadata.finalizedUnixMs.Some?)
  }

  lemma StepKeepsEndReason(cfg: Config, w: World, a: Action)
    requires WorldShutdown(cfg, w) && Enabled(w, a)
    ensures EndReasonKept(w.core, Next(cfg, w, a).core)
  {
    hide TokenStep, GaugeStep, HelperStep, ClosingStep, TokenSection, GaugeSection, HelperSection, Samples, OldestKeys;
    if a.OnClosing? && a.c.CloseShutdown? {
      ClosingFollowsFinalizing(cfg, w, a.c);
    }
  }

  /** Over whole runs: the first end reason wins, and finalization leaves none out. */
  lemma {:induction false} FirstEndReasonWins(cfg: Config, run: seq<Action>, more: seq<Action>)
    requires After(cfg, run + more).Some?
    ensures After(cfg, run).Some? && EndReasonKept(After(cfg, run).value.core, After(cfg, run + more).value.core)
    decreases |more|
  {
    hide Inv, Next, Enabled, WorldShutdown;
    if more == [] {
      assert run + more == run;
    } else {
      var less := more[..|more| - 1];
      assert (run + more)[..|run + more| - 1] == run + less;
      FirstEndReasonWins(cfg, run, less);
      Always(cfg, run + less);
      GoodIsClosing(cfg, After(cfg, run + less).value);
      StepKeepsEndReason(cfg, After(cfg, run + less).value, more[|more| - 1]);
      FinalizationIsFinal(cfg, run + less, [more[|more| - 1]]);
      assert run + less + [more[|more| - 1]] == run + more;
    }
  }

  lemma GoodIsClosing(cfg: Config, w: World)
    requires Inv(cfg, w)
    ensures WorldShutdown(cfg, w)
  {}

  lemma StepKeepsStrict(cfg: Config, w: World, a: Action)
    requires cfg.strict && WorldShutdown(cfg, w) && Enabled(w, a) && w.core.run.metadata.unfinishedCount == 0
    ensures Next(cfg, w, a).core.run.metadata.unfinishedCount == 0
  {
    hide TokenStep, GaugeStep, HelperStep, ClosingStep, TokenSection, GaugeSection, HelperSection, ShutdownInv;
  }

  /** Strict capture never finalizes over an unfinished request: when it has left open, every start
      offered was retained or refused at admission. */
  lemma {:induction false} StrictFinalizesComplete(cfg: Config, run: seq<Action>)
    requires cfg.strict && After(cfg, run).Some?
    ensures var w := After(cfg, run).value;
            && w.core.run.metadata.unfinishedCount == 0
            && (!w.core.phase.Open? ==> w.tokens.offered == |w.core.run.requests| + w.tokens.refused)
    decreases |run|
  {
    AdmissionReservesAndConserves(cfg, run);
    hide Inv, Next, Enabled, WorldShutdown;
    if run != [] {
      var n := |run| - 1;
      StrictFinalizesComplete(cfg, run[..n]);
      Always(cfg, run[..n]);
      GoodIsClosing(cfg, After(cfg, run[..n]).value);
      StepKeepsStrict(cfg, After(cfg, run[..n]).value, run[n]);
    }
  }

  /** A strict refusal leaves everything but the refused caller's answer as it was. */
  lemma StrictRefusalChangesNothing(cfg: Config, w: World, c: CallerId, now: u64)
    requires c !in w.closing.callers && cfg.strict && w.core.phase.Open? && |w.core.pending| > 0
    ensures Next(cfg, w, OnClosing(CallShutdown(c, now))) ==
            w.(closing := w.closing.(callers := w.closing.callers[c := Returned(UnfinishedRequests(|w.core.pending|))]))
  {}

  /** The world with one more caller, who was refused. */
  ghost function WithRefused(w: World, c: CallerId, n: nat): World
  {
    w.(closing := w.closing.(callers := w.closing.callers[c := Returned(UnfinishedRequests(n))]))
  }

  lemma RefusedDoesNotShow(cfg: Config, w: World, c: CallerId, n: nat, a: Action)
    requires c !in w.closing.callers && Enabled(WithRefused(w, c, n), a)
    ensures Enabled(w, a) && c !in Next(cfg, w, a).closing.callers
    ensures Next(cfg, WithRefused(w, c, n), a) == WithRefused(Next(cfg, w, a), c, n)
  {
    hide TokenStep, GaugeStep, HelperStep, TokenSection, GaugeSection, HelperSection, Finalize;
    if a.OnClosing? {
      RefusedDoesNotShowInClosing(cfg, w.core, w.closing, c, n, a.c);
    }
  }

  lemma RefusedDoesNotShowInClosing(cfg: Config, core: Core, cl: Closing, c: CallerId, n: nat, a: ClosingAction)
    requires c !in cl.callers
    requires ClosingEnabled(cl.(callers := cl.callers[c := Returned(UnfinishedRequests(n))]), a)
    ensures ClosingEnabled(cl, a) && c !in ClosingStep(cfg, core, cl, a).callers
    ensures var more := cl.(callers := cl.callers[c := Returned(UnfinishedRequests(n))]);
            var step := ClosingStep(cfg, core, cl, a);
            && ClosingCore(cfg, core, more, a) == ClosingCore(cfg, core, cl, a)
            && ClosingStep(cfg, core, more, a)
               == step.(callers := step.callers[c := Returned(UnfinishedRequests(n))])
  {
    hide Finalize, AttemptOf;
    var more := cl.(callers := cl.callers[c := Returned(UnfinishedRequests(n))]);
    var step := ClosingStep(cfg, core, cl, a);
    assert ClosingStep(cfg, core, more, a).callers == step.callers[c := Returned(UnfinishedRequests(n))];
  }

  lemma AfterNext(cfg: Config, run: seq<Action>, a: Action)
    ensures After(cfg, run + [a]) ==
            match After(cfg, run)
            case Some(w) => if Enabled(w, a) then Some(Next(cfg, w, a)) else None
            case None => None
  {
    hide Enabled, Next;
    assert (run + [a])[..|run|] == run;
  }

  /** A strict refusal is invisible: every run that goes on after one would have gone the same way
      without it, to the same world but for the refused caller's answer. */
  lemma {:induction false} StrictRefusalIsInvisible(
      cfg: Config, run: seq<Action>, c: CallerId, now: u64, more: seq<Action>)
    requires After(cfg, run).Some? && cfg.strict
    requires var w := After(cfg, run).value;
             c !in w.closing.callers && w.core.phase.Open? && |w.core.pending| > 0
    requires After(cfg, run + [OnClosing(CallShutdown(c, now))] + more).Some?
    ensures var n := |After(cfg, run).value.core.pending|;
            && After(cfg, run + more).Some? && c !in After(cfg, run + more).value.closing.callers
            && After(cfg, run + [OnClosing(CallShutdown(c, now))] + more)
               == Some(WithRefused(After(cfg, run + more).value, c, n))
    decreases |more|
  {
    hide After, Next, Enabled;
    var call := OnClosing(CallShutdown(c, now));
    var w := After(cfg, run).value;
    if more == [] {
      assert run + more == run && run + [call] + more == run + [call];
      AfterNext(cfg, run, call);
      StrictRefusalChangesNothing(cfg, w, c, now);
    } else {
      hide WithRefused;
      var less, a := more[..|more| - 1], more[|more| - 1];
      assert run + [call] + more == run + [call] + less + [a];
      assert run + more == run + less + [a];
      AfterNext(cfg, run + [call] + less, a);
      AfterNext(cfg, run + less, a);
      StrictRefusalIsInvisible(cfg, run, c, now, less);
      RefusedDoesNotShow(cfg, After(cfg, run + less).value, c, |w.core.pending|, a);
    }
  }

  lemma WinnerCanFinish(cfg: Config, w: World, c: CallerId, t: Terminal) returns (steps: seq<ClosingAction>, w': World)
    requires WorldShutdown(cfg, w) && w.core.phase.Finalizing?
    requires c in w.closing.callers && w.closing.callers[c].Waiting?
    ensures |steps| <= 2 && Performs(cfg, w, steps, w')
    ensures w'.core.phase.Closed? && c in w'.closing.callers && w'.closing.callers[c].Waiting?
  {
    var winner := w.closing.winner.value;
    w', steps := w, [];
    if w.closing.callers[winner].Writing? {
      w', steps := Perform(cfg, w, [], w, WriteSink(winner, t));
    }
    w', steps := Perform(cfg, w, steps, w', CloseShutdown(winner));
  }

  /** No caller waits for ever: from any reachable world the winner can finish, and then the
      waiting caller returns the replay of the winner's outcome. */
  lemma WaitersCanReturn(cfg: Config, w: World, c: CallerId, t: Terminal) returns (steps: seq<ClosingAction>, w': World)
    requires WorldShutdown(cfg, w) && c in w.closing.callers && w.closing.callers[c].Waiting?
    ensures |steps| <= 3 && Performs(cfg, w, steps, w')
    ensures w'.core.phase.Closed? && c in w'.closing.callers && w'.closing.callers[c].Returned?
    ensures match w'.core.phase.terminal
            case Success => w'.closing.callers[c].result == Done
            case Failure(m) =>
              w'.closing.callers[c].result == SinkError("prior tailtriage sink attempt failed: " + m)
  {
    w', steps := w, [];
    if w.core.phase.Finalizing? {
      steps, w' := WinnerCanFinish(cfg, w, c, t);
    }
    w', steps := Perform(cfg, w, steps, w', WakeShutdown(c));
  }

  /** The shutdown steps lead from one world to the other. */
  ghost predicate Performs(cfg: Config, w: World, steps: seq<ClosingAction>, w': World)
  {
    if steps == [] then w' == w
    else
      var last := steps[|steps| - 1];
      exists m :: Performs(cfg, w, steps[..|steps| - 1], m)
                  && ClosingEnabled(m.closing, last) && w' == Next(cfg, m, OnClosing(last))
  }

  lemma Perform(cfg: Config, w: World, steps: seq<ClosingAction>, m: World, a: ClosingAction)
    returns (w': World, steps': seq<ClosingAction>)
    requires Performs(cfg, w, steps, m) && ClosingEnabled(m.closing, a)
    ensures w' == Next(cfg, m, OnClosing(a)) && |steps'| == |steps| + 1 && Performs(cfg, w, steps', w')
  {
    w', steps' := Next(cfg, m, OnClosing(a)), steps + [a];
    assert steps'[..|steps'| - 1] == steps;
  }

  /** Finalization reports how many requests were unfinished and shows the oldest of them. */
  lemma FinalizationReportsTheOldest(c: Core, now: u64)
    requires c.phase.Open? && |c.pending| > 0
    ensures var m, ks := Finalize(c, now).run.metadata, OldestKeys(c.pending.Keys, 5);
            && m.unfinishedCount == |c.pending|
            && |m.unfinishedSample| == Min(|c.pending|, 5) == |ks|
            && (forall i :: 0 <= i < |ks| ==>
                  ks[i] in c.pending
                  && m.unfinishedSample[i] == UnfinishedSample(c.pending[ks[i]].requestId, c.pending[ks[i]].route))
            && (forall i, j :: 0 <= i < j < |ks| ==> ks[i] < ks[j])
            && (forall k, o :: k in c.pending && k !in ks && o in ks ==> o < k)
  {
    OldestKeysAreOldest(c.pending.Keys, 5);
    SamplesFollowKeys(OldestKeys(c.pending.Keys, 5), c.pending);
  }

  lemma {:induction false} SamplesFollowKeys(ks: seq<Key>, pending: map<Key, Pending>)
    requires forall k :: k in ks ==> k in pending
    ensures |Samples(ks, pending)| == |ks|
    ensures forall i :: 0 <= i < |ks| ==>
              Samples(ks, pending)[i] == UnfinishedSample(pending[ks[i]].requestId, pending[ks[i]].route)
  {
    if ks != [] {
      SamplesFollowKeys(ks[..|ks| - 1], pending);
    }
  }
}
