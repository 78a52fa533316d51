/** Every step of the world keeps every invariant. */
module CaptureWorld {
  import opened Machine
  import opened Events
  import opened Collector
  import opened Sorting
  import opened CaptureSteps
  import opened CaptureInvariants

  ghost predicate WorldTokens(w: World)
  {
    && TokenInv(w.core.phase.Open?, w.core.pending, w.tokens)
    && RecordInv(w.core.run.requests, w.core.pending, w.tokens)
    && StartInv(w.core.phase.Open?, |w.core.run.requests|, |w.core.pending|, w.core.run.metadata.unfinishedCount,
                w.core.run.truncation.droppedRequests, w.tokens)
  }

  ghost predicate WorldCounts(cfg: Config, w: World)
  {
    CoreInv(w.core, cfg.limits) && GuardInv(w.core.phase.Open?, w.core.counts, w.gauges.guards)
  }

  ghost predicate WorldSections(lim: Limits, w: World)
  {
    var run := w.core.run;
    && FirstN(run.stages, StagesIn(w.helpers.log), lim.maxStages, run.truncation.droppedStages, 0)
    && FirstN(run.queues, QueuesIn(w.helpers.log), lim.maxQueues, run.truncation.droppedQueues, 0)
    && FirstN(run.runtime, w.samples, lim.maxRuntime, run.truncation.droppedRuntime, 0)
    && FirstN(run.inflight, w.gauges.offered, lim.maxInflight, run.truncation.droppedInflight, w.gauges.refused)
  }

  ghost predicate WorldShutdown(cfg: Config, w: World)
  {
    ShutdownInv(cfg, w.core.phase, w.core.run, w.closing)
  }

  lemma StepKeepsCounts(cfg: Config, w: World, a: Action)
    requires WorldCounts(cfg, w) && Enabled(w, a)
    ensures WorldCounts(cfg, Next(cfg, w, a))
  {
    hide TokenSection, TokenStep, GaugeSection, GaugeStep, HelperSection, HelperStep, GuardInv;
    match a
    case OnToken(t) => hide CoreInv; TokenStepKeepsCore(cfg.limits, w.core, w.tokens, t);
    case OnGauge(g) => hide CoreInv; GaugeStepKeepsCounts(cfg.limits, w.core, w.gauges, g);
    case OnHelper(h) => hide CoreInv; HelperStepKeepsCore(cfg.limits, w.core, w.helpers, h);
    case OnRun(_) =>
    case OnClosing(x) => ClosingKeepsCounts(cfg, w, x);
  }

  lemma ClosingKeepsCounts(cfg: Config, w: World, x: ClosingAction)
    requires WorldCounts(cfg, w) && ClosingEnabled(w.closing, x)
    ensures WorldCounts(cfg, Next(cfg, w, OnClosing(x)))
  {
    hide ClosingStep;
  }

  lemma StepKeepsTokens(cfg: Config, w: World, a: Action)
    requires WorldTokens(w) && CoreInv(w.core, cfg.limits) && WorldShutdown(cfg, w) && Enabled(w, a)
    ensures WorldTokens(Next(cfg, w, a))
  {
    hide ShutdownInv;
    hide TokenSection, TokenStep, GaugeSection, GaugeStep, HelperSection, HelperStep, CoreInv;
    hide TokenInv, RecordInv;
    var lim, c := cfg.limits, w.core;
    match a
    case OnToken(t) =>
      hide StartInv;
      TokenStepKeepsTokens(lim, c, w.tokens, t);
      TokenStepKeepsRecords(lim, c, w.tokens, t);
      TokenStepKeepsStarts(lim, c, w.tokens, t);
    case OnGauge(_) =>
    case OnHelper(_) =>
    case OnRun(_) =>
    case OnClosing(x) =>
      if x.CloseShutdown? {
        ClosingFollowsFinalizing(cfg, w, x);
      }
      ClosingKeepsTokens(cfg, w, x);
  }

  /** Only a caller in charge closes, and there is none while capture is open. */
  lemma ClosingFollowsFinalizing(cfg: Config, w: World, x: ClosingAction)
    requires WorldShutdown(cfg, w) && ClosingEnabled(w.closing, x) && x.CloseShutdown?
    ensures w.core.phase.Finalizing?
  {
    assert InCharge(w.closing, x.caller);
  }

  lemma ClosingKeepsTokens(cfg: Config, w: World, x: ClosingAction)
    requires WorldTokens(w) && ClosingEnabled(w.closing, x)
    requires x.CloseShutdown? ==> w.core.phase.Finalizing?
    ensures WorldTokens(Next(cfg, w, OnClosing(x)))
  {
    hide ClosingStep, OnePerKey;
    var w' := Next(cfg, w, OnClosing(x));
    forall k ensures KeyInv(w'.core.phase.Open?, w'.core.pending, w'.tokens, k) {
      assert KeyInv(w.core.phase.Open?, w.core.pending, w.tokens, k);
    }
    forall i | 0 <= i < |w.core.run.requests| ensures RecordAt(w'.core.run.requests, w'.core.pending, w'.tokens, i) {
      assert RecordAt(w.core.run.requests, w.core.pending, w.tokens, i);
    }
  }

  lemma StepKeepsSections(cfg: Config, w: World, a: Action)
    requires WorldSections(cfg.limits, w) && Enabled(w, a)
    ensures WorldSections(cfg.limits, Next(cfg, w, a))
  {
    hide TokenSection, TokenStep, GaugeSection, GaugeStep, HelperSection, HelperStep, ClosingStep;
    match a
    case OnToken(t) => hide FirstN;
    case OnGauge(g) => hide FirstN; GaugeStepKeepsSection(cfg.limits, w.core, w.gauges, g);
    case OnHelper(h) => hide FirstN; HelperStepKeepsSections(cfg.limits, w.core, w.helpers, h);
    case OnRun(Sample(e)) => hide FirstN; SampleKeepsSection(cfg.limits, w, e);
    case OnRun(_) => hide FirstN;
    case OnClosing(_) => hide FirstN;
  }

  lemma SampleKeepsSection(lim: Limits, w: World, e: RuntimeSnapshot)
    requires FirstN(w.core.run.runtime, w.samples, lim.maxRuntime, w.core.run.truncation.droppedRuntime, 0)
    ensures w.core.phase.Open? ==>
              var run' := RecordRuntime(w.core, lim, e).core.run;
              FirstN(run'.runtime, w.samples + [e], lim.maxRuntime, run'.truncation.droppedRuntime, 0)
  {}

  lemma SectionKeepsNotices(w: World, s: Stepped)
    requires NoticeInv(w.notices, w.core.limitsFlag) && Owes(w.core, s)
    ensures NoticeInv(Locked(w, s).notices, Locked(w, s).core.limitsFlag)
  {}

  lemma ClosingKeepsNotices(cfg: Config, c: Core, cl: Closing, x: ClosingAction)
    requires ClosingEnabled(cl, x)
    ensures ClosingCore(cfg, c, cl, x).limitsFlag == c.limitsFlag
  {}

  lemma StepKeepsNotices(cfg: Config, w: World, a: Action)
    requires NoticeInv(w.notices, w.core.limitsFlag) && Enabled(w, a)
    ensures NoticeInv(Next(cfg, w, a).notices, Next(cfg, w, a).core.limitsFlag)
  {
    hide TokenSection, TokenStep, GaugeSection, GaugeStep, HelperSection, HelperStep, ClosingStep, ClosingCore;
    hide Owes, RecordRuntime;
    match a
    case OnToken(t) => hide NoticeInv; SectionKeepsNotices(w, TokenSection(cfg.limits, w.core, w.tokens, t));
    case OnGauge(g) => hide NoticeInv; SectionKeepsNotices(w, GaugeSection(cfg.limits, w.core, w.gauges, g));
    case OnHelper(h) => hide NoticeInv; SectionKeepsNotices(w, HelperSection(cfg.limits, w.core, w.helpers, h));
    case OnRun(Sample(e)) => hide NoticeInv; SectionKeepsNotices(w, RecordRuntime(w.core, cfg.limits, e));
    case OnRun(_) =>
    case OnClosing(x) => ClosingKeepsNotices(cfg, w.core, w.closing, x);
  }

  lemma StepKeepsTimers(cfg: Config, w: World, a: Action)
    requires TimerInv(w.helpers) && Enabled(w, a)
    ensures TimerInv(Next(cfg, w, a).helpers)
  {
    hide TokenSection, TokenStep, GaugeSection, GaugeStep, HelperSection, HelperStep, ClosingStep, TimerInv;
    if a.OnHelper? {
      HelperStepKeepsTimers(w.core, w.helpers, a.h);
    }
  }

  /** A step outside shutdown does not move the phase, and once capture is not open it leaves the
      run alone as well. */
  lemma OthersRespectClosing(cfg: Config, w: World, a: Action)
    requires Enabled(w, a) && !a.OnClosing?
    ensures var w' := Next(cfg, w, a);
            w'.closing == w.closing && w'.core.phase == w.core.phase && (!w.core.phase.Open? ==> w'.core == w.core)
  {
    hide TokenSection, TokenStep, GaugeSection, GaugeStep, HelperSection, HelperStep;
  }

  lemma StepKeepsShutdown(cfg: Config, w: World, a: Action)
    requires WorldShutdown(cfg, w) && Enabled(w, a)
    ensures WorldShutdown(cfg, Next(cfg, w, a))
  {
    if a.OnClosing? {
      hide ShutdownInv, ClosingCore, ClosingStep;
      ClosingStepKeepsShutdown(cfg, w.core, w.closing, a.c);
    } else {
      hide Next;
      OthersRespectClosing(cfg, w, a);
    }
  }
}
