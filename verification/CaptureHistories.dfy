/** What the steps of a run say about the run that was captured: where each retained event comes from,
    which starts and guards are refused, and what finalization wrote. */
module CaptureHistories {
  import opened Machine
  import opened Events
  import Sorting
  import opened Collector
  import opened CaptureSteps
  import opened CaptureInvariants
  import opened CaptureWorld
  import opened CaptureProtocol

  // ----- completions

  /** The starts that drew a key; the n-th of them drew key n. */
  function Drawn(run: seq<Action>): seq<Pending>
  {
    if run == [] then []
    else
      var a := run[|run| - 1];
      Drawn(run[..|run| - 1]) + if a.OnToken? && a.t.DrawStart? then [a.t.pending] else []
  }

  /** The steps taken under one key, in order. */
  function StepsOnKey(run: seq<Action>, k: Key): seq<TokenAction>
  {
    if run == [] then []
    else
      var a := run[|run| - 1];
      StepsOnKey(run[..|run| - 1], k)
      + if a.OnToken? && !a.t.DrawStart? && a.t.key == k then [a.t] else []
  }

  /** Whoever holds a key holds what its start drew, and has taken just the steps that lead there. */
  ghost predicate KeyTold(draws: seq<Pending>, steps: seq<TokenAction>, pending: map<Key, Pending>, t: Tokens, k: Key)
  {
    && (k in t.drawn || k in t.armed || k in t.taken || k in pending ==> k < |draws|)
    && (k >= |draws| ==> steps == [])
    && (k in t.drawn ==> t.drawn[k] == draws[k] && steps == [])
    && (k in t.armed ==> t.armed[k] == draws[k].start && steps == [AdmitStart(k)])
    && (k in t.taken ==>
          t.taken[k].start == draws[k].start
          && steps == [AdmitStart(k), TakeToken(k, t.taken[k].end, t.taken[k].outcome)])
    && (k in pending ==> pending[k] == draws[k])
  }

  lemma TokenStepTells(lim: Limits, c: Core, t: Tokens, a: TokenAction, draws: seq<Pending>, steps: seq<TokenAction>,
                       k: Key)
    requires TokenEnabled(t, a) && TokenInv(c.phase.Open?, c.pending, t)
    requires t.nextKey == |draws| && KeyTold(draws, steps, c.pending, t, k)
    ensures var draws' := draws + if a.DrawStart? then [a.pending] else [];
            var t' := TokenStep(lim, c, t, a);
            && t'.nextKey == |draws'|
            && KeyTold(draws', steps + if !a.DrawStart? && a.key == k then [a] else [],
                       TokenSection(lim, c, t, a).core.pending, t', k)
  {
    assert KeyInv(c.phase.Open?, c.pending, t, k);
    hide TokenInv;
    match a
    case DrawStart(_) =>
    case AdmitStart(_) => AdmitTells(lim, c, t, a.key, draws, steps, k);
    case TakeToken(_, _, _) =>
    case ResolveToken(_) => ResolveTells(lim, c, t, a.key, draws, steps, k);
  }

  lemma AdmitTells(lim: Limits, c: Core, t: Tokens, j: Key, draws: seq<Pending>, steps: seq<TokenAction>, k: Key)
    requires j in t.drawn && KeyInv(c.phase.Open?, c.pending, t, k) && KeyTold(draws, steps, c.pending, t, k)
    requires t.nextKey == |draws|
    ensures KeyTold(draws, steps + if j == k then [AdmitStart(j)] else [],
                    TokenSection(lim, c, t, AdmitStart(j)).core.pending, TokenStep(lim, c, t, AdmitStart(j)), k)
  {}

  lemma ResolveTells(lim: Limits, c: Core, t: Tokens, j: Key, draws: seq<Pending>, steps: seq<TokenAction>, k: Key)
    requires j in t.taken && KeyInv(c.phase.Open?, c.pending, t, k) && KeyTold(draws, steps, c.pending, t, k)
    ensures KeyTold(draws, steps + if j == k then [ResolveToken(j)] else [],
                    TokenSection(lim, c, t, ResolveToken(j)).core.pending, TokenStep(lim, c, t, ResolveToken(j)), k)
  {}

  /** Outside the token steps no token moves, and pending requests stay or are all given up. */
  lemma OthersLeaveTokens(cfg: Config, w: World, a: Action)
    requires Enabled(w, a) && !a.OnToken?
    ensures var w' := Next(cfg, w, a);
            w'.tokens == w.tokens && (w'.core.pending == w.core.pending || w'.core.pending == map[])
  {
    hide GaugeStep, HelperStep, ClosingStep, GaugeSection, HelperSection;
  }

  lemma TokensAfter(cfg: Config, w: World, a: TokenAction)
    requires TokenEnabled(w.tokens, a)
    ensures var w' := Next(cfg, w, OnToken(a));
            && w'.tokens == TokenStep(cfg.limits, w.core, w.tokens, a)
            && w'.core == TokenSection(cfg.limits, w.core, w.tokens, a).core
  {
    hide TokenStep, TokenSection;
  }

  lemma GoodTokens(cfg: Config, run: seq<Action>)
    requires After(cfg, run).Some?
    ensures var w := After(cfg, run).value;
            TokenInv(w.core.phase.Open?, w.core.pending, w.tokens)
            && RecordInv(w.core.run.requests, w.core.pending, w.tokens) && CoreInv(w.core, cfg.limits)
  {
    hide After, TokenInv, RecordInv, CoreInv, StartInv, GuardInv, WorldSections, NoticeInv, TimerInv, WorldShutdown;
    Always(cfg, run);
  }

  /** The n-th key was drawn by the n-th start, and each key's holder tells its steps. */
  lemma {:induction false} KeyTellsItsStory(cfg: Config, run: seq<Action>, k: Key)
    requires After(cfg, run).Some?
    ensures var w := After(cfg, run).value;
            && w.tokens.nextKey == |Drawn(run)|
            && KeyTold(Drawn(run), StepsOnKey(run, k), w.core.pending, w.tokens, k)
    decreases |run|
  {
    if run != [] {
      var prior, a := run[..|run| - 1], run[|run| - 1];
      KeyTellsItsStory(cfg, prior, k);
      GoodTokens(cfg, prior);
      var w := After(cfg, prior).value;
      hide After, Next, TokenStep, TokenSection, TokenInv, RecordInv, CoreInv, KeyTold;
      if a.OnToken? {
        TokensAfter(cfg, w, a.t);
        TokenStepTells(cfg.limits, w.core, w.tokens, a.t, Drawn(prior), StepsOnKey(prior, k), k);
        assert Drawn(run) == Drawn(prior) + if a.t.DrawStart? then [a.t.pending] else [];
      } else {
        OthersLeaveTokens(cfg, w, a);
        assert KeyTold(Drawn(prior), StepsOnKey(prior, k), Next(cfg, w, a).core.pending, w.tokens, k) by {
          GiveUpTells(Drawn(prior), StepsOnKey(prior, k), w.core.pending, w.tokens, k);
        }
        assert Drawn(run) == Drawn(prior) && StepsOnKey(run, k) == StepsOnKey(prior, k);
      }
    }
  }

  lemma GiveUpTells(draws: seq<Pending>, steps: seq<TokenAction>, pending: map<Key, Pending>, t: Tokens, k: Key)
    requires KeyTold(draws, steps, pending, t, k)
    ensures KeyTold(draws, steps, map[], t, k)
  {}

  /** A recorded completion was drawn, admitted, taken and resolved, and carries what those steps gave. */
  ghost predicate RecordTold(draws: seq<Pending>, steps: seq<TokenAction>, r: Record)
  {
    && r.key < |draws| && r.pending == draws[r.key] && r.taken.start == draws[r.key].start
    && steps == [AdmitStart(r.key), TakeToken(r.key, r.taken.end, r.taken.outcome), ResolveToken(r.key)]
  }

  lemma {:induction false} RecordTellsItsStory(cfg: Config, run: seq<Action>, i: nat)
    requires After(cfg, run).Some? && i < |After(cfg, run).value.tokens.records|
    ensures var r := After(cfg, run).value.tokens.records[i]; RecordTold(Drawn(run), StepsOnKey(run, r.key), r)
    decreases |run|
  {
    var prior, a := run[..|run| - 1], run[|run| - 1];
    var w, w' := After(cfg, prior).value, After(cfg, run).value;
    GoodTokens(cfg, prior);
    hide After, Next, TokenStep, TokenSection, TokenInv, CoreInv;
    if a.OnToken? {
      TokensAfter(cfg, w, a.t);
      RecordsGrow(cfg.limits, w.core, w.tokens, a.t);
    } else {
      OthersLeaveTokens(cfg, w, a);
    }
    var r := w'.tokens.records[i];
    if i < |w.tokens.records| {
      RecordTellsItsStory(cfg, prior, i);
      assert RecordAt(w.core.run.requests, w.core.pending, w.tokens, i);
      GoneStays(w, a, r.key);
      assert StepsOnKey(run, r.key) == StepsOnKey(prior, r.key);
      assert Drawn(prior) <= Drawn(run);
    } else {
      KeyTellsItsStory(cfg, prior, r.key);
      assert StepsOnKey(run, r.key) == StepsOnKey(prior, r.key) + [a.t];
      assert Drawn(run) == Drawn(prior);
    }
  }

  lemma RecordsGrow(lim: Limits, c: Core, t: Tokens, a: TokenAction)
    requires TokenEnabled(t, a)
    ensures var records := TokenStep(lim, c, t, a).records;
            || records == t.records
            || (a.ResolveToken? && a.key in c.pending
                && records == t.records + [Record(a.key, c.pending[a.key], t.taken[a.key])])
  {}

  /** No step can be taken under a key that nobody holds. */
  lemma GoneStays(w: World, a: Action, k: Key)
    requires Enabled(w, a) && Gone(w.core.pending, w.tokens, k)
    ensures a.OnToken? && !a.t.DrawStart? ==> a.t.key != k
  {}

  /** Every retained request is one start of the run that was admitted, finished or dropped once, and
      resolved: it carries the id, route, kind and start that start drew, and the end, duration and
      outcome with which its token was taken. Different retained requests are different starts. */
  lemma CompletionsComeFromSteps(cfg: Config, run: seq<Action>, i: nat)
    requires After(cfg, run).Some? && i < |After(cfg, run).value.core.run.requests|
    ensures var w := After(cfg, run).value; var e := w.core.run.requests[i];
            && i < |w.tokens.records|
            && var k := w.tokens.records[i].key;
            && k < |Drawn(run)|
            && var p, steps := Drawn(run)[k], StepsOnKey(run, k);
            && |steps| == 3 && steps[0] == AdmitStart(k) && steps[1].TakeToken? && steps[2] == ResolveToken(k)
            && e.requestId == p.requestId && e.route == p.route && e.kind == p.kind
            && e.startedUnixMs == p.start.unixMs && e.startedRunUs == p.start.runUs
            && e.finishedUnixMs == steps[1].end.at.unixMs && e.finishedRunUs == Some(steps[1].end.at.runUs)
            && e.latencyUs == steps[1].end.durationUs
            && e.outcome == (match steps[1].outcome
                             case Ok => "ok" case Error => "error" case Cancelled => "cancelled"
                             case Other(text) => text)
            && forall j :: 0 <= j < i ==> w.tokens.records[j].key != k
  {
    GoodTokens(cfg, run);
    var w := After(cfg, run).value;
    hide After, TokenInv, CoreInv, Drawn, StepsOnKey;
    assert RecordAt(w.core.run.requests, w.core.pending, w.tokens, i);
    RecordTellsItsStory(cfg, run, i);
  }

  /** A start is refused only when nothing is left: as long as fewer requests are retained and pending
      than the limit allows, none has been refused, and afterwards the limit is reached exactly. */
  lemma {:induction false} AdmissionIsTight(cfg: Config, run: seq<Action>)
    requires After(cfg, run).Some?
    ensures var w := After(cfg, run).value;
            w.tokens.refused > 0 ==>
              |w.core.run.requests| + (if w.core.phase.Open? then |w.core.pending|
                                       else w.core.run.metadata.unfinishedCount) == cfg.limits.maxRequests
    decreases |run|
  {
    hide Inv, Next, Enabled;
    ReservedFits(cfg, run);
    if run != [] {
      var prior, a := run[..|run| - 1], run[|run| - 1];
      AdmissionIsTight(cfg, prior);
      Always(cfg, prior);
      StaysTight(cfg, After(cfg, prior).value, a);
    }
  }

  /** What admission counts against the limit. */
  function Reserved(w: World): nat
  {
    |w.core.run.requests|
    + if w.core.phase.Open? then |w.core.pending| else w.core.run.metadata.unfinishedCount
  }

  lemma {:induction false} ReservedFits(cfg: Config, run: seq<Action>)
    requires After(cfg, run).Some?
    ensures Reserved(After(cfg, run).value) <= cfg.limits.maxRequests
    decreases |run|
  {
    hide Inv, Next, Enabled;
    AdmissionReservesAndConserves(cfg, run);
    if run != [] {
      var prior, a := run[..|run| - 1], run[|run| - 1];
      ReservedFits(cfg, prior);
      Always(cfg, prior);
      StaysTight(cfg, After(cfg, prior).value, a);
    }
  }

  lemma StaysTight(cfg: Config, w: World, a: Action)
    requires Inv(cfg, w) && Enabled(w, a)
    ensures Reserved(Next(cfg, w, a)) >= Reserved(w)
    ensures Next(cfg, w, a).tokens.refused > w.tokens.refused ==> Reserved(w) >= cfg.limits.maxRequests
    ensures Next(cfg, w, a).tokens.refused >= w.tokens.refused
    ensures Next(cfg, w, a).core.phase.Open? || Reserved(Next(cfg, w, a)) == Reserved(w)
  {
    hide WorldCounts, WorldSections, NoticeInv, TimerInv, WorldShutdown, Next;
    StepKeepsInv(cfg, w, a);
    StartsConserved(cfg, w);
    StartsConserved(cfg, Next(cfg, w, a));
    if a.OnToken? {
      TokenStepRefuses(cfg.limits, w.core, w.tokens, a.t);
      TokensAfter(cfg, w, a.t);
    } else {
      OthersLeaveTokens(cfg, w, a);
    }
  }

  lemma StartsConserved(cfg: Config, w: World)
    requires Inv(cfg, w)
    ensures w.tokens.offered == w.tokens.refused + Reserved(w)
  {
    hide WorldCounts, WorldSections, NoticeInv, TimerInv, WorldShutdown, TokenInv, RecordInv;
  }

  lemma TokenStepRefuses(lim: Limits, c: Core, t: Tokens, a: TokenAction)
    requires TokenEnabled(t, a)
    ensures var t' := TokenStep(lim, c, t, a);
            && 0 <= t'.refused - t.refused <= t'.offered - t.offered
            && (t'.refused > t.refused ==> c.phase.Open? && |c.run.requests| + |c.pending| >= lim.maxRequests)
            && (!c.phase.Open? ==> t'.offered == t.offered && t'.refused == t.refused)
            && TokenSection(lim, c, t, a).core.phase == c.phase
  {}

  // ----- guards

  /** The gauges some live guard is held on. */
  ghost function Held(g: Gauges): set<string>
  {
    set id | id in g.guards :: g.guards[id]
  }

  lemma HeldAreCounted(counts: map<string, u64>, g: Gauges)
    requires GuardInv(true, counts, g.guards) && forall x :: x in counts ==> counts[x] > 0
    ensures Held(g) == counts.Keys
  {
    forall x ensures x in Held(g) <==> x in counts {
      assert CountOf(counts, x) == |Holders(g.guards, x)|;
      if id :| id in g.guards && g.guards[id] == x {
        assert id in Holders(g.guards, x);
      } else {
        assert Holders(g.guards, x) == {};
      }
    }
  }

  lemma AcquireTells(lim: Limits, c: Core, g: Gauges, id: GuardId, gauge: string, at: ClockSample)
    requires GaugeEnabled(g, Acquire(id, gauge, at)) && c.phase.Open? && CoreInv(c, lim)
    requires GuardInv(true, c.counts, g.guards)
    ensures var g' := GaugeStep(lim, c, g, Acquire(id, gauge, at));
            var admitted := gauge in Held(g) || |Held(g)| < lim.maxInflight;
            && g'.guards == (if admitted then g.guards[id := gauge] else g.guards)
            && (if admitted then Shown(g, g', gauge, at) else g'.offered == g.offered)
            && g'.refused == g.refused + (if admitted then 0 else 1)
  {
    HeldAreCounted(c.counts, g);
    HoldersAfterAcquire(g.guards, id, gauge, gauge);
    HoldersFit(g.guards, gauge);
    assert CountOf(c.counts, gauge) == |Holders(g.guards, gauge)|;
    hide GuardInv, Held, Holders;
  }

  lemma HoldersFit(guards: map<GuardId, string>, gauge: string)
    ensures |Holders(guards, gauge)| <= |guards|
  {
    Sorting.SubsetSize(Holders(guards, gauge), guards.Keys);
  }

  lemma ReleaseTells(lim: Limits, c: Core, g: Gauges, id: GuardId, at: ClockSample)
    requires GaugeEnabled(g, Release(id, at)) && c.phase.Open? && CoreInv(c, lim)
    requires GuardInv(true, c.counts, g.guards)
    ensures var g' := GaugeStep(lim, c, g, Release(id, at));
            g'.guards == g.guards - {id} && g'.refused == g.refused && Shown(g, g', g.guards[id], at)
  {
    var gauge := g.guards[id];
    HoldersAfterRelease(g.guards, id, gauge);
    assert id in Holders(g.guards, gauge);
    assert CountOf(c.counts, gauge) == |Holders(g.guards, gauge)|;
    hide GuardInv, Holders;
  }

  lemma ClosedTells(lim: Limits, c: Core, g: Gauges, a: GaugeAction)
    requires GaugeEnabled(g, a) && !c.phase.Open?
    ensures GaugeStep(lim, c, g, a) == if a.Acquire? then g else g.(guards := g.guards - {a.guard})
  {}

  /** At any time in any run: a guard is refused exactly when capture is not open, or its gauge is held by
      nobody and the allowed number of gauges is held already; and every transition shows its own gauge
      and clock sample and the number of guards then held on that gauge. */
  lemma GuardsTell(cfg: Config, run: seq<Action>, a: GaugeAction)
    requires After(cfg, run).Some? && GaugeEnabled(After(cfg, run).value.gauges, a)
    ensures var w := After(cfg, run).value; var w' := Next(cfg, w, OnGauge(a));
            var g, g' := w.gauges, w'.gauges;
            match a
            case Acquire(id, gauge, at) =>
              var admitted := w.core.phase.Open? && (gauge in Held(g) || |Held(g)| < cfg.limits.maxInflight);
              && g'.guards == (if admitted then g.guards[id := gauge] else g.guards)
              && (if admitted then Shown(g, g', gauge, at) else g'.offered == g.offered)
              && g'.refused == g.refused + (if w.core.phase.Open? && !admitted then 1 else 0)
            case Release(id, at) =>
              && g'.guards == g.guards - {id} && g'.refused == g.refused
              && (if w.core.phase.Open? then Shown(g, g', g.guards[id], at) else g'.offered == g.offered)
  {
    Always(cfg, run);
    var w := After(cfg, run).value;
    GoodCounts(cfg, w);
    GaugesAfter(cfg, w, a);
    hide After, Next, Inv, GaugeStep, CoreInv, GuardInv, Held, Holders, Shown;
    if !w.core.phase.Open? {
      ClosedTells(cfg.limits, w.core, w.gauges, a);
    } else {
      match a
      case Acquire(id, gauge, at) => AcquireTells(cfg.limits, w.core, w.gauges, id, gauge, at);
      case Release(id, at) => ReleaseTells(cfg.limits, w.core, w.gauges, id, at);
    }
  }

  lemma GoodCounts(cfg: Config, w: World)
    requires Inv(cfg, w)
    ensures CoreInv(w.core, cfg.limits) && GuardInv(w.core.phase.Open?, w.core.counts, w.gauges.guards)
  {
    hide CoreInv, GuardInv, WorldTokens, WorldSections, NoticeInv, TimerInv, WorldShutdown;
  }

  /** One more transition, with the number of guards now held on its gauge. */
  ghost predicate Shown(g: Gauges, g': Gauges, gauge: string, at: ClockSample)
  {
    && |g'.offered| == |g.offered| + 1 && g'.offered[..|g.offered|] == g.offered
    && var x := g'.offered[|g.offered|];
    && x.gauge == gauge && x.atUnixMs == at.unixMs && x.atRunUs == Some(at.runUs)
    && x.count == |Holders(g'.guards, gauge)|
  }

  lemma GaugesAfter(cfg: Config, w: World, a: GaugeAction)
    requires GaugeEnabled(w.gauges, a)
    ensures Next(cfg, w, OnGauge(a)).gauges == GaugeStep(cfg.limits, w.core, w.gauges, a)
  {
    hide GaugeStep, GaugeSection;
  }

  // ----- finalization

  /** The requests of the smallest pending keys, in key order, and no more than five. */
  ghost predicate OldestShown(pending: map<Key, Pending>, sample: seq<UnfinishedSample>)
  {
    |sample| == Min(|pending|, 5) && exists ks: seq<Key> :: ShownBy(pending, sample, ks)
  }

  ghost predicate ShownBy(pending: map<Key, Pending>, sample: seq<UnfinishedSample>, ks: seq<Key>)
  {
    && |ks| == |sample|
    && (forall i, j :: 0 <= i < j < |ks| ==> ks[i] < ks[j])
    && (forall i :: 0 <= i < |ks| ==>
          && ks[i] in pending
          && sample[i].requestId == pending[ks[i]].requestId && sample[i].route == pending[ks[i]].route)
    && (forall k, o :: k in pending && k !in ks && o in ks ==> o < k)
  }

  /** What finalization makes of the run and the requests pending at that moment. */
  ghost predicate FinalizedFrom(before: Run, pending: map<Key, Pending>, now: u64, after: Run)
  {
    var m, m' := before.metadata, after.metadata;
    && after == before.(metadata := m')
    && m'.runEndReason == (if m.runEndReason.Some? then m.runEndReason else Some(Shutdown))
    && m'.finalizedUnixMs == Some(now)
    && m'.unfinishedCount == |pending|
    && m'.unfinishedWarnings == m.unfinishedWarnings + (if pending != map[] then 1 else 0)
    && (pending != map[] ==> OldestShown(pending, m'.unfinishedSample))
  }

  lemma FinalizeTells(c: Core, now: u64)
    requires c.phase.Open? && c.run.metadata.unfinishedCount == 0
    ensures FinalizedFrom(c.run, c.pending, now, Finalize(c, now).run)
  {
    if |c.pending| > 0 {
      FinalizationReportsTheOldest(c, now);
      assert ShownBy(c.pending, Finalize(c, now).run.metadata.unfinishedSample, OldestKeys(c.pending.Keys, 5));
    }
  }

  /** The step of the run that finalized it. */
  ghost predicate FinalizedAt(cfg: Config, run: seq<Action>, n: nat)
    requires After(cfg, run).Some?
  {
    && n < |run| && run[n].OnClosing? && run[n].c.CallShutdown?
    && After(cfg, run[..n]).Some?
    && var w, w' := After(cfg, run[..n]).value, After(cfg, run).value;
    && w'.closing.winner == Some(run[n].c.caller)
    && w.core.phase.Open? && (cfg.strict ==> w.core.pending == map[])
    && FinalizedFrom(w.core.run, w.core.pending, run[n].c.now, w'.core.run)
  }

  /** Once capture is no longer open, one call of shutdown in the run won it: the run is what had been
      captured then, with that call's time, the first end reason or `Shutdown`, and the requests pending
      then counted and the oldest five of them shown; strict capture had none pending. */
  lemma {:induction false} FinalizedByTheWinner(cfg: Config, run: seq<Action>)
    requires After(cfg, run).Some? && !After(cfg, run).value.core.phase.Open?
    ensures exists n :: FinalizedAt(cfg, run, n)
    decreases |run|
  {
    var prior, a := run[..|run| - 1], run[|run| - 1];
    var w := After(cfg, prior).value;
    Always(cfg, prior);
    GoodIsClosing(cfg, w);
    NoneUnfinishedYet(cfg, w);
    hide Inv, WorldShutdown, FinalizedFrom, Next, Enabled;
    if w.core.phase.Open? {
      OpenedBy(cfg, w, a);
      FinalizeTells(w.core, a.c.now);
      hide After;
      assert FinalizedAt(cfg, run, |run| - 1);
    } else {
      FinalizedByTheWinner(cfg, prior);
      var n :| FinalizedAt(cfg, prior, n);
      StepIsForward(cfg, w, a);
      WinnerStays(cfg, w, a);
      StillFinalizedAt(cfg, prior, run, n);
    }
  }

  lemma StillFinalizedAt(cfg: Config, prior: seq<Action>, run: seq<Action>, n: nat)
    requires After(cfg, prior).Some? && After(cfg, run).Some? && prior <= run && FinalizedAt(cfg, prior, n)
    requires After(cfg, run).value.core.run == After(cfg, prior).value.core.run
    requires After(cfg, run).value.closing.winner == After(cfg, prior).value.closing.winner
    ensures FinalizedAt(cfg, run, n)
  {
    hide After, FinalizedFrom;
    assert prior[..n] == run[..n];
  }

  lemma NoneUnfinishedYet(cfg: Config, w: World)
    requires Inv(cfg, w)
    ensures w.core.phase.Open? ==> w.core.run.metadata.unfinishedCount == 0
  {
    hide WorldCounts, WorldSections, NoticeInv, TimerInv, WorldShutdown, TokenInv, RecordInv;
  }

  /** Only a call of shutdown that finds nothing to refuse ends the open phase. */
  lemma OpenedBy(cfg: Config, w: World, a: Action)
    requires WorldShutdown(cfg, w) && Enabled(w, a) && w.core.phase.Open? && !Next(cfg, w, a).core.phase.Open?
    ensures a.OnClosing? && a.c.CallShutdown?
    ensures var w' := Next(cfg, w, a);
            && w'.core == Finalize(w.core, a.c.now) && w'.closing.winner == Some(a.c.caller)
            && (cfg.strict ==> w.core.pending == map[])
  {
    hide Finalize;
    if a.OnClosing? {
      if a.c.CloseShutdown? {
        ClosingFollowsFinalizing(cfg, w, a.c);
      }
      hide ShutdownInv;
    } else {
      hide Next, ShutdownInv;
      OthersRespectClosing(cfg, w, a);
    }
  }

  lemma WinnerStays(cfg: Config, w: World, a: Action)
    requires WorldShutdown(cfg, w) && Enabled(w, a) && !w.core.phase.Open?
    ensures Next(cfg, w, a).closing.winner == w.closing.winner
  {
    if a.OnClosing? {
      hide ShutdownInv;
    } else {
      hide Next, ShutdownInv;
      OthersRespectClosing(cfg, w, a);
    }
  }

  /** The first end reason the run was given. */
  function FirstReason(run: seq<Action>): Option<RunEndReason>
  {
    if run == [] then None
    else
      var a := run[|run| - 1];
      var before := FirstReason(run[..|run| - 1]);
      if before.None? && a.OnRun? && a.r.EndReason? then Some(a.r.reason) else before
  }

  /** While capture is open the end reason is the first one given, and none before that. */
  lemma {:induction false} EndReasonIsTheFirstGiven(cfg: Config, run: seq<Action>)
    requires After(cfg, run).Some? && After(cfg, run).value.core.phase.Open?
    ensures After(cfg, run).value.core.run.metadata.runEndReason == FirstReason(run)
    decreases |run|
  {
    if run != [] {
      var prior, a := run[..|run| - 1], run[|run| - 1];
      var w := After(cfg, prior).value;
      Always(cfg, prior);
      GoodIsClosing(cfg, w);
      hide Inv, WorldShutdown;
      ReasonAfter(cfg, w, a);
      EndReasonIsTheFirstGiven(cfg, prior);
    }
  }

  lemma ReasonAfter(cfg: Config, w: World, a: Action)
    requires WorldShutdown(cfg, w) && Enabled(w, a) && Next(cfg, w, a).core.phase.Open?
    ensures w.core.phase.Open?
    ensures var before := w.core.run.metadata.runEndReason;
            Next(cfg, w, a).core.run.metadata.runEndReason ==
            if before.None? && a.OnRun? && a.r.EndReason? then Some(a.r.reason) else before
  {
    StepIsForward(cfg, w, a);
    hide TokenStep, GaugeStep, HelperStep, ClosingStep, TokenSection, GaugeSection, HelperSection, ShutdownInv;
  }

  // ----- what the events of timers carry

  /** An event shows the ids, start, end and duration of the timer's own interval. */
  ghost predicate ShowsStage(e: StageEvent, x: Ended)
  {
    && x.subject.OfStage? && e.requestId == x.subject.requestId && e.stage == x.subject.stage
    && e.startedUnixMs == x.start.unixMs && e.startedRunUs == x.start.runUs
    && e.finishedUnixMs == x.end.at.unixMs && e.finishedRunUs == Some(x.end.at.runUs)
    && e.latencyUs == x.end.durationUs && e.completed == x.completed && (e.success <==> x.completed && x.success)
  }

  ghost predicate ShowsQueue(e: QueueEvent, x: Ended)
  {
    && x.subject.OfQueue? && e.requestId == x.subject.requestId && e.queue == x.subject.queue
    && e.fromUnixMs == x.start.unixMs && e.fromRunUs == x.start.runUs
    && e.untilUnixMs == x.end.at.unixMs && e.untilRunUs == Some(x.end.at.runUs)
    && e.waitUs == x.end.durationUs && e.depthAtStart == x.subject.depth && e.completed == x.completed
  }

  /** The positions in the log of its stage events, or of its queue events. */
  ghost predicate Selected(log: seq<Offer>, stages: bool, ks: seq<int>)
  {
    && (forall j :: 0 <= j < |ks| ==> 0 <= ks[j] < |log|)
    && (forall i, j :: 0 <= i < j < |ks| ==> ks[i] < ks[j])
    && (forall i :: 0 <= i < |log| ==> (i in ks <==> log[i].work.subject.OfStage? == stages))
  }

  /** Each stage offer of the log is one stage event, in order, and shows what its timer measured. */
  lemma {:induction false} StagesShowTimers(log: seq<Offer>) returns (ks: seq<int>)
    ensures Selected(log, true, ks) && |StagesIn(log)| == |ks|
    ensures forall j :: 0 <= j < |ks| ==> ShowsStage(StagesIn(log)[j], log[ks[j]].work)
  {
    ks := [];
    if log != [] {
      var n := |log| - 1;
      var before := StagesShowTimers(log[..n]);
      SelectNext(log, true, before);
      ks := before + if log[n].work.subject.OfStage? then [n] else [];
    }
  }

  lemma {:induction false} QueuesShowTimers(log: seq<Offer>) returns (ks: seq<int>)
    ensures Selected(log, false, ks) && |QueuesIn(log)| == |ks|
    ensures forall j :: 0 <= j < |ks| ==> ShowsQueue(QueuesIn(log)[j], log[ks[j]].work)
  {
    ks := [];
    if log != [] {
      var n := |log| - 1;
      var before := QueuesShowTimers(log[..n]);
      SelectNext(log, false, before);
      ks := before + if log[n].work.subject.OfStage? then [] else [n];
    }
  }

  lemma SelectNext(log: seq<Offer>, stages: bool, ks: seq<int>)
    requires log != [] && Selected(log[..|log| - 1], stages, ks)
    ensures Selected(log, stages, ks + if log[|log| - 1].work.subject.OfStage? == stages then [|log| - 1] else [])
  {
    var n := |log| - 1;
    var ks' := ks + if log[n].work.subject.OfStage? == stages then [n] else [];
    forall i | 0 <= i < |log| ensures i in ks' <==> log[i].work.subject.OfStage? == stages {
      if i < n {
        assert log[..n][i] == log[i];
      } else {
        assert forall j :: 0 <= j < |ks| ==> ks[j] != n;
      }
    }
  }
}
