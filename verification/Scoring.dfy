/** Magnitude scores of the four diagnosis families, and the choice between a family's completed
    and observed lower-bound representation. */
module Scoring {
  import opened Machine
  import opened Sorting
  import opened Names
  import opened Events
  import opened Percentiles
  import opened TimeShares
  import opened StageAttribution
  import opened Inflight
  import opened Suspects

  function ClampScore(v: nat): (s: nat)
    ensures s <= 100
  {
    Min(v, 100)
  }

  function SampleQuality(n: nat): nat
  {
    if n >= 100 then 8 else if n >= 40 then 5 else if n >= 20 then 3 else if n >= 8 then 1 else 0
  }

  function FromPermille(base: nat, permille: nat, scale: nat): nat
    requires scale > 0
  {
    base + Min(permille, 1000) / scale
  }

  function CapUnlessClean(score: nat, clean: bool, softCap: nat): (s: nat)
    ensures s <= 100
  {
    if clean then ClampScore(score) else ClampScore(Min(score, softCap))
  }

  // ----- queue

  function Depths(queues: seq<QueueEvent>, completedOnly: bool): seq<u64>
  {
    if queues == [] then []
    else
      var q := queues[|queues| - 1];
      Depths(queues[..|queues| - 1], completedOnly)
      + if (!completedOnly || q.completed) && q.depthAtStart.Some? then [q.depthAtStart.value] else []
  }

  function QueueScore(p95: nat, maxDepth: nat, samples: nat, growth: bool): (s: nat)
    ensures s <= 100
  {
    var cleanExtreme := p95 >= 985 && maxDepth >= 12 && samples >= 20 && growth;
    CapUnlessClean(FromPermille(22, p95, 14) + Min(maxDepth, 40) * 2 / 3 +
                   (if growth then 5 else 0) + SampleQuality(samples),
                   cleanExtreme, 95)
  }

  function QueueCandidate(queues: seq<QueueEvent>, shares: seq<u64>, completedOnly: bool, growth: bool,
                          options: AnalyzeOptions): Option<Scored>
  {
    match Percentile(shares, 95, 100)
    case None => None
    case Some(p95) =>
      if p95 < options.triggerPermille then None
      else
        Some(NewScored(Queue, QueueScore(p95, MaxOrZero(Depths(queues, completedOnly)), |shares|, growth),
                       if completedOnly then Completed else ObservedLowerBound, None, options))
  }

  function SelectQueue(completed: Option<Scored>, observed: Option<Scored>): Option<Scored>
  {
    if completed.Some? && observed.Some? && observed.value.score > completed.value.score then observed
    else if completed.Some? then completed
    else observed
  }

  function QueueSuspect(queues: seq<QueueEvent>, shares: RequestTimeShares, growth: bool,
                        options: AnalyzeOptions): Option<Scored>
  {
    SelectQueue(QueueCandidate(queues, shares.completedQueue, true, growth, options),
                QueueCandidate(queues, shares.observedQueue, false, growth, options))
  }

  /** More share or more depth never lowers the score, not even where the clean-extreme cap lifts. */
  lemma QueueScoreMonotone(p: nat, p': nat, depth: nat, depth': nat, samples: nat, growth: bool)
    requires p <= p' && depth <= depth'
    ensures QueueScore(p, depth, samples, growth) <= QueueScore(p', depth', samples, growth)
  {
    DivMonotone(Min(p, 1000), Min(p', 1000), 14);
    DivMonotone(Min(depth, 40) * 2, Min(depth', 40) * 2, 3);
  }

  lemma {:induction false} DepthsGrow(queues: seq<QueueEvent>)
    ensures forall d :: d in Depths(queues, true) ==> d in Depths(queues, false)
  {
    if queues != [] {
      DepthsGrow(queues[..|queues| - 1]);
    }
  }

  lemma MaxGrows(a: seq<u64>, b: seq<u64>)
    requires forall d :: d in a ==> d in b
    ensures MaxOrZero(a) <= MaxOrZero(b)
  {
    if a != [] {
      assert MaxOrZero(a) in b;
    }
  }

  ghost function Representation(requests: seq<RequestEvent>, queues: seq<QueueEvent>, completedOnly: bool,
                                growth: bool, options: AnalyzeOptions): Option<Scored>
  {
    QueueCandidate(queues, QueueShares(requests, queues, completedOnly), completedOnly, growth, options)
  }

  /** Where no switch loses, the observed representation exists whenever the completed one does and
      scores at least as high. */
  lemma ObservedScoreDominates(requests: seq<RequestEvent>, queues: seq<QueueEvent>, growth: bool,
                               options: AnalyzeOptions)
    requires NoLossOnSwitch(requests, queues)
    ensures var c := Representation(requests, queues, true, growth, options);
            var o := Representation(requests, queues, false, growth, options);
            c.Some? ==> o.Some? && c.value.score <= o.value.score
  {
    hide QueueScore;
    var c, o := QueueShares(requests, queues, true), QueueShares(requests, queues, false);
    ObservedSharesDominate(requests, queues);
    ObservedP95Dominates(requests, queues);
    if Percentile(c, 95, 100).Some? {
      DepthsGrow(queues);
      MaxGrows(Depths(queues, true), Depths(queues, false));
      QueueScoreMonotone(Percentile(c, 95, 100).value, Percentile(o, 95, 100).value,
                         MaxOrZero(Depths(queues, true)), MaxOrZero(Depths(queues, false)), |c|, growth);
    }
  }

  /** The choice is Completed exactly when that candidate exists and the observed one, if any, does
      not score higher; where no switch loses, exactly when it exists and the scores tie. */
  lemma CompletedIsSelectedOnTie(requests: seq<RequestEvent>, queues: seq<QueueEvent>, growth: bool,
                                 options: AnalyzeOptions)
    ensures var c := Representation(requests, queues, true, growth, options);
            var o := Representation(requests, queues, false, growth, options);
            var r := SelectQueue(c, o);
            && (r.None? <==> c.None? && o.None?)
            && (r.Some? && r.value.basis.Completed? <==> c.Some? && (o.None? || o.value.score <= c.value.score))
            && (NoLossOnSwitch(requests, queues) ==>
                  (r.Some? && r.value.basis.Completed? <==> c.Some? && o.Some? && o.value.score == c.value.score))
            && (r.Some? && NoLossOnSwitch(requests, queues) ==> o.Some? && r.value.score == o.value.score)
  {
    hide QueueScore;
    if NoLossOnSwitch(requests, queues) {
      ObservedScoreDominates(requests, queues, growth, options);
    }
  }

  /** A lower-bound queue suspect needs a partial queue event. */
  lemma LowerBoundQueueNeedsPartial(requests: seq<RequestEvent>, queues: seq<QueueEvent>, growth: bool,
                                    options: AnalyzeOptions)
    requires var r := SelectQueue(Representation(requests, queues, true, growth, options),
                                  Representation(requests, queues, false, growth, options));
             r.Some? && r.value.basis.ObservedLowerBound?
    ensures exists q :: q in queues && !q.completed
  {
    hide QueueScore;
    if forall q :: q in queues ==> q.completed {
      NoPartialNoDifference(requests, queues);
      SameDepths(queues);
    }
  }

  lemma {:induction false} SameDepths(queues: seq<QueueEvent>)
    requires forall q :: q in queues ==> q.completed
    ensures Depths(queues, true) == Depths(queues, false)
  {
    if queues != [] {
      SameDepths(queues[..|queues| - 1]);
    }
  }

  // ----- blocking pool

  function Series(snapshots: seq<RuntimeSnapshot>, f: RuntimeSnapshot -> Option<u64>): (s: seq<u64>)
    ensures |s| <= |snapshots|
    ensures s == [] <==> forall x :: x in snapshots ==> f(x).None?
  {
    if snapshots == [] then []
    else
      var x := snapshots[|snapshots| - 1];
      assert snapshots == snapshots[..|snapshots| - 1] + [x];
      Series(snapshots[..|snapshots| - 1], f) + if f(x).Some? then [f(x).value] else []
  }

  function BlockingDepths(snapshots: seq<RuntimeSnapshot>): seq<u64>
  {
    Series(snapshots, (x: RuntimeSnapshot) => x.blockingDepth)
  }

  function Nonzero(s: seq<u64>): (n: nat)
    ensures n <= |s|
  {
    if s == [] then 0 else Nonzero(s[..|s| - 1]) + if s[|s| - 1] > 0 then 1 else 0
  }

  datatype BlockingMeasurement = BlockingMeasurement(p95: u64, peak: u64, nonzero: nat, usable: nat, nonzeroShare: nat)

  function MeasureBlocking(snapshots: seq<RuntimeSnapshot>): (m: Option<BlockingMeasurement>)
    ensures m.Some? ==> m.value.usable > 0
  {
    var depths := BlockingDepths(snapshots);
    match Percentile(depths, 95, 100)
    case None => None
    case Some(p95) =>
      Some(BlockingMeasurement(p95, MaxOrZero(depths), Nonzero(depths), |depths|,
                               if depths == [] then 0 else Nonzero(depths) * 1000 / |depths|))
  }

  function EligibleBlocking(snapshots: seq<RuntimeSnapshot>, options: AnalyzeOptions): (m: Option<BlockingMeasurement>)
    ensures m.Some? ==> m == MeasureBlocking(snapshots) && m.value.usable > 0
  {
    var m := MeasureBlocking(snapshots);
    if m.Some? && (m.value.p95 > 0 || m.value.nonzero >= options.minNonzeroSamples) then m else None
  }

  function BlockingScore(m: BlockingMeasurement): (s: nat)
    ensures 32 <= s <= 100
  {
    var cleanExtreme := m.p95 >= 16 && m.peak >= 24 && m.nonzeroShare >= 900;
    CapUnlessClean(32 + Min(m.p95, 24) + Min(m.peak, 24) / 2 + m.nonzeroShare / 80 + SampleQuality(m.usable),
                   cleanExtreme, 94)
  }

  function BlockingSuspect(snapshots: seq<RuntimeSnapshot>, options: AnalyzeOptions): Option<Scored>
  {
    match EligibleBlocking(snapshots, options)
    case None => None
    case Some(m) => Some(NewScored(Blocking, BlockingScore(m), Completed, None, options))
  }

  predicate StrongBlocking(m: BlockingMeasurement, options: AnalyzeOptions)
  {
    m.p95 >= options.strongP95 && m.peak >= options.strongPeak
    && m.nonzeroShare >= options.strongNonzeroShare && m.usable >= options.strongMinSamples
  }

  // ----- executor

  predicate Relevant(x: RuntimeSnapshot) { x.globalDepth.Some? }

  ghost function WorkerCounts(snapshots: seq<RuntimeSnapshot>): set<nat>
  {
    set x | x in snapshots && Relevant(x) && x.workerCount.Some? :: x.workerCount.value
  }

  /** What the snapshots with a global depth agree on about workers. */
  ghost predicate IsWorkerEvidence(snapshots: seq<RuntimeSnapshot>, r: Option<WorkerEvidence>)
  {
    var counts := WorkerCounts(snapshots);
    var missing := exists x :: x in snapshots && Relevant(x) && x.workerCount.None?;
    if forall x :: x in snapshots ==> !Relevant(x) then r == None
    else if 0 in counts then r == Some(InvalidZero)
    else if counts == {} then r == Some(HistoricalAbsent)
    else if |counts| > 1 then r == Some(Inconsistent)
    else if missing then r == Some(Partial)
    else r == Some(Complete(var c :| c in counts; c,
                            forall x :: x in snapshots && Relevant(x) ==> x.localDepth.Some?))
  }

  function CountsOf(snapshots: seq<RuntimeSnapshot>): (s: seq<nat>)
    ensures forall c :: c in s <==> c in WorkerCounts(snapshots)
  {
    if snapshots == [] then []
    else
      var x := snapshots[|snapshots| - 1];
      assert snapshots == snapshots[..|snapshots| - 1] + [x];
      CountsOf(snapshots[..|snapshots| - 1]) + if Relevant(x) && x.workerCount.Some? then [x.workerCount.value] else []
  }

  predicate NatLe(a: nat, b: nat) { a <= b }

  /** Consecutive duplicates removed from a sorted list. */
  method Dedup(s: seq<nat>) returns (d: seq<nat>)
    requires Sorted(s, NatLe)
    ensures forall x :: x in d <==> x in s
    ensures forall i, j :: 0 <= i < j < |d| ==> d[i] < d[j]
  {
    d := [];
    for i := 0 to |s|
      invariant forall x :: x in d <==> x in s[..i]
      invariant forall j, k :: 0 <= j < k < |d| ==> d[j] < d[k]
      invariant if i == 0 then d == [] else d != [] && d[|d| - 1] == s[i - 1]
    {
      assert i > 0 ==> NatLe(s[i - 1], s[i]);
      assert s[..i + 1] == s[..i] + [s[i]];
      if d == [] || d[|d| - 1] != s[i] {
        d := d + [s[i]];
      }
    }
    assert s[..|s|] == s;
  }

  method ClassifyWorkerEvidence(snapshots: seq<RuntimeSnapshot>) returns (r: Option<WorkerEvidence>)
    ensures IsWorkerEvidence(snapshots, r)
    ensures UsableStatus(r)
  {
    hide WorkerCounts;
    if forall x :: x in snapshots ==> !Relevant(x) {
      return None;
    }
    var counts := CountsOf(snapshots);
    if 0 in counts {
      return Some(InvalidZero);
    }
    SortSorts(counts, NatLe) by { NatOrder(); }
    SortPermutes(counts, NatLe);
    var distinct := Dedup(Sort(counts, NatLe));
    assert forall c :: c in distinct <==> c in WorkerCounts(snapshots);
    if |distinct| == 0 {
      assert WorkerCounts(snapshots) == {};
      return Some(HistoricalAbsent);
    }
    if |distinct| > 1 {
      TwoElements(WorkerCounts(snapshots), distinct[0], distinct[1]);
      return Some(Inconsistent);
    }
    assert WorkerCounts(snapshots) == {distinct[0]};
    if exists x :: x in snapshots && Relevant(x) && x.workerCount.None? {
      return Some(Partial);
    }
    return Some(Complete(distinct[0], forall x :: x in snapshots && Relevant(x) ==> x.localDepth.Some?));
  }

  lemma NatOrder()
    ensures TotalPreorder(NatLe)
  {}

  lemma TwoElements<T>(s: set<T>, a: T, b: T)
    requires a in s && b in s && a != b
    ensures |s| > 1
  {
    assert |s - {a}| > 0 by { assert b in s - {a}; }
  }

  function PerWorkerMilli(global: u64, local: Option<u64>, workers: nat): u64
    requires workers > 0
  {
    Min((global + OrZero(local)) * 1000 / workers, U64_MAX)
  }

  lemma DivLeast(a: nat, d: nat, q: nat)
    requires d > 0 && q * d <= a
    ensures q <= a / d
  {
    DivMod(a, d);
    if q > a / d {
      MulMonotone(d, a / d + 1, q);
    }
  }

  lemma DivUnique(a: nat, d: nat, q: nat, rest: nat)
    requires a == q * d + rest && rest < d
    ensures a / d == q
  {
    DivMod(a, d);
    var p := a / d;
    assert (p - q) * d == rest - a % d;
    if p > q { MulMonotone(d, 1, p - q); }
    assert (q - p) * d == a % d - rest;
    if q > p { MulMonotone(d, 1, q - p); }
  }

  /** More runnable tasks or fewer workers never lower the normalized depth. */
  lemma PerWorkerMonotone(g: u64, l: Option<u64>, w: nat, g': u64, l': Option<u64>, w': nat)
    requires 0 < w' <= w && g <= g' && OrZero(l) <= OrZero(l')
    ensures PerWorkerMilli(g, l, w) <= PerWorkerMilli(g', l', w')
  {
    DivCrosses((g + OrZero(l)) * 1000, w, (g' + OrZero(l')) * 1000, w');
  }

  lemma DivCrosses(a: nat, w: nat, b: nat, w': nat)
    requires 0 < w' <= w && a <= b
    ensures a / w <= b / w'
  {
    var q := a / w;
    DivMod(a, w);
    MulMonotone(q, w', w);
    assert q * w' <= q * w <= a;
    DivLeast(b, w', q);
  }

  /** Scaling tasks and workers together changes nothing. */
  lemma PerWorkerScales(g: u64, l: u64, w: nat, k: nat)
    requires w > 0 && k > 0 && k * g <= U64_MAX && k * l <= U64_MAX && k * w > 0
    ensures PerWorkerMilli(k * g, Some(k * l), k * w) == PerWorkerMilli(g, Some(l), w)
  {
    var a := (g + l) * 1000;
    DivMod(a, w);
    ScaledDivision(a, w, a / w, a % w, k);
    assert (k * g + k * l) * 1000 == k * a;
  }

  lemma ScaledDivision(a: nat, w: nat, q: nat, rest: nat, k: nat)
    requires w > 0 && k > 0 && a == q * w + rest && rest < w
    ensures k * w > 0 && k * a / (k * w) == q
  {
    assert k * a == q * (k * w) + k * rest;
    MulMonotone(k, 1, w - rest);
    assert k * (w - rest) == k * w - k * rest;
    DivUnique(k * a, k * w, q, k * rest);
  }

  function NormalizedContribution(p95: u64): nat
  {
    if p95 < 500 then 0 else if p95 < 1000 then 5 else if p95 < 2000 then 15
    else if p95 < 4000 then 25 else if p95 < 8000 then 40 else 55
  }

  function GlobalDepths(snapshots: seq<RuntimeSnapshot>): seq<u64>
  {
    Series(snapshots, (x: RuntimeSnapshot) => x.globalDepth)
  }

  function NormalizedDepths(snapshots: seq<RuntimeSnapshot>, workers: nat): seq<u64>
    requires workers > 0
  {
    Series(snapshots, (x: RuntimeSnapshot) =>
      if x.globalDepth.Some? then Some(PerWorkerMilli(x.globalDepth.value, x.localDepth, workers)) else None)
  }

  function LegacyExecutorScore(snapshots: seq<RuntimeSnapshot>, p95Global: u64, growth: bool): (s: nat)
    ensures s <= 100
  {
    var n := |GlobalDepths(snapshots)|;
    CapUnlessClean(
      34 + Min(p95Global, 150) / 4
      + Min(OrZero(Percentile(Series(snapshots, (x: RuntimeSnapshot) => x.localDepth), 95, 100)), 60) / 6
      + Min(OrZero(Percentile(Series(snapshots, (x: RuntimeSnapshot) => x.aliveTasks), 95, 100)), 400) / 40
      + (if growth then 4 else 0) + SampleQuality(n),
      p95Global >= 140 && n >= 30, 94)
  }

  predicate UsableStatus(status: Option<WorkerEvidence>)
  {
    status.Some? && status.value.Complete? ==> status.value.workerCount > 0
  }

  function ExecutorSuspect(snapshots: seq<RuntimeSnapshot>, status: Option<WorkerEvidence>, growth: bool,
                           options: AnalyzeOptions): Option<Scored>
    requires UsableStatus(status)
  {
    if status.None? then None
    else
      match Percentile(GlobalDepths(snapshots), 95, 100)
      case None => None
      case Some(p95Global) =>
        match status.value
        case Complete(workers, localComplete) =>
          var normalized := NormalizedDepths(snapshots, workers);
          var p95 := Percentile(normalized, 95, 100);
          if p95.None? || p95.value < options.minRunnablePerWorkerMilli then None
          else
            Some(NewScored(Executor,
                           ClampScore(34 + NormalizedContribution(p95.value) +
                                      (if growth then 4 else 0) + SampleQuality(|normalized|)),
                           Completed, if localComplete then None else Some(MissingLocalDepth), options))
        case HistoricalAbsent =>
          if p95Global < options.minGlobalP95 then None
          else Some(NewScored(Executor, LegacyExecutorScore(snapshots, p95Global, growth), Completed, None, options))
        case _ =>
          if p95Global < options.minGlobalP95 then None
          else
            Some(NewScored(Executor, LegacyExecutorScore(snapshots, p95Global, growth), Completed,
                           Some(AmbiguousWorkers(status.value)), options))
  }

  // ----- downstream stages

  datatype StageCandidate = StageCandidate(summary: Summary, score: nat)

  function StageScore(s: Summary): (r: nat)
    ensures r <= 100
  {
    var cleanExtreme := s.tailShare >= 960 && s.cumulativeShare >= 920 && s.requestSamples >= 20;
    CapUnlessClean(FromPermille(24, s.tailShare, 11) + s.cumulativeShare / 35 + SampleQuality(s.requestSamples),
                   cleanExtreme, 95)
  }

  function StageCandidates(summaries: seq<Summary>, options: AnalyzeOptions): seq<StageCandidate>
  {
    if summaries == [] then []
    else
      var s := summaries[|summaries| - 1];
      StageCandidates(summaries[..|summaries| - 1], options)
      + if s.requestSamples < options.minStageSamples then [] else [StageCandidate(s, StageScore(s))]
  }

  function CompareStages(a: StageCandidate, b: StageCandidate): Ordering
  {
    Then(CompareInt(a.score, b.score),
    Then(CompareInt(a.summary.tailShare, b.summary.tailShare),
    Then(CompareInt(a.summary.cumulativeShare, b.summary.cumulativeShare),
    Then(CompareBool(b.summary.basis.ObservedLowerBound?, a.summary.basis.ObservedLowerBound?),
         CompareName(b.summary.stage, a.summary.stage)))))
  }

  ghost predicate IsBestStage(cands: seq<StageCandidate>, best: Option<StageCandidate>)
  {
    match best
    case None => cands == []
    case Some(b) => b in cands && forall c :: c in cands ==> !CompareStages(c, b).Greater?
  }

  /** `max_by`: a later candidate replaces the best so far unless it compares lower. */
  function BestStage(cands: seq<StageCandidate>): Option<StageCandidate>
  {
    if cands == [] then None
    else
      var best, c := BestStage(cands[..|cands| - 1]), cands[|cands| - 1];
      if best.Some? && CompareStages(best.value, c).Greater? then best else Some(c)
  }

  lemma CompareStagesOrder(a: StageCandidate, b: StageCandidate, c: StageCandidate)
    ensures !CompareStages(a, a).Greater?
    ensures CompareStages(a, b).Greater? ==> !CompareStages(b, a).Greater?
    ensures !CompareStages(a, b).Greater? && !CompareStages(b, c).Greater? ==> !CompareStages(a, c).Greater?
  {
    NameOrder();
  }

  lemma {:induction false} BestStageIsBest(cands: seq<StageCandidate>)
    ensures IsBestStage(cands, BestStage(cands))
  {
    hide CompareStages;
    if cands != [] {
      var prior, c := cands[..|cands| - 1], cands[|cands| - 1];
      BestStageIsBest(prior);
      hide IsBestStage;
      BestStep(prior, BestStage(prior), c);
      assert cands == prior + [c];
    }
  }

  lemma BestStep(prior: seq<StageCandidate>, best: Option<StageCandidate>, c: StageCandidate)
    requires IsBestStage(prior, best)
    ensures IsBestStage(prior + [c], if best.Some? && CompareStages(best.value, c).Greater? then best else Some(c))
  {
    hide CompareStages;
    CompareStagesOrder(c, c, c);
    if best.Some? {
      var b := best.value;
      CompareStagesOrder(b, c, c);
      if !CompareStages(b, c).Greater? {
        forall x | x in prior ensures !CompareStages(x, c).Greater? {
          CompareStagesOrder(x, b, c);
        }
      }
    }
  }

  ghost function BestOf(requests: seq<RequestEvent>, stages: seq<StageEvent>, p95: u64,
                        options: AnalyzeOptions): Option<StageCandidate>
  {
    BestStage(StageCandidates(DualSummaries(requests, stages, p95), options))
  }

  /** A stage that looks blocking-correlated stays below strong blocking-pool evidence. */
  function RelatedScore(stage: string, score: nat, blocking: Option<BlockingMeasurement>,
                        options: AnalyzeOptions): (r: nat)
    ensures r <= score
  {
    if options.correlates(stage) && blocking.Some? && StrongBlocking(blocking.value, options) then
      Min(score, Max(BlockingScore(blocking.value) - options.correlationMargin, 0))
    else score
  }

  ghost function DownstreamSuspect(requests: seq<RequestEvent>, stages: seq<StageEvent>,
                                   snapshots: seq<RuntimeSnapshot>,
                                   options: AnalyzeOptions): Option<Scored>
  {
    match Percentile(Latencies(requests), 95, 100)
    case None => None
    case Some(p95) =>
      match BestOf(requests, stages, p95, options)
      case None => None
      case Some(best) =>
        Some(NewScored(Downstream,
                       RelatedScore(best.summary.stage, best.score, EligibleBlocking(snapshots, options), options),
                       best.summary.basis, None, options))
  }

  method DownstreamStageCandidates(requests: seq<RequestEvent>, stages: seq<StageEvent>, p95: u64,
                                   options: AnalyzeOptions)
    returns (cands: seq<StageCandidate>)
    requires StagesNormalized(stages)
    ensures cands == StageCandidates(DualSummaries(requests, stages, p95), options)
  {
    hide StageScore, DualSummaries;
    var summaries := DualStageSummaries(requests, stages, p95);
    cands := [];
    for i := 0 to |summaries|
      invariant cands == StageCandidates(summaries[..i], options)
    {
      assert summaries[..i + 1][..i] == summaries[..i];
      if summaries[i].requestSamples >= options.minStageSamples {
        cands := cands + [StageCandidate(summaries[i], StageScore(summaries[i]))];
      }
    }
    assert summaries[..|summaries|] == summaries;
  }

  method ComputeDownstreamSuspect(requests: seq<RequestEvent>, stages: seq<StageEvent>,
                                  snapshots: seq<RuntimeSnapshot>, options: AnalyzeOptions)
    returns (r: Option<Scored>)
    requires StagesNormalized(stages)
    ensures r == DownstreamSuspect(requests, stages, snapshots, options)
  {
    hide BlockingScore, StrongBlocking, DualSummaries, StageCandidates, BestStage, RelatedScore;
    var p95 := Percentile(Latencies(requests), 95, 100);
    if p95.None? {
      return None;
    }
    var cands := DownstreamStageCandidates(requests, stages, p95.value, options);
    var best := BestStage(cands);
    if best.None? {
      return None;
    }
    return Some(NewScored(Downstream,
                          RelatedScore(best.value.summary.stage, best.value.score,
                                       EligibleBlocking(snapshots, options), options),
                          best.value.summary.basis, None, options));
  }

  lemma {:induction false} StageCandidatesHold(summaries: seq<Summary>, options: AnalyzeOptions)
    ensures forall c :: c in StageCandidates(summaries, options) <==>
              c.summary in summaries && c.summary.requestSamples >= options.minStageSamples &&
              c.score == StageScore(c.summary)
  {
    hide StageScore;
    if summaries != [] {
      var prior := summaries[..|summaries| - 1];
      StageCandidatesHold(prior, options);
      assert summaries == prior + [summaries[|summaries| - 1]];
    }
  }

  lemma {:induction false} SummariesComeInPairs(
      names: seq<string>, stages: seq<StageEvent>, contexts: Contexts, totals: Totals, s: Summary)
    requires s in SummariesFor(names, stages, contexts, totals)
    ensures s.stage in names && s == SummaryOf(Group(stages, contexts, s.stage, s.basis), totals)
    ensures forall b ::
              SummaryOf(Group(stages, contexts, s.stage, b), totals) in SummariesFor(names, stages, contexts, totals)
    decreases |names|
  {
    var n := names[|names| - 1];
    var prior := SummariesFor(names[..|names| - 1], stages, contexts, totals);
    var c, o := SummaryOf(Group(stages, contexts, n, Completed), totals),
                SummaryOf(Group(stages, contexts, n, ObservedLowerBound), totals);
    assert SummariesFor(names, stages, contexts, totals) == prior + [c, o];
    if s in prior {
      SummariesComeInPairs(names[..|names| - 1], stages, contexts, totals, s);
    } else {
      assert s == c || s == o;
      SummaryNames(Group(stages, contexts, n, Completed), totals);
      SummaryNames(Group(stages, contexts, n, ObservedLowerBound), totals);
    }
  }

  lemma SummaryNames(g: Group, totals: Totals)
    ensures SummaryOf(g, totals).stage == g.name && SummaryOf(g, totals).basis == g.basis
  {}

  /** Should a stage without partial events be chosen as a lower bound, its completed twin would have
      won the tie: a lower-bound downstream suspect needs a partial event of the chosen stage. */
  lemma LowerBoundStageNeedsPartial(requests: seq<RequestEvent>, stages: seq<StageEvent>, p95: u64,
                                    options: AnalyzeOptions)
    requires var best := BestOf(requests, stages, p95, options);
             best.Some? && best.value.summary.basis.ObservedLowerBound?
    ensures var best := BestOf(requests, stages, p95, options).value;
            best.summary.partialCount > 0
            && exists e :: e in stages && !e.completed && e.stage == best.summary.stage
                           && e.requestId in ContextsOf(requests, p95)
  {
    hide StageScore, SummaryOf, PartialCount, CompareStages;
    var summaries := DualSummaries(requests, stages, p95);
    var contexts, totals := ContextsOf(requests, p95), TotalsOf(requests, p95);
    var names := Sort(StageNames(stages, contexts), NameLe);
    var cands := StageCandidates(summaries, options);
    var best := BestStage(cands).value;
    BestStageIsBest(cands);
    StageCandidatesHold(summaries, options);
    SummariesComeInPairs(names, stages, contexts, totals, best.summary);
    var g := Group(stages, contexts, best.summary.stage, ObservedLowerBound);
    ObservedCounts(g, totals);
    if PartialCount(g) == 0 {
      NoPartialNoDifferenceInSummary(g, totals);
      var twin := StageCandidate(SummaryOf(g.(basis := Completed), totals), best.score);
      SummaryNames(g.(basis := Completed), totals);
      TwinScores(best.summary, twin.summary);
      assert twin in cands;
      CompletedWinsTie(twin, best);
    }
    PartialCountPositive(g);
  }

  lemma CompletedWinsTie(twin: StageCandidate, best: StageCandidate)
    requires best == StageCandidate(twin.summary.(basis := ObservedLowerBound), twin.score) &&
             twin.summary.basis.Completed?
    ensures CompareStages(twin, best).Greater?
  {}

  /** More share or more samples never lower the stage score, not even where the clean-extreme cap lifts. */
  lemma StageScoreMonotone(a: Summary, b: Summary)
    requires a.tailShare <= b.tailShare && a.cumulativeShare <= b.cumulativeShare &&
             a.requestSamples <= b.requestSamples
    ensures StageScore(a) <= StageScore(b)
  {
    DivMonotone(Min(a.tailShare, 1000), Min(b.tailShare, 1000), 11);
    DivMonotone(a.cumulativeShare, b.cumulativeShare, 35);
  }

  /** Where no switch loses, a completed representation is chosen only when the observed one of the same
      stage ties with it in score and in both shares. */
  lemma CompletedStageIsSelectedOnTie(requests: seq<RequestEvent>, stages: seq<StageEvent>, p95: u64,
                                      options: AnalyzeOptions)
    requires BestOf(requests, stages, p95, options).Some?
    requires var best := BestOf(requests, stages, p95, options).value;
             && best.summary.basis.Completed?
             && NoStageLoss(
                  Group(stages, ContextsOf(requests, p95), best.summary.stage, ObservedLowerBound))
    ensures var best := BestOf(requests, stages, p95, options).value;
            var o := SummaryOf(Group(stages, ContextsOf(requests, p95), best.summary.stage, ObservedLowerBound),
                               TotalsOf(requests, p95));
            && StageCandidate(o, StageScore(o)) in StageCandidates(DualSummaries(requests, stages, p95), options)
            && StageScore(o) == best.score
            && o.tailShare == best.summary.tailShare && o.cumulativeShare == best.summary.cumulativeShare
  {
    hide StageScore, SummaryOf, CompareStages, NoStageLoss;
    var summaries := DualSummaries(requests, stages, p95);
    var contexts, totals := ContextsOf(requests, p95), TotalsOf(requests, p95);
    var names := Sort(StageNames(stages, contexts), NameLe);
    var cands := StageCandidates(summaries, options);
    var best := BestStage(cands).value;
    BestStageIsBest(cands);
    StageCandidatesHold(summaries, options);
    SummariesComeInPairs(names, stages, contexts, totals, best.summary);
    var g := Group(stages, contexts, best.summary.stage, ObservedLowerBound);
    var o := SummaryOf(g, totals);
    ObservedSummaryDominates(g, totals);
    StageScoreMonotone(best.summary, o);
    NotGreaterTies(StageCandidate(o, StageScore(o)), best);
  }

  lemma NotGreaterTies(o: StageCandidate, best: StageCandidate)
    requires !CompareStages(o, best).Greater? && best.score <= o.score
    requires best.summary.tailShare <= o.summary.tailShare && best.summary.cumulativeShare <= o.summary.cumulativeShare
    ensures o.score == best.score && o.summary.tailShare == best.summary.tailShare
    ensures o.summary.cumulativeShare == best.summary.cumulativeShare
  {}

  lemma ObservedCounts(g: Group, totals: Totals)
    ensures g.basis.ObservedLowerBound? ==> SummaryOf(g, totals).partialCount == PartialCount(g)
  {}

  lemma TwinScores(a: Summary, b: Summary)
    requires a == b.(basis := a.basis)
    ensures StageScore(a) == StageScore(b)
  {}

  /** Strong blocking evidence outranks, by the configured margin, the stage correlated with it. */
  lemma CorrelatedStageYields(requests: seq<RequestEvent>, stages: seq<StageEvent>, snapshots: seq<RuntimeSnapshot>,
                              options: AnalyzeOptions, p95: u64)
    requires Percentile(Latencies(requests), 95, 100) == Some(p95)
    requires BestOf(requests, stages, p95, options).Some?
    requires options.correlates(BestOf(requests, stages, p95, options).value.summary.stage)
    requires var m := EligibleBlocking(snapshots, options); m.Some? && StrongBlocking(m.value, options)
    ensures var d, b := DownstreamSuspect(requests, stages, snapshots, options), BlockingSuspect(snapshots, options);
            d.Some? && b.Some? && (options.correlationMargin <= b.value.score ==>
              d.value.score + options.correlationMargin <= b.value.score)
  {
    hide BlockingScore, StrongBlocking, BestOf;
  }
}
