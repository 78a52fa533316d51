/** When each family has a suspect, what it scores, and how the score answers to the evidence: said of
    the series of a run and the options. */
module ScoreLaws {
  import opened Machine
  import opened Sorting
  import opened Events
  import opened Percentiles
  import opened TimeShares
  import opened StageAttribution
  import opened Inflight
  import opened Suspects
  import opened Scoring
  import Names
  import Slicing

  // ----- measurements

  /** The bonus for the number of samples. */
  lemma SampleBonus(n: nat)
    ensures n < 8 ==> SampleQuality(n) == 0
    ensures 8 <= n < 20 ==> SampleQuality(n) == 1
    ensures 20 <= n < 40 ==> SampleQuality(n) == 3
    ensures 40 <= n < 100 ==> SampleQuality(n) == 5
    ensures 100 <= n ==> SampleQuality(n) == 8
  {}

  /** A series holds the reading of every snapshot that has one, in recorded order. */
  lemma {:induction false} SeriesHoldsReadings(snapshots: seq<RuntimeSnapshot>, f: RuntimeSnapshot -> Option<u64>)
    ensures var some := Slicing.Retain(snapshots, (x: RuntimeSnapshot) => f(x).Some?);
            && |Series(snapshots, f)| == |some|
            && forall k :: 0 <= k < |some| ==> f(some[k]) == Some(Series(snapshots, f)[k])
  {
    if snapshots != [] {
      SeriesHoldsReadings(snapshots[..|snapshots| - 1], f);
      Slicing.RetainMembers(snapshots[..|snapshots| - 1], (x: RuntimeSnapshot) => f(x).Some?);
    }
  }

  /** Runnable tasks per worker in thousandths, rounded down, as far as a machine word goes. */
  lemma PerWorkerIsQuotient(global: u64, local: Option<u64>, workers: nat, q: u64)
    requires workers > 0 && q < U64_MAX
    ensures var tasks := global + if local.Some? then local.value else 0;
            PerWorkerMilli(global, local, workers) == q <==> q * workers <= tasks * 1000 < (q + 1) * workers
  {
    var a := (global + OrZero(local)) * 1000;
    DivMod(a, workers);
    var r := a / workers;
    if q * workers <= a < (q + 1) * workers {
      DivUnique(a, workers, q, a - q * workers);
    }
    if r == q {
      assert r * workers + workers == (q + 1) * workers;
    }
  }

  lemma {:induction false} NonzeroIsSize(s: seq<u64>)
    ensures Nonzero(s) == |set k | 0 <= k < |s| && s[k] != 0|
  {
    if s != [] {
      var n := |s| - 1;
      NonzeroIsSize(s[..n]);
      var before := set k | 0 <= k < n && s[..n][k] != 0;
      var all := set k | 0 <= k < |s| && s[k] != 0;
      if s[n] != 0 {
        assert all == before + {n};
      } else {
        assert all == before;
      }
    }
  }

  // ----- the executor family

  function Readings(snapshots: seq<RuntimeSnapshot>, f: RuntimeSnapshot -> Option<u64>): Option<u64>
  {
    Percentile(Series(snapshots, f), 95, 100)
  }

  function GlobalP95(snapshots: seq<RuntimeSnapshot>): Option<u64>
  {
    Readings(snapshots, (x: RuntimeSnapshot) => x.globalDepth)
  }

  function LocalP95(snapshots: seq<RuntimeSnapshot>): Option<u64>
  {
    Readings(snapshots, (x: RuntimeSnapshot) => x.localDepth)
  }

  function AliveP95(snapshots: seq<RuntimeSnapshot>): Option<u64>
  {
    Readings(snapshots, (x: RuntimeSnapshot) => x.aliveTasks)
  }

  function Sampled(snapshots: seq<RuntimeSnapshot>): nat
  {
    |Slicing.Retain(snapshots, (x: RuntimeSnapshot) => x.globalDepth.Some?)|
  }

  /** The p95 of runnable tasks per worker, over the snapshots with a global depth. */
  function PerWorkerP95(snapshots: seq<RuntimeSnapshot>, workers: nat): Option<u64>
    requires workers > 0
  {
    Readings(snapshots, (x: RuntimeSnapshot) =>
      if x.globalDepth.Some? then Some(PerWorkerMilli(x.globalDepth.value, x.localDepth, workers)) else None)
  }

  /** There is an executor suspect exactly when a worker status is known and the depth that status calls
      for reaches its minimum: runnable tasks per worker where the workers are known throughout, the
      plain global depth otherwise. What limits its confidence is told by the status alone. */
  lemma ExecutorSuspectExactly(snapshots: seq<RuntimeSnapshot>, status: Option<WorkerEvidence>, growth: bool,
                               options: AnalyzeOptions)
    requires UsableStatus(status)
    ensures var e, p := ExecutorSuspect(snapshots, status, growth, options), GlobalP95(snapshots);
            && (e.Some? <==>
                  status.Some? && p.Some?
                  && match status.value
                     case Complete(workers, _) =>
                       var q := PerWorkerP95(snapshots, workers);
                       q.Some? && q.value >= options.minRunnablePerWorkerMilli
                     case _ => p.value >= options.minGlobalP95)
            && (e.Some? ==>
                  match status.value
                  case Complete(_, true) => e.value.limitation == None
                  case Complete(_, false) => e.value.limitation == Some(MissingLocalDepth)
                  case HistoricalAbsent => e.value.limitation == None
                  case s => e.value.limitation == Some(AmbiguousWorkers(s)))
  {
    hide LegacyExecutorScore, FromScore, NormalizedContribution, SampleQuality, Percentile, Series;
  }

  lemma SampledIs(snapshots: seq<RuntimeSnapshot>, workers: nat)
    requires workers > 0
    ensures |GlobalDepths(snapshots)| == Sampled(snapshots) == |NormalizedDepths(snapshots, workers)|
  {
    hide PerWorkerMilli, Series;
    var f := (x: RuntimeSnapshot) => x.globalDepth;
    var g := (x: RuntimeSnapshot) =>
      if x.globalDepth.Some? then Some(PerWorkerMilli(x.globalDepth.value, x.localDepth, workers)) else None;
    var h := (x: RuntimeSnapshot) => x.globalDepth.Some?;
    SeriesHoldsReadings(snapshots, f);
    SeriesHoldsReadings(snapshots, g);
    Slicing.RetainAlike(snapshots, h, (x: RuntimeSnapshot) => f(x).Some?);
    Slicing.RetainAlike(snapshots, h, (x: RuntimeSnapshot) => g(x).Some?);
  }

  /** With the workers known throughout, the score is told by the band of the runnable tasks per worker,
      growth and the number of samples. */
  lemma NormalizedExecutorScore(snapshots: seq<RuntimeSnapshot>, workers: nat, localComplete: bool, growth: bool,
                                options: AnalyzeOptions)
    requires workers > 0
    requires ExecutorSuspect(snapshots, Some(Complete(workers, localComplete)), growth, options).Some?
    ensures var e := ExecutorSuspect(snapshots, Some(Complete(workers, localComplete)), growth, options);
            var score := e.value.score;
            var q := PerWorkerP95(snapshots, workers);
            var rest := 34 + (if growth then 4 else 0) + SampleQuality(Sampled(snapshots));
            && q.Some? && score <= 100
            && (q.value < 500 ==> score == rest)
            && (500 <= q.value < 1000 ==> score == rest + 5)
            && (1000 <= q.value < 2000 ==> score == rest + 15)
            && (2000 <= q.value < 4000 ==> score == rest + 25)
            && (4000 <= q.value < 8000 ==> score == rest + 40)
            && (8000 <= q.value ==> score == Min(rest + 55, 100))
  {
    hide Percentile, Series, PerWorkerMilli, FromScore;
    SampledIs(snapshots, workers);
  }

  /** Without usable workers, what a score is made of: the global, local and alive p95 up to 150, 60 and
      400, growth and the number of samples; above 94 only with a global p95 of 140 over 30 samples. */
  lemma AbsoluteExecutorScore(snapshots: seq<RuntimeSnapshot>, status: WorkerEvidence, growth: bool,
                              options: AnalyzeOptions)
    requires !status.Complete? && ExecutorSuspect(snapshots, Some(status), growth, options).Some?
    ensures var score := ExecutorSuspect(snapshots, Some(status), growth, options).value.score;
            var g := GlobalP95(snapshots); var n := Sampled(snapshots);
            var sum := 34 + Min(OrZero(g), 150) / 4 + Min(OrZero(LocalP95(snapshots)), 60) / 6
                       + Min(OrZero(AliveP95(snapshots)), 400) / 40 + (if growth then 4 else 0) + SampleQuality(n);
            g.Some? && score == Min(sum, if g.value >= 140 && n >= 30 then 100 else 94)
  {
    hide Percentile, Series, FromScore;
    SampledIs(snapshots, 1);
  }

  /** More of anything the score is made of never lowers it, not even where the cap lifts. */
  lemma AbsoluteExecutorScoreMonotone(a: seq<RuntimeSnapshot>, b: seq<RuntimeSnapshot>, s: WorkerEvidence,
                                      t: WorkerEvidence, growth: bool, growth': bool, options: AnalyzeOptions)
    requires !s.Complete? && !t.Complete?
    requires ExecutorSuspect(a, Some(s), growth, options).Some?
    requires GlobalP95(b).Some? && OrZero(GlobalP95(a)) <= GlobalP95(b).value
    requires OrZero(LocalP95(a)) <= OrZero(LocalP95(b)) && OrZero(AliveP95(a)) <= OrZero(AliveP95(b))
    requires Sampled(a) <= Sampled(b) && (growth ==> growth')
    ensures ExecutorSuspect(b, Some(t), growth', options).Some?
    ensures ExecutorSuspect(a, Some(s), growth, options).value.score <=
            ExecutorSuspect(b, Some(t), growth', options).value.score
  {
    hide ExecutorSuspect, GlobalP95, LocalP95, AliveP95, Sampled;
    ExecutorSuspectExactly(a, Some(s), growth, options);
    ExecutorSuspectExactly(b, Some(t), growth', options);
    AbsoluteExecutorScore(a, s, growth, options);
    AbsoluteExecutorScore(b, t, growth', options);
    DivMonotone(Min(OrZero(GlobalP95(a)), 150), Min(OrZero(GlobalP95(b)), 150), 4);
    DivMonotone(Min(OrZero(LocalP95(a)), 60), Min(OrZero(LocalP95(b)), 60), 6);
    DivMonotone(Min(OrZero(AliveP95(a)), 400), Min(OrZero(AliveP95(b)), 400), 40);
  }

  /** The same with the workers known throughout. */
  lemma NormalizedExecutorScoreMonotone(a: seq<RuntimeSnapshot>, b: seq<RuntimeSnapshot>, workers: nat, workers': nat,
                                        growth: bool, growth': bool, complete: bool, options: AnalyzeOptions)
    requires workers > 0 && workers' > 0
    requires ExecutorSuspect(a, Some(Complete(workers, complete)), growth, options).Some?
    requires GlobalP95(b).Some? && PerWorkerP95(b, workers').Some?
    requires OrZero(PerWorkerP95(a, workers)) <= PerWorkerP95(b, workers').value
    requires Sampled(a) <= Sampled(b) && (growth ==> growth')
    ensures ExecutorSuspect(b, Some(Complete(workers', complete)), growth', options).Some?
    ensures ExecutorSuspect(a, Some(Complete(workers, complete)), growth, options).value.score <=
            ExecutorSuspect(b, Some(Complete(workers', complete)), growth', options).value.score
  {
    hide ExecutorSuspect, GlobalP95, PerWorkerP95, Sampled;
    ExecutorSuspectExactly(a, Some(Complete(workers, complete)), growth, options);
    ExecutorSuspectExactly(b, Some(Complete(workers', complete)), growth', options);
    NormalizedExecutorScore(a, workers, complete, growth, options);
    NormalizedExecutorScore(b, workers', complete, growth', options);
  }

  // ----- the queue family

  /** The deepest depth recorded with a wait of the representation, or zero. */
  function Deepest(queues: seq<QueueEvent>, completedOnly: bool): u64
  {
    MaxOrZero(Depths(queues, completedOnly))
  }

  lemma {:induction false} DeepestIsMaximum(queues: seq<QueueEvent>, completedOnly: bool)
    ensures forall q :: q in queues && (!completedOnly || q.completed) && q.depthAtStart.Some? ==>
              q.depthAtStart.value <= Deepest(queues, completedOnly)
    ensures Deepest(queues, completedOnly) == 0
            || exists q :: q in queues && (!completedOnly || q.completed)
                           && q.depthAtStart == Some(Deepest(queues, completedOnly))
  {
    DepthsAre(queues, completedOnly);
    var depths := Depths(queues, completedOnly);
    forall q | q in queues && (!completedOnly || q.completed) && q.depthAtStart.Some?
      ensures q.depthAtStart.value <= MaxOrZero(depths)
    {
      assert q.depthAtStart.value in depths;
    }
  }

  lemma {:induction false} DepthsAre(queues: seq<QueueEvent>, completedOnly: bool)
    ensures forall d :: d in Depths(queues, completedOnly) <==>
              exists q :: q in queues && (!completedOnly || q.completed) && q.depthAtStart == Some(d)
  {
    if queues != [] {
      var prior, q := queues[..|queues| - 1], queues[|queues| - 1];
      assert queues == prior + [q];
      DepthsAre(prior, completedOnly);
    }
  }

  /** A queue candidate exists exactly when its p95 share reaches the trigger. Its score is made of the
      share, the deepest depth up to 40, growth and the number of shares; above 95 only with nearly the
      whole request spent in queues of depth 12 over 20 requests while in-flight work grows. */
  lemma QueueCandidateExactly(requests: seq<RequestEvent>, queues: seq<QueueEvent>, completedOnly: bool, growth: bool,
                              options: AnalyzeOptions)
    ensures var c := Representation(requests, queues, completedOnly, growth, options);
            var shares := QueueShares(requests, queues, completedOnly);
            var p, d, n := Percentile(shares, 95, 100), Deepest(queues, completedOnly), |shares|;
            && (c.Some? <==> p.Some? && p.value >= options.triggerPermille)
            && (c.Some? ==>
                  && c.value.kind == Queue && c.value.limitation.None?
                  && c.value.basis == (if completedOnly then Completed else ObservedLowerBound)
                  && var sum := 22 + Min(p.value, 1000) / 14 + Min(d, 40) * 2 / 3 + (if growth then 5 else 0)
                                + SampleQuality(n);
                  c.value.score
                  == Min(sum, if p.value >= 985 && d >= 12 && n >= 20 && growth then 100 else 95))
  {
    hide QueueShares, Depths, MaxOrZero, Percentile, FromScore, SampleQuality;
  }

  // ----- the blocking family

  /** There is a blocking suspect exactly when a blocking depth was sampled and either its p95 is positive
      or enough samples are not zero. Its score is made of the p95 and the peak, each up to 24, the share
      of samples that are not zero and their number; above 94 only with p95 16, peak 24 and nine in ten
      samples not zero. */
  lemma BlockingSuspectExactly(snapshots: seq<RuntimeSnapshot>, options: AnalyzeOptions)
    ensures var b := BlockingSuspect(snapshots, options);
            var depths := Series(snapshots, (x: RuntimeSnapshot) => x.blockingDepth);
            var p, peak, n := Percentile(depths, 95, 100), MaxOrZero(depths), |depths|;
            var nonzero := |set k | 0 <= k < n && depths[k] != 0|;
            && (b.Some? <==> depths != [] && p.Some? && (p.value > 0 || nonzero >= options.minNonzeroSamples))
            && (b.Some? ==>
                  var share := nonzero * 1000 / n;
                  var sum := 32 + Min(p.value, 24) + Min(peak, 24) / 2 + share / 80 + SampleQuality(n);
                  && b.value.kind == Blocking && b.value.limitation.None? && b.value.basis.Completed?
                  && b.value.score
                     == Min(sum, if p.value >= 16 && peak >= 24 && share >= 900 then 100 else 94))
  {
    hide MaxOrZero, FromScore, SampleQuality, Nonzero, Series;
    var depths := Series(snapshots, (x: RuntimeSnapshot) => x.blockingDepth);
    NonzeroIsSize(depths);
    if depths != [] {
      PercentileIsElement(depths, 95, 100);
    }
  }

  /** More depth, a higher peak, a larger share or more samples never lower the blocking score. */
  lemma BlockingScoreMonotone(a: BlockingMeasurement, b: BlockingMeasurement)
    requires a.p95 <= b.p95 && a.peak <= b.peak && a.nonzeroShare <= b.nonzeroShare && a.usable <= b.usable
    ensures BlockingScore(a) <= BlockingScore(b)
  {
    DivMonotone(Min(a.peak, 24), Min(b.peak, 24), 2);
    DivMonotone(a.nonzeroShare, b.nonzeroShare, 80);
  }

  // ----- the downstream family

  /** A stage candidate scores its tail and cumulative shares and its samples; above 95 only where it
      takes nearly all of both over 20 requests. */
  lemma StageScoreExactly(s: Summary)
    ensures var sum := 24 + Min(s.tailShare, 1000) / 11 + s.cumulativeShare / 35 + SampleQuality(s.requestSamples);
            StageScore(s) == Min(sum, if s.tailShare >= 960 && s.cumulativeShare >= 920 && s.requestSamples >= 20
                                      then 100 else 95)
  {
    hide SampleQuality;
  }

  /** Strong blocking evidence, on the depths of the snapshots. */
  ghost predicate BlockingIsStrong(snapshots: seq<RuntimeSnapshot>, options: AnalyzeOptions)
  {
    var depths := Series(snapshots, (x: RuntimeSnapshot) => x.blockingDepth);
    var nonzero := |set k | 0 <= k < |depths| && depths[k] != 0|;
    && BlockingSuspect(snapshots, options).Some? && depths != []
    && OrZero(Percentile(depths, 95, 100)) >= options.strongP95 && MaxOrZero(depths) >= options.strongPeak
    && nonzero * 1000 / |depths| >= options.strongNonzeroShare && |depths| >= options.strongMinSamples
  }

  /** The downstream suspect is the best stage with its own score, except that a stage correlated with
      blocking work is held the margin below strong blocking evidence. */
  lemma DownstreamSuspectExactly(requests: seq<RequestEvent>, stages: seq<StageEvent>,
                                 snapshots: seq<RuntimeSnapshot>, options: AnalyzeOptions)
    ensures var d, b := DownstreamSuspect(requests, stages, snapshots, options), BlockingSuspect(snapshots, options);
            var p := Percentile(Latencies(requests), 95, 100);
            && (d.Some? <==> p.Some? && BestOf(requests, stages, p.value, options).Some?)
            && (d.Some? ==>
                  var best := BestOf(requests, stages, p.value, options).value;
                  && d.value.kind == Downstream && d.value.limitation.None? && d.value.basis == best.summary.basis
                  && d.value.score
                     == if options.correlates(best.summary.stage) && BlockingIsStrong(snapshots, options)
                        then Min(best.score, Max(b.value.score - options.correlationMargin, 0))
                        else best.score)
  {
    hide BestOf, FromScore, BlockingScore, Series, MaxOrZero, Nonzero;
    var depths := Series(snapshots, (x: RuntimeSnapshot) => x.blockingDepth);
    NonzeroIsSize(depths);
    if depths != [] {
      PercentileIsElement(depths, 95, 100);
    }
  }

  predicate SameStrength(c: StageCandidate, b: StageCandidate)
  {
    c.score == b.score && c.summary.tailShare == b.summary.tailShare
    && c.summary.cumulativeShare == b.summary.cumulativeShare
  }

  /** The score comes first, then the tail share, then the share of all latency; among equals a completed
      representation, and then the first name. */
  ghost predicate NotStronger(c: StageCandidate, b: StageCandidate)
  {
    && c.score <= b.score
    && (c.score == b.score ==> c.summary.tailShare <= b.summary.tailShare)
    && (c.score == b.score && c.summary.tailShare == b.summary.tailShare ==>
          c.summary.cumulativeShare <= b.summary.cumulativeShare)
    && (SameStrength(c, b) && c.summary.basis.Completed? ==> b.summary.basis.Completed?)
    && (SameStrength(c, b) && c.summary.basis == b.summary.basis ==>
          Names.NameLe(b.summary.stage, c.summary.stage))
  }

  /** No other stage is stronger than the one chosen. */
  lemma BestStageExactly(cands: seq<StageCandidate>)
    ensures BestStage(cands).None? <==> cands == []
    ensures BestStage(cands).Some? ==>
              var b := BestStage(cands).value;
              b in cands && forall c :: c in cands ==> NotStronger(c, b)
  {
    BestStageIsBest(cands);
    if BestStage(cands).Some? {
      forall c | c in cands ensures NotStronger(c, BestStage(cands).value) {
        NotGreaterMeans(c, BestStage(cands).value);
      }
    }
  }

  lemma NotGreaterMeans(c: StageCandidate, b: StageCandidate)
    requires !CompareStages(c, b).Greater?
    ensures NotStronger(c, b)
  {
    Names.NameOrder();
  }

  // ----- what is known of the workers, and which queue representation is taken

  /** The worker status, over the snapshots that have a global depth: none without such snapshots; invalid
      when one names zero workers; historical when none names any; inconsistent when two disagree; partial
      when some name none; otherwise complete, with the count they agree on. */
  lemma WorkerStatusExactly(snapshots: seq<RuntimeSnapshot>, status: Option<WorkerEvidence>)
    requires IsWorkerEvidence(snapshots, status)
    ensures var some := Slicing.Retain(snapshots, (x: RuntimeSnapshot) => x.globalDepth.Some?);
            && (some == [] <==> status == None)
            && (some != [] ==>
                  var zero := exists x :: x in some && x.workerCount == Some(0);
                  var named := exists x :: x in some && x.workerCount.Some?;
                  var silent := exists x :: x in some && x.workerCount.None?;
                  var differ := exists x, y :: Disagree(some, x, y);
                  && (status == Some(InvalidZero) <==> zero)
                  && (status == Some(HistoricalAbsent) <==> !named)
                  && (status == Some(Inconsistent) <==> !zero && differ)
                  && (status == Some(Partial) <==> !zero && !differ && named && silent)
                  && (status.value.Complete? <==> !zero && !differ && !silent)
                  && (status.value.Complete? ==>
                        && (forall x :: x in some ==> x.workerCount == Some(status.value.workerCount))
                        && (status.value.localComplete <==> forall x :: x in some ==> x.localDepth.Some?)))
  {
    var some, counts := Slicing.Retain(snapshots, (x: RuntimeSnapshot) => x.globalDepth.Some?), WorkerCounts(snapshots);
    StatusCounts(snapshots);
    hide WorkerCounts, Slicing.Retain, Disagree;
    if some != [] {
      assert some[0] in some;
    }
    if status.Some? && status.value.Complete? {
      assert counts != {} && status.value.workerCount in counts;
      OnlyOne(counts, status.value.workerCount);
    }
  }

  lemma OnlyOne<T>(s: set<T>, x: T)
    requires x in s && |s| <= 1
    ensures s == {x}
  {
    if y :| y in s && y != x {
      TwoElements(s, x, y);
    }
  }

  /** The counts named, in terms of the snapshots with a global depth. */
  lemma StatusCounts(snapshots: seq<RuntimeSnapshot>)
    ensures var some := Slicing.Retain(snapshots, (x: RuntimeSnapshot) => x.globalDepth.Some?);
            var counts := WorkerCounts(snapshots);
            && (forall x :: x in some <==> x in snapshots && Relevant(x))
            && (some == [] <==> forall x :: x in snapshots ==> !Relevant(x))
            && (forall c :: c in counts <==> exists x :: x in some && x.workerCount == Some(c))
            && (|counts| > 1 <==> exists x, y :: Disagree(some, x, y))
  {
    var f := (x: RuntimeSnapshot) => x.globalDepth.Some?;
    var some, counts := Slicing.Retain(snapshots, f), WorkerCounts(snapshots);
    Slicing.RetainMembers(snapshots, f);
    assert some != [] ==> some[0] in some;
    Several(counts);
    if x, y :| Disagree(some, x, y) {
      assert x.workerCount.value in counts && y.workerCount.value in counts;
    }
    if a, b :| a in counts && b in counts && a != b {
      var x :| x in some && x.workerCount == Some(a);
      var y :| y in some && y.workerCount == Some(b);
      assert Disagree(some, x, y);
    }
  }

  ghost predicate Disagree(some: seq<RuntimeSnapshot>, x: RuntimeSnapshot, y: RuntimeSnapshot)
  {
    x in some && y in some && x.workerCount.Some? && y.workerCount.Some? && x.workerCount != y.workerCount
  }

  lemma Several<T>(s: set<T>)
    ensures |s| > 1 <==> exists a, b :: a in s && b in s && a != b
  {
    if a, b :| a in s && b in s && a != b {
      TwoElements(s, a, b);
    }
    if |s| > 1 {
      var a :| a in s;
      var rest := s - {a};
      assert |rest| > 0;
      var b :| b in rest;
    }
  }

  /** The queue family takes the completed candidate, unless there is none or the observed one scores
      higher. */
  lemma QueueChoiceExactly(completed: Option<Scored>, observed: Option<Scored>)
    ensures var r := SelectQueue(completed, observed);
            if completed.Some? && (observed.None? || observed.value.score <= completed.value.score)
            then r == completed else r == observed
  {}
}
