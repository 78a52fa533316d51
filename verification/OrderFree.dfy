/** Events are appended in lock order, which need not be clock order: the analysis of a run does not
    depend on it. */
module OrderFree {
  import opened Machine
  import opened Sorting
  import opened Events
  import opened Percentiles
  import TimeShares
  import opened StageAttribution
  import opened Inflight
  import opened Suspects
  import opened Scoring
  import opened Evidence
  import opened ConfidenceCaps
  import Slicing
  import Temporal
  import Normalization
  import opened Analysis

  // ----- what a list yields event by event

  function Flat<A, B>(s: seq<A>, f: A -> seq<B>): seq<B>
  {
    if s == [] then [] else Flat(s[..|s| - 1], f) + f(s[|s| - 1])
  }

  lemma {:induction false} FlatAppend<A, B>(a: seq<A>, b: seq<A>, f: A -> seq<B>)
    ensures Flat(a + b, f) == Flat(a, f) + Flat(b, f)
  {
    if b == [] {
      assert a + b == a;
    } else {
      assert (a + b)[..|a + b| - 1] == a + b[..|b| - 1];
      FlatAppend(a, b[..|b| - 1], f);
    }
  }

  lemma FlatWithout<A, B>(s: seq<A>, i: nat, f: A -> seq<B>)
    requires i < |s|
    ensures multiset(Flat(s, f)) == multiset(Flat(Without(s, i), f)) + multiset(Flat([s[i]], f))
  {
    hide Flat, Without;
    Reassemble(s, i);
    FlatAppend(s[..i], [s[i]] + s[i + 1..], f);
    FlatAppend([s[i]], s[i + 1..], f);
    FlatAppend(s[..i], s[i + 1..], f);
    MiddleOut(Flat(s[..i], f), Flat([s[i]], f), Flat(s[i + 1..], f));
  }

  lemma {:induction false} FlatPermutes<A, B>(a: seq<A>, b: seq<A>, f: A -> seq<B>)
    requires multiset(a) == multiset(b)
    ensures multiset(Flat(a, f)) == multiset(Flat(b, f)) && |Flat(a, f)| == |Flat(b, f)|
    decreases |a|
  {
    if a == [] {
      assert |multiset(b)| == 0;
    } else {
      assert a[0] in multiset(b);
      var i :| 0 <= i < |b| && b[i] == a[0];
      RemoveOne(a, 0);
      RemoveOne(b, i);
      FlatPermutes(Without(a, 0), Without(b, i), f);
      FlatWithout(a, 0, f);
      FlatWithout(b, i, f);
    }
    assert |multiset(Flat(a, f))| == |Flat(a, f)| && |multiset(Flat(b, f))| == |Flat(b, f)|;
  }

  lemma Permuted<T>(a: seq<T>, b: seq<T>)
    requires multiset(a) == multiset(b)
    ensures |a| == |b| && (a == [] <==> b == []) && forall x :: x in a <==> x in b
  {
    assert |multiset(a)| == |a| && |multiset(b)| == |b|;
    SameElements(a, b);
  }

  // ----- normalization of runs in another order

  lemma {:induction false} RetainIsFlat<T>(s: seq<T>, keep: T -> bool)
    ensures Slicing.Retain(s, keep) == Flat(s, x => if keep(x) then [x] else [])
  {
    if s != [] {
      RetainIsFlat(s[..|s| - 1], keep);
    }
  }

  lemma RetainPermutes<T>(a: seq<T>, b: seq<T>, keep: T -> bool)
    requires multiset(a) == multiset(b)
    ensures multiset(Slicing.Retain(a, keep)) == multiset(Slicing.Retain(b, keep))
  {
    RetainIsFlat(a, keep);
    RetainIsFlat(b, keep);
    FlatPermutes(a, b, x => if keep(x) then [x] else []);
  }

  /** The valid requests of an id. */
  function ValidOnes(requests: seq<RequestEvent>, id: string): seq<RequestEvent>
  {
    Flat(requests, (r: RequestEvent) => if Normalization.ValidRequest(r) && r.requestId == id then [r] else [])
  }

  lemma {:induction false} CountIsOnes(requests: seq<RequestEvent>, id: string)
    ensures Normalization.ValidCount(requests, id) == |ValidOnes(requests, id)|
    ensures Normalization.ValidCount(requests, id) == 1 ==>
              ValidOnes(requests, id) == [Normalization.FindValid(requests, id)]
  {
    hide Normalization.ValidRequest;
    if requests != [] {
      CountIsOnes(requests[..|requests| - 1], id);
    }
  }

  /** A child finds the same parent, and the same reason to be kept. */
  lemma ParentsPermute(a: seq<RequestEvent>, b: seq<RequestEvent>, id: string)
    requires multiset(a) == multiset(b)
    ensures Normalization.ValidCount(a, id) == Normalization.ValidCount(b, id)
    ensures Normalization.ValidCount(a, id) == 1 ==>
              Normalization.FindValid(a, id) == Normalization.FindValid(b, id)
  {
    hide Normalization.ValidRequest;
    CountIsOnes(a, id);
    CountIsOnes(b, id);
    FlatPermutes(a, b, (r: RequestEvent) => if Normalization.ValidRequest(r) && r.requestId == id then [r] else []);
    if Normalization.ValidCount(a, id) == 1 {
      var x, y := Normalization.FindValid(a, id), Normalization.FindValid(b, id);
      assert multiset([x]) == multiset([y]);
      assert x in multiset([x]) && x in multiset([y]);
    }
  }

  lemma NormalRequestsPermute(a: seq<RequestEvent>, b: seq<RequestEvent>)
    requires multiset(a) == multiset(b)
    ensures multiset(Normalization.Requests(a)) == multiset(Normalization.Requests(b))
  {
    hide Normalization.ValidRequest, Normalization.ValidCount, Normalization.ClearRequest;
    var keep, keep' := Normalization.KeepRequest(a), Normalization.KeepRequest(b);
    forall r ensures keep(r) == keep'(r) {
      ParentsPermute(a, b, r.requestId);
    }
    Slicing.RetainAlike(b, keep, keep');
    RetainPermutes(a, b, keep);
    MapPermutes(Slicing.Retain(a, keep), Slicing.Retain(b, keep), Normalization.ClearRequest);
  }

  lemma ChildrenKeptAlike(a: seq<RequestEvent>, b: seq<RequestEvent>)
    requires multiset(a) == multiset(b)
    ensures forall id, child :: Normalization.ChildKept(a, id, child) <==> Normalization.ChildKept(b, id, child)
  {
    hide Normalization.ValidRequest, Normalization.ValidCount, Normalization.FindValid, Normalization.ClearRequest;
    forall id, child ensures Normalization.ChildKept(a, id, child) <==> Normalization.ChildKept(b, id, child) {
      ParentsPermute(a, b, id);
    }
  }

  lemma NormalChildrenPermute(a: Run, b: Run)
    requires Rearranged(a, b)
    ensures multiset(Normalization.Stages(a.requests, a.stages)) == multiset(Normalization.Stages(b.requests, b.stages))
    ensures multiset(Normalization.Queues(a.requests, a.queues)) == multiset(Normalization.Queues(b.requests, b.queues))
  {
    hide Normalization.ChildKept, Normalization.ClearStage, Normalization.ClearQueue, Normalization.ValidStage,
      Normalization.ValidQueue;
    ChildrenKeptAlike(a.requests, b.requests);
    var s, q := Normalization.KeepStage(a.requests), Normalization.KeepQueue(a.requests);
    Slicing.RetainAlike(b.stages, s, Normalization.KeepStage(b.requests));
    Slicing.RetainAlike(b.queues, q, Normalization.KeepQueue(b.requests));
    RetainPermutes(a.stages, b.stages, s);
    RetainPermutes(a.queues, b.queues, q);
    MapPermutes(Slicing.Retain(a.stages, s), Slicing.Retain(b.stages, s), Normalization.ClearStage);
    MapPermutes(Slicing.Retain(a.queues, q), Slicing.Retain(b.queues, q), Normalization.ClearQueue);
  }

  /** The same events in another order, section by section. */
  ghost predicate Rearranged(a: Run, b: Run)
  {
    && multiset(a.requests) == multiset(b.requests)
    && multiset(a.stages) == multiset(b.stages) && multiset(a.queues) == multiset(b.queues)
    && multiset(a.inflight) == multiset(b.inflight) && multiset(a.runtime) == multiset(b.runtime)
    && a.truncation == b.truncation
  }

  /** Normalizing rearranged runs gives rearranged runs, so neither parents nor ambiguity of ids depend
      on the order of the requests. */
  lemma NormalizePermutes(a: Run, b: Run)
    requires Rearranged(a, b)
    ensures Rearranged(Normalization.Normalize(a), Normalization.Normalize(b))
  {
    hide Normalization.Requests, Normalization.Stages, Normalization.Queues, Slicing.Retain;
    NormalRequestsPermute(a.requests, b.requests);
    NormalChildrenPermute(a, b);
    RetainPermutes(a.inflight, b.inflight, Normalization.KeepGauge);
    MapPermutes(a.runtime, b.runtime, Normalization.ClearWorkers);
  }

  // ----- the queue family

  ghost function ShareOf(queues: seq<QueueEvent>, completedOnly: bool): RequestEvent -> seq<u64>
  {
    (r: RequestEvent) => TimeShares.OneShare(queues, r, completedOnly)
  }

  lemma {:induction false} SharesAreFlat(requests: seq<RequestEvent>, queues: seq<QueueEvent>, completedOnly: bool)
    ensures TimeShares.QueueShares(requests, queues, completedOnly) == Flat(requests, ShareOf(queues, completedOnly))
  {
    hide TimeShares.Wait, TimeShares.Share;
    if requests != [] {
      SharesAreFlat(requests[..|requests| - 1], queues, completedOnly);
    }
  }

  lemma RepresentationIgnoresOrder(a: Run, b: Run, completedOnly: bool, growth: bool, options: AnalyzeOptions)
    requires Rearranged(a, b)
    ensures Representation(a.requests, a.queues, completedOnly, growth, options) ==
            Representation(b.requests, b.queues, completedOnly, growth, options)
  {
    hide QueueScore, Percentile, TimeShares.QueueShares, ShareOf;
    TimeShares.SharesIgnoreQueueOrder(a.requests, a.queues, b.queues, completedOnly);
    SharesAreFlat(a.requests, b.queues, completedOnly);
    SharesAreFlat(b.requests, b.queues, completedOnly);
    FlatPermutes(a.requests, b.requests, ShareOf(b.queues, completedOnly));
    PercentileIgnoresOrder(TimeShares.QueueShares(a.requests, b.queues, completedOnly),
                           TimeShares.QueueShares(b.requests, b.queues, completedOnly), 95, 100);
    MaxDepthIgnoresOrder(a.queues, b.queues, completedOnly);
  }

  lemma QueueIgnoresOrder(a: Run, b: Run, growth: bool, options: AnalyzeOptions)
    requires Rearranged(a, b)
    ensures QueueFamily(a, growth, options) == QueueFamily(b, growth, options)
  {
    hide Representation, SelectQueue;
    RepresentationIgnoresOrder(a, b, true, growth, options);
    RepresentationIgnoresOrder(a, b, false, growth, options);
  }

  // ----- the runtime families

  lemma {:induction false} SeriesIsFlat(snapshots: seq<RuntimeSnapshot>, f: RuntimeSnapshot -> Option<u64>)
    ensures Series(snapshots, f) ==
            Flat(snapshots, (x: RuntimeSnapshot) => if f(x).Some? then [f(x).value] else [])
  {
    if snapshots != [] {
      SeriesIsFlat(snapshots[..|snapshots| - 1], f);
    }
  }

  lemma SeriesPermutes(a: seq<RuntimeSnapshot>, b: seq<RuntimeSnapshot>, f: RuntimeSnapshot -> Option<u64>)
    requires multiset(a) == multiset(b)
    ensures multiset(Series(a, f)) == multiset(Series(b, f)) && |Series(a, f)| == |Series(b, f)|
    ensures Percentile(Series(a, f), 95, 100) == Percentile(Series(b, f), 95, 100)
  {
    SeriesIsFlat(a, f);
    SeriesIsFlat(b, f);
    FlatPermutes(a, b, (x: RuntimeSnapshot) => if f(x).Some? then [f(x).value] else []);
    PercentileIgnoresOrder(Series(a, f), Series(b, f), 95, 100);
  }

  lemma {:induction false} NonzeroIsFlat(s: seq<u64>)
    ensures Nonzero(s) == |Flat(s, (v: u64) => if v > 0 then [v] else [])|
  {
    if s != [] {
      NonzeroIsFlat(s[..|s| - 1]);
    }
  }

  lemma MeasurementIgnoresOrder(a: seq<RuntimeSnapshot>, b: seq<RuntimeSnapshot>)
    requires multiset(a) == multiset(b)
    ensures MeasureBlocking(a) == MeasureBlocking(b)
  {
    hide Percentile, Series, Flat;
    var x, y := BlockingDepths(a), BlockingDepths(b);
    SeriesPermutes(a, b, (x: RuntimeSnapshot) => x.blockingDepth);
    NonzeroIsFlat(x);
    NonzeroIsFlat(y);
    FlatPermutes(x, y, (v: u64) => if v > 0 then [v] else []);
    SameElements(x, y);
    MaxGrows(x, y);
    MaxGrows(y, x);
  }

  lemma BlockingIgnoresOrder(a: seq<RuntimeSnapshot>, b: seq<RuntimeSnapshot>, options: AnalyzeOptions)
    requires multiset(a) == multiset(b)
    ensures EligibleBlocking(a, options) == EligibleBlocking(b, options)
    ensures BlockingSuspect(a, options) == BlockingSuspect(b, options)
  {
    hide MeasureBlocking, BlockingScore, FromScore;
    MeasurementIgnoresOrder(a, b);
  }

  lemma ExecutorIgnoresOrder(a: seq<RuntimeSnapshot>, b: seq<RuntimeSnapshot>, status: Option<WorkerEvidence>,
                             growth: bool, options: AnalyzeOptions)
    requires UsableStatus(status) && multiset(a) == multiset(b)
    ensures ExecutorSuspect(a, status, growth, options) == ExecutorSuspect(b, status, growth, options)
  {
    hide Percentile, Series, FromScore, NormalizedContribution, SampleQuality, CapUnlessClean;
    SeriesPermutes(a, b, (x: RuntimeSnapshot) => x.globalDepth);
    SeriesPermutes(a, b, (x: RuntimeSnapshot) => x.localDepth);
    SeriesPermutes(a, b, (x: RuntimeSnapshot) => x.aliveTasks);
    if status.Some? && status.value.Complete? {
      NormalizedIgnoresOrder(a, b, status.value.workerCount);
    }
  }

  lemma NormalizedIgnoresOrder(a: seq<RuntimeSnapshot>, b: seq<RuntimeSnapshot>, workers: nat)
    requires workers > 0 && multiset(a) == multiset(b)
    ensures |NormalizedDepths(a, workers)| == |NormalizedDepths(b, workers)|
    ensures Percentile(NormalizedDepths(a, workers), 95, 100) == Percentile(NormalizedDepths(b, workers), 95, 100)
  {
    hide Percentile, Series, PerWorkerMilli;
    SeriesPermutes(a, b, (x: RuntimeSnapshot) =>
      if x.globalDepth.Some? then Some(PerWorkerMilli(x.globalDepth.value, x.localDepth, workers)) else None);
  }

  /** What the snapshots say about workers is said by which snapshots there are. */
  lemma WorkerEvidenceIgnoresOrder(a: seq<RuntimeSnapshot>, b: seq<RuntimeSnapshot>, r: Option<WorkerEvidence>,
                                   q: Option<WorkerEvidence>)
    requires multiset(a) == multiset(b)
    requires IsWorkerEvidence(a, r) && IsWorkerEvidence(b, q)
    ensures r == q
  {
    SameElements(a, b);
    assert WorkerCounts(a) == WorkerCounts(b);
  }

  // ----- the downstream family

  /** With unique ids each request's context is its own. */
  lemma {:induction false} ContextsAre(requests: seq<RequestEvent>, p95: u64)
    requires Temporal.UniqueIds(requests)
    ensures forall id :: id in ContextsOf(requests, p95) <==> exists r :: r in requests && r.requestId == id
    ensures forall r :: r in requests ==>
              r.requestId in ContextsOf(requests, p95) && ContextsOf(requests, p95)[r.requestId] == ContextOf(r, p95)
  {
    if requests != [] {
      var prior, r := requests[..|requests| - 1], requests[|requests| - 1];
      assert requests == prior + [r];
      ContextsAre(prior, p95);
    }
  }

  lemma ContextsIgnoreOrder(a: seq<RequestEvent>, b: seq<RequestEvent>, p95: u64)
    requires multiset(a) == multiset(b) && Temporal.UniqueIds(a) && Temporal.UniqueIds(b)
    ensures ContextsOf(a, p95) == ContextsOf(b, p95)
  {
    hide ContextsOf;
    SameElements(a, b);
    ContextsAre(a, p95);
    ContextsAre(b, p95);
    var x, y := ContextsOf(a, p95), ContextsOf(b, p95);
    forall id | id in x ensures id in y && x[id] == y[id] {
      var r :| r in a && r.requestId == id;
    }
    assert x.Keys == y.Keys;
  }

  lemma TotalsIgnoreOrder(a: seq<RequestEvent>, b: seq<RequestEvent>, p95: u64)
    requires multiset(a) == multiset(b)
    ensures TotalsOf(a, p95) == TotalsOf(b, p95)
  {
    hide SatSum;
    forall tailOnly ensures SatSum(Weights(a, p95, tailOnly)) == SatSum(Weights(b, p95, tailOnly)) {
      MapPermutes(a, b, (r: RequestEvent) => Weight(ContextOf(r, p95), tailOnly));
      SumPermutes(Weights(a, p95, tailOnly), Weights(b, p95, tailOnly));
    }
  }

  lemma DownstreamIgnoresAnyOrder(a: Run, b: Run, options: AnalyzeOptions)
    requires Rearranged(a, b) && Temporal.UniqueIds(a.requests) && Temporal.UniqueIds(b.requests)
    ensures DownstreamSuspect(a.requests, a.stages, a.runtime, options) ==
            DownstreamSuspect(b.requests, b.stages, b.runtime, options)
  {
    hide BestStage, RelatedScore, FromScore, StageCandidates, Percentile, EligibleBlocking, ContextsOf, TotalsOf,
      SummariesFor;
    MapPermutes(a.requests, b.requests, (r: RequestEvent) => r.latencyUs);
    PercentileIgnoresOrder(Latencies(a.requests), Latencies(b.requests), 95, 100);
    BlockingIgnoresOrder(a.runtime, b.runtime, options);
    var p95 := Percentile(Latencies(a.requests), 95, 100);
    if p95.Some? {
      ContextsIgnoreOrder(a.requests, b.requests, p95.value);
      TotalsIgnoreOrder(a.requests, b.requests, p95.value);
      DualSummariesIgnoreEventOrder(b.requests, a.stages, b.stages, p95.value);
    }
  }

  // ----- candidates, quality and caps

  lemma CandidatesIgnoreOrder(a: Run, b: Run, status: Option<WorkerEvidence>, growth: bool, options: AnalyzeOptions)
    requires Rearranged(a, b) && Temporal.UniqueIds(a.requests) && UsableStatus(status)
    ensures CandidatesOf(a, status, growth, options) == CandidatesOf(b, status, growth, options)
  {
    hide QueueFamily, DownstreamSuspect, BlockingSuspect, ExecutorSuspect, Slot, Temporal.UniqueIds;
    Temporal.UniqueIdsPermute(a.requests, b.requests);
    QueueIgnoresOrder(a, b, growth, options);
    BlockingIgnoresOrder(a.runtime, b.runtime, options);
    ExecutorIgnoresOrder(a.runtime, b.runtime, status, growth, options);
    DownstreamIgnoresAnyOrder(a, b, options);
  }

  lemma QualityIgnoresOrder(a: Run, b: Run, options: AnalyzeOptions)
    requires Rearranged(a, b)
    ensures EvidenceQuality(a, options) == EvidenceQuality(b, options)
  {
    hide EvidenceQuality;
    Permuted(a.requests, b.requests);
    Permuted(a.stages, b.stages);
    Permuted(a.queues, b.queues);
    Permuted(a.runtime, b.runtime);
    StrongQualityMeans(a, options);
    StrongQualityMeans(b, options);
  }

  /** What the caps read of a run. */
  ghost predicate CappedAlike(a: Run, b: Run)
  {
    && |a.requests| == |b.requests| && a.truncation == b.truncation
    && (a.queues == [] <==> b.queues == []) && (a.stages == [] <==> b.stages == [])
    && (a.runtime == [] <==> b.runtime == []) && RuntimePartial(a.runtime) == RuntimePartial(b.runtime)
  }

  lemma RearrangedIsCappedAlike(a: Run, b: Run)
    requires Rearranged(a, b)
    ensures CappedAlike(a, b)
  {
    Permuted(a.requests, b.requests);
    Permuted(a.stages, b.stages);
    Permuted(a.queues, b.queues);
    Permuted(a.runtime, b.runtime);
  }

  lemma CapsIgnoreOrder(a: Run, b: Run, s: Scored, inCluster: bool, quality: Quality, options: AnalyzeOptions)
    requires CappedAlike(a, b)
    ensures Capped(s, inCluster, a, quality, options) == Capped(s, inCluster, b, quality, options)
  {
    hide StableDedup, NoteIf, RuntimePartial;
    SameFamilyNotes(a, b, s.kind, s.basis);
    hide FamilyNotes, FamilyReason;
    assert CapOf(s, inCluster, a, quality, options) == CapOf(s, inCluster, b, quality, options);
    assert NotesOf(s, inCluster, a, options) == NotesOf(s, inCluster, b, options);
  }

  lemma SameFamilyNotes(a: Run, b: Run, kind: Kind, basis: Basis)
    requires CappedAlike(a, b)
    ensures FamilyReason(kind, basis, a) == FamilyReason(kind, basis, b)
    ensures FamilyNotes(kind, basis, a) == FamilyNotes(kind, basis, b)
  {
    hide NoteIf, RuntimePartial;
  }

  lemma RankingIgnoresOrder(a: Run, b: Run, cands: seq<Scored>, quality: Quality, options: AnalyzeOptions)
    requires Rearranged(a, b)
    ensures Ranked(cands, a, quality, options) == Ranked(cands, b, quality, options)
  {
    hide Capped, InCluster, Sort, Rescored, CappedAlike;
    var s := Rescored(cands, options);
    RearrangedIsCappedAlike(a, b);
    forall i | 0 <= i < |s|
      ensures Capped(s[i], InCluster(s, options, i), a, quality, options) ==
              Capped(s[i], InCluster(s, options, i), b, quality, options)
    {
      CapsIgnoreOrder(a, b, s[i], InCluster(s, options, i), quality, options);
    }
    assert CappedAll(s, a, quality, options) == CappedAll(s, b, quality, options);
  }

  // ----- in-flight samples

  lemma {:induction false} GaugeIsFlat(snapshots: seq<InFlightSnapshot>, gauge: string)
    ensures ForGauge(snapshots, gauge) ==
            Flat(snapshots, (x: InFlightSnapshot) => if x.gauge == gauge then [x] else [])
  {
    if snapshots != [] {
      GaugeIsFlat(snapshots[..|snapshots| - 1], gauge);
    }
  }

  /** Samples of one gauge that its clock cannot tell apart are equal. */
  ghost predicate Told(samples: seq<InFlightSnapshot>)
  {
    TieFree(samples, TimeLe(OrderingOf(samples)))
  }

  /** Each gauge kept its samples in their order, or its clock orders them. */
  ghost predicate SamplesTold(a: Run, b: Run)
  {
    forall g :: ForGauge(a.inflight, g) == ForGauge(b.inflight, g) || Told(ForGauge(a.inflight, g))
  }

  lemma GaugeIgnoresOrder(a: seq<InFlightSnapshot>, b: seq<InFlightSnapshot>, gauge: string)
    requires multiset(a) == multiset(b)
    requires ForGauge(a, gauge) == ForGauge(b, gauge) || Told(ForGauge(a, gauge))
    ensures CandidateIn(a, gauge) == CandidateIn(b, gauge)
  {
    hide Latest, Sort, ForGauge, Time, TieFree;
    GaugeIsFlat(a, gauge);
    GaugeIsFlat(b, gauge);
    FlatPermutes(a, b, (x: InFlightSnapshot) => if x.gauge == gauge then [x] else []);
    var x, y := ForGauge(a, gauge), ForGauge(b, gauge);
    Permuted(x, y);
    var o := OrderingOf(x);
    assert o == OrderingOf(y);
    if x != y {
      TimeOrder(o);
      SortOfPermutation(x, y, TimeLe(o));
    }
  }

  lemma TrendIgnoresOrder(a: Run, b: Run, r: Option<Candidate>, q: Option<Candidate>)
    requires Rearranged(a, b) && SamplesTold(a, b)
    requires IsDominant(a.inflight, r) && IsDominant(b.inflight, q)
    ensures r == q
  {
    hide Told, NotGreater;
    forall g ensures CandidateIn(a.inflight, g) == CandidateIn(b.inflight, g) {
      GaugeIgnoresOrder(a.inflight, b.inflight, g);
    }
    hide CandidateIn;
    assert IsDominant(a.inflight, q) by {
      forall g, c ensures NotAbove(a.inflight, g, c) <==> NotAbove(b.inflight, g, c) {}
    }
    hide IsDominant, NotAbove;
    DominantUnique(a.inflight, r, q);
  }

  // ----- the whole analysis

  /** Whatever order the events of a run were appended in, an analysis of the normalized run returns the
      same ranked suspects, with the same scores, confidences and notes, and the same dominant gauge. */
  lemma AnalysisIgnoresOrder(a: Run, b: Run, statusA: Option<WorkerEvidence>, statusB: Option<WorkerEvidence>,
                             trendA: Option<Candidate>, trendB: Option<Candidate>, options: AnalyzeOptions)
    requires Rearranged(a, b)
    requires IsWorkerEvidence(a.runtime, statusA) && IsWorkerEvidence(b.runtime, statusB)
    requires UsableStatus(statusA) && UsableStatus(statusB)
    requires var m, n := Normalization.Normalize(a), Normalization.Normalize(b);
             SamplesTold(m, n) && IsDominant(m.inflight, trendA) && IsDominant(n.inflight, trendB)
    ensures statusA == statusB && trendA == trendB
    ensures var m, n := Normalization.Normalize(a), Normalization.Normalize(b);
            Ranked(CandidatesOf(m, statusA, Growing(trendA), options), m, EvidenceQuality(m, options), options) ==
            Ranked(CandidatesOf(n, statusB, Growing(trendB), options), n, EvidenceQuality(n, options), options)
  {
    hide Normalization.Normalize, CandidatesOf, EvidenceQuality, Ranked, IsWorkerEvidence, IsDominant, SamplesTold,
      UsableStatus;
    var m, n := Normalization.Normalize(a), Normalization.Normalize(b);
    NormalizePermutes(a, b);
    Normalization.NormalizeMeetsPreconditions(a);
    WorkerEvidenceIgnoresOrder(a.runtime, b.runtime, statusA, statusB);
    TrendIgnoresOrder(m, n, trendA, trendB);
    CandidatesIgnoreOrder(m, n, statusA, Growing(trendA), options);
    QualityIgnoresOrder(m, n, options);
    RankingIgnoresOrder(m, n, CandidatesOf(m, statusA, Growing(trendA), options), EvidenceQuality(m, options), options);
  }

  /** Samples at one time are told apart by their positions alone: swapping two of them can end an episode. */
  lemma TiedSamplesMatter(gauge: string, t: u64)
    ensures var up, down := InFlightSnapshot(gauge, t, None, 1), InFlightSnapshot(gauge, t, None, 0);
            && multiset([up, down]) == multiset([down, up])
            && CandidateFor(gauge, [up, down]).Some? && CandidateFor(gauge, [down, up]).Some?
            && !CandidateFor(gauge, [up, down]).value.active && CandidateFor(gauge, [down, up]).value.active
  {
    hide CandidateFor;
    var up, down := InFlightSnapshot(gauge, t, None, 1), InFlightSnapshot(gauge, t, None, 0);
    ActiveMeansLastPositive(gauge, [up, down]);
    ActiveMeansLastPositive(gauge, [down, up]);
    TiedStay(up, down);
    TiedStay(down, up);
    assert up in [up, down] && up in [down, up];
  }

  lemma TiedStay(x: InFlightSnapshot, y: InFlightSnapshot)
    requires x.atRunUs.None? && x.atUnixMs == y.atUnixMs
    ensures Sort([x, y], TimeLe(OrderingOf([x, y]))) == [x, y]
  {
    var le := TimeLe(OrderingOf([x, y]));
    assert x in [x, y] && [x, y][1..] == [y] && [y][1..] == [];
    assert Sort([y], le) == Insert(y, Sort([], le), le) == [y];
  }
}
