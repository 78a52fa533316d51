/** The evidence pipeline from a normalized run to ranked suspects, and what holds across it. */
module Analysis {
  import opened Machine
  import opened Sorting
  import opened Events
  import opened Percentiles
  import opened Attribution
  import TimeShares
  import opened StageAttribution
  import Inflight
  import opened Suspects
  import opened Scoring
  import ScoreLaws
  import opened Evidence
  import opened ConfidenceCaps

  // ----- ranking

  function KindRank(k: Kind): nat
  {
    match k case Queue => 0 case Blocking => 1 case Executor => 2 case Downstream => 3 case Insufficient => 255
  }

  /** Real suspects first, then falling confidence, falling score, and the fixed family order. */
  predicate FinalLe(a: Scored, b: Scored)
  {
    if a.kind.Insufficient? != b.kind.Insufficient? then b.kind.Insufficient?
    else if a.confidence != b.confidence then a.confidence.Rank() > b.confidence.Rank()
    else if a.score != b.score then a.score > b.score
    else KindRank(a.kind) <= KindRank(b.kind)
  }

  /** Who comes first of two suspects: a real one before the fallback, then the more confident, then the
      higher score, then queue before blocking before executor before downstream. */
  predicate ComesFirst(a: Scored, b: Scored)
  {
    && (a.kind.Insufficient? ==> b.kind.Insufficient?)
    && (!a.kind.Insufficient? && !b.kind.Insufficient? ==>
          && (b.confidence.High? ==> a.confidence.High?)
          && (b.confidence.Medium? ==> !a.confidence.Low?)
          && (a.confidence == b.confidence ==> a.score >= b.score)
          && (a.confidence == b.confidence && a.score == b.score ==>
                && (b.kind.Queue? ==> a.kind.Queue?)
                && (b.kind.Blocking? ==> a.kind.Queue? || a.kind.Blocking?)
                && (b.kind.Executor? ==> !a.kind.Downstream?)))
  }

  ghost predicate InRankOrder(s: seq<Scored>)
  {
    forall i, j :: 0 <= i < j < |s| ==> ComesFirst(s[i], s[j])
  }

  lemma RankedInOrder(cands: seq<Scored>, run: Run, quality: Quality, options: AnalyzeOptions)
    ensures InRankOrder(Ranked(cands, run, quality, options))
    ensures multiset(Ranked(cands, run, quality, options)) == multiset(Finals(cands, run, quality, options))
  {
    hide Finals, FinalLe, ComesFirst;
    var finals, ranked := Finals(cands, run, quality, options), Ranked(cands, run, quality, options);
    FinalOrder();
    SortPermutes(finals, FinalLe);
    SortSorts(finals, FinalLe);
    forall i, j | 0 <= i < j < |ranked| ensures ComesFirst(ranked[i], ranked[j]) {
      FinalLeComesFirst(ranked[i], ranked[j]);
    }
  }

  lemma FinalLeComesFirst(a: Scored, b: Scored)
    requires FinalLe(a, b)
    ensures ComesFirst(a, b)
  {}

  /** The primary suspect scores highest among the most confident, and is the fallback only when there
      is nothing else. */
  lemma PrimaryIsBest(cands: seq<Scored>, run: Run, quality: Quality, options: AnalyzeOptions, c: Scored)
    requires c in Finals(cands, run, quality, options)
    ensures var ranked := Ranked(cands, run, quality, options);
            && ranked != [] && ranked[0] in Finals(cands, run, quality, options)
            && (ranked[0].kind.Insufficient? ==> c.kind.Insufficient?)
            && (!c.kind.Insufficient? ==>
                  && (c.confidence.High? ==> ranked[0].confidence.High?)
                  && (c.confidence.Medium? ==> !ranked[0].confidence.Low?)
                  && (c.confidence == ranked[0].confidence ==> c.score <= ranked[0].score))
  {
    hide Finals, Ranked;
    var ranked := Ranked(cands, run, quality, options);
    RankedInOrder(cands, run, quality, options);
    SameElements(ranked, Finals(cands, run, quality, options));
    var k :| 0 <= k < |ranked| && ranked[k] == c;
    assert ranked[0] in ranked;
    assert k > 0 ==> ComesFirst(ranked[0], ranked[k]);
  }

  lemma FinalOrder()
    ensures TotalPreorder(FinalLe)
    ensures forall a, b :: FinalLe(a, b) && FinalLe(b, a) ==> a.kind == b.kind
  {}

  ghost predicate DistinctKinds(s: seq<Scored>)
  {
    forall i, j :: 0 <= i < j < |s| ==> s[i].kind != s[j].kind
  }

  function Rescored(s: seq<Scored>, options: AnalyzeOptions): (r: seq<Scored>)
    ensures |r| == |s| && forall i :: 0 <= i < |s| ==> r[i] == s[i].(confidence := FromScore(s[i].score, options))
  {
    seq(|s|, i requires 0 <= i < |s| => s[i].(confidence := FromScore(s[i].score, options)))
  }

  /** The candidates after caps, in family order. */
  ghost function Finals(cands: seq<Scored>, run: Run, quality: Quality, options: AnalyzeOptions): (r: seq<Scored>)
    ensures |r| == |cands|
  {
    CappedAll(Rescored(cands, options), run, quality, options)
  }

  ghost function Ranked(cands: seq<Scored>, run: Run, quality: Quality, options: AnalyzeOptions): seq<Scored>
  {
    Sort(Finals(cands, run, quality, options), FinalLe)
  }

  method FinalizeScoredSuspects(cands: seq<Scored>, run: Run, quality: Quality, options: AnalyzeOptions)
    returns (ranked: seq<Scored>)
    ensures ranked == Ranked(cands, run, quality, options)
    ensures InRankOrder(ranked)
  {
    hide CappedAll, FromScore, InRankOrder, FinalLe, Sort;
    var suspects := new Scored[|cands|](i requires 0 <= i < |cands| => cands[i]);
    for i := 0 to suspects.Length
      invariant forall j :: 0 <= j < i ==> suspects[j] == cands[j].(confidence := FromScore(cands[j].score, options))
      invariant forall j :: i <= j < suspects.Length ==> suspects[j] == cands[j]
    {
      suspects[i] := suspects[i].(confidence := FromScore(suspects[i].score, options));
    }
    assert suspects[..] == Rescored(cands, options);
    ApplyEvidenceAwareConfidenceCaps(suspects, run, quality, options);
    ranked := Sort(suspects[..], FinalLe);
    RankedInOrder(cands, run, quality, options);
  }

  /** Caps change confidence and notes only, never raise confidence, and leave no cluster member High. */
  lemma FinalsAre(cands: seq<Scored>, run: Run, quality: Quality, options: AnalyzeOptions, i: nat)
    requires i < |cands|
    ensures var f := Finals(cands, run, quality, options)[i];
            && f.kind == cands[i].kind && f.score == cands[i].score && f.basis == cands[i].basis
            && f.confidence == FromScore(cands[i].score, options).AtMost(
                                 CapOf(cands[i], InCluster(cands, options, i), run, quality, options))
            && f.confidence.Rank() <= FromScore(cands[i].score, options).Rank()
            && (InCluster(cands, options, i) ==> !f.confidence.High?)
  {
    hide Close;
    SameCloseness(cands, Rescored(cands, options), options);
    var s := Rescored(cands, options)[i];
    var inCluster := InCluster(cands, options, i);
    assert CapOf(s, inCluster, run, quality, options) == CapOf(cands[i], inCluster, run, quality, options);
    assert InCluster(cands, options, i) ==> Real(cands[i]) by { CloseIsReal(cands, options, i); }
  }

  lemma CloseIsReal(s: seq<Scored>, options: AnalyzeOptions, i: int)
    ensures Close(s, options, i) ==> Real(s[i])
  {}

  /** Closeness looks at kinds and scores alone. */
  lemma SameCloseness(a: seq<Scored>, b: seq<Scored>, options: AnalyzeOptions)
    requires |a| == |b| && forall i :: 0 <= i < |a| ==> a[i].kind == b[i].kind && a[i].score == b[i].score
    ensures forall i :: Close(a, options, i) <==> Close(b, options, i)
    ensures forall i :: InCluster(a, options, i) <==> InCluster(b, options, i)
  {}

  /** The ranking is the only sorted arrangement of the capped candidates. */
  lemma RankingIsUnique(cands: seq<Scored>, run: Run, quality: Quality, options: AnalyzeOptions, other: seq<Scored>)
    requires DistinctKinds(cands)
    ensures var ranked := Ranked(cands, run, quality, options);
            && multiset(ranked) == multiset(Finals(cands, run, quality, options))
            && Sorted(ranked, FinalLe) && DistinctKinds(ranked)
            && (multiset(other) == multiset(ranked) && Sorted(other, FinalLe) ==> other == ranked)
  {
    hide Capped, FinalLe;
    var finals := Finals(cands, run, quality, options);
    var ranked := Ranked(cands, run, quality, options);
    FinalOrder();
    SortPermutes(finals, FinalLe);
    SortSorts(finals, FinalLe);
    forall i | 0 <= i < |cands| ensures finals[i].kind == cands[i].kind {
      FinalsAre(cands, run, quality, options, i);
    }
    KindsStayDistinct(finals, ranked);
    if multiset(other) == multiset(ranked) && Sorted(other, FinalLe) {
      SortedUnique(ranked, other, FinalLe);
    }
  }

  lemma KindsStayDistinct(a: seq<Scored>, b: seq<Scored>)
    requires DistinctKinds(a) && multiset(a) == multiset(b)
    ensures DistinctKinds(b)
  {
    PermutationDistinct(a, b);
    forall i, j | 0 <= i < j < |b| ensures b[i].kind != b[j].kind {
      assert b[i] in multiset(a) && b[j] in multiset(a);
      var x :| 0 <= x < |a| && a[x] == b[i];
      var y :| 0 <= y < |a| && a[y] == b[j];
    }
  }

  ghost predicate Has(s: seq<Scored>, kind: Kind, score: nat)
  {
    exists j :: 0 <= j < |s| && s[j].kind == kind && s[j].score == score
  }

  /** Each suspect of `a` has one of the same kind and score in `b`. */
  ghost predicate ScoresIn(a: seq<Scored>, b: seq<Scored>)
  {
    forall i :: 0 <= i < |a| ==> Has(b, a[i].kind, a[i].score)
  }

  lemma CloseCarries(a: seq<Scored>, b: seq<Scored>, options: AnalyzeOptions, i: int) returns (j: int)
    requires ScoresIn(a, b) && ScoresIn(b, a) && Close(a, options, i)
    ensures Close(b, options, j) && b[j].kind == a[i].kind
  {
    hide Has;
    assert Has(b, a[i].kind, a[i].score);
    j := Find(b, a[i].kind, a[i].score);
    forall k | 0 <= k < |b| && Real(b[k]) ensures b[k].score <= b[j].score + options.ambiguityGap {
      assert Has(a, b[k].kind, b[k].score);
      var m := Find(a, b[k].kind, b[k].score);
      assert Real(a[m]);
    }
  }

  lemma Find(s: seq<Scored>, kind: Kind, score: nat) returns (j: int)
    requires Has(s, kind, score)
    ensures 0 <= j < |s| && s[j].kind == kind && s[j].score == score
  {
    j :| 0 <= j < |s| && s[j].kind == kind && s[j].score == score;
  }

  lemma ClusterCarries(a: seq<Scored>, b: seq<Scored>, options: AnalyzeOptions, i: int)
    requires DistinctKinds(a) && ScoresIn(a, b) && ScoresIn(b, a) && InCluster(a, options, i)
    ensures exists x :: InCluster(b, options, x)
  {
    hide ScoresIn, Close;
    var j :| j != i && Close(a, options, j);
    var x := CloseCarries(a, b, options, i);
    var y := CloseCarries(a, b, options, j);
    CloseIsIndex(a, options, i);
    CloseIsIndex(a, options, j);
    assert x != y;
    assert InCluster(b, options, x);
  }

  lemma CloseIsIndex(s: seq<Scored>, options: AnalyzeOptions, i: int)
    requires Close(s, options, i)
    ensures 0 <= i < |s|
  {}

  /** The warning computed on the ranked list fires exactly when capping found a cluster. */
  lemma WarningMeansCluster(cands: seq<Scored>, run: Run, quality: Quality, options: AnalyzeOptions)
    requires DistinctKinds(cands)
    ensures (exists i :: InCluster(Ranked(cands, run, quality, options), options, i))
            <==> (exists i :: InCluster(cands, options, i))
  {
    var finals, ranked := Finals(cands, run, quality, options), Ranked(cands, run, quality, options);
    RankedScores(cands, run, quality, options);
    hide InCluster, Ranked, ScoresIn, DistinctKinds;
    if i :| InCluster(cands, options, i) { ClusterCarries(cands, ranked, options, i); }
    if i :| InCluster(ranked, options, i) { ClusterCarries(ranked, cands, options, i); }
  }

  lemma RankedScores(cands: seq<Scored>, run: Run, quality: Quality, options: AnalyzeOptions)
    requires DistinctKinds(cands)
    ensures var ranked := Ranked(cands, run, quality, options);
            DistinctKinds(ranked) && ScoresIn(cands, ranked) && ScoresIn(ranked, cands)
  {
    hide FinalLe, Finals;
    var finals, ranked := Finals(cands, run, quality, options), Ranked(cands, run, quality, options);
    forall i | 0 <= i < |cands| ensures finals[i].kind == cands[i].kind && finals[i].score == cands[i].score {
      FinalsAre(cands, run, quality, options, i);
    }
    SortPermutes(finals, FinalLe);
    KindsStayDistinct(finals, ranked);
    forall i | 0 <= i < |cands| ensures Has(ranked, cands[i].kind, cands[i].score) {
      assert finals[i] in ranked;
    }
    forall i | 0 <= i < |ranked| ensures Has(cands, ranked[i].kind, ranked[i].score) {
      assert ranked[i] in finals;
      var j :| 0 <= j < |finals| && finals[j] == ranked[i];
      assert cands[j].kind == ranked[i].kind;
    }
  }

  // ----- the four families

  /** One slot per diagnosis family. */
  class FamilyCandidates {
    var queue: Option<Scored>
    var blocking: Option<Scored>
    var executor: Option<Scored>
    var downstream: Option<Scored>

    constructor ()
      ensures queue.None? && blocking.None? && executor.None? && downstream.None?
    {
      queue, blocking, executor, downstream := None, None, None, None;
    }

    method SetQueue(c: Option<Scored>)
      modifies this`queue
      ensures queue == c
    { queue := c; }

    method SetBlocking(c: Option<Scored>)
      modifies this`blocking
      ensures blocking == c
    { blocking := c; }

    method SetExecutor(c: Option<Scored>)
      modifies this`executor
      ensures executor == c
    { executor := c; }

    method SetDownstream(c: Option<Scored>)
      modifies this`downstream
      ensures downstream == c
    { downstream := c; }

    function IntoCrossFamilyCandidates(): seq<Scored>
      reads this
    {
      Slot(queue) + Slot(blocking) + Slot(executor) + Slot(downstream)
    }
  }

  function Slot(c: Option<Scored>): seq<Scored> { if c.Some? then [c.value] else [] }

  ghost function QueueFamily(run: Run, growth: bool, options: AnalyzeOptions): Option<Scored>
  {
    SelectQueue(Representation(run.requests, run.queues, true, growth, options),
                Representation(run.requests, run.queues, false, growth, options))
  }

  ghost function FamiliesOf(run: Run, status: Option<WorkerEvidence>, growth: bool,
                            options: AnalyzeOptions): seq<Scored>
    requires UsableStatus(status)
  {
    Slot(QueueFamily(run, growth, options)) + Slot(BlockingSuspect(run.runtime, options))
    + Slot(ExecutorSuspect(run.runtime, status, growth, options))
    + Slot(DownstreamSuspect(run.requests, run.stages, run.runtime, options))
  }

  function Fallback(options: AnalyzeOptions): Scored
  {
    NewScored(Insufficient, 50, Completed, None, options)
  }

  ghost function CandidatesOf(run: Run, status: Option<WorkerEvidence>, growth: bool,
                              options: AnalyzeOptions): seq<Scored>
    requires UsableStatus(status)
  {
    var families := FamiliesOf(run, status, growth, options);
    if families == [] then [Fallback(options)] else families
  }

  predicate RunNormalized(run: Run)
  {
    TimeShares.QueuesNormalized(run.queues) && StagesNormalized(run.stages)
  }

  function Growing(trend: Option<Inflight.Candidate>): bool
  {
    trend.Some? && trend.value.KnownPositiveGrowth()
  }

  /** The worker status comes from the run as captured; everything else from the normalized run. */
  method AnalyzeRun(run: Run, status: Option<WorkerEvidence>, options: AnalyzeOptions)
    returns (ranked: seq<Scored>, trend: Option<Inflight.Candidate>, ambiguous: bool)
    requires RunNormalized(run) && UsableStatus(status)
    ensures Inflight.IsDominant(run.inflight, trend)
    ensures ranked == Ranked(CandidatesOf(run, status, Growing(trend), options),
                      run, EvidenceQuality(run, options), options)
    ensures ambiguous <==> exists i :: InCluster(ranked, options, i)
    ensures ranked != [] && InRankOrder(ranked)
  {
    hide InRankOrder, Ranked, EvidenceQuality, UsableStatus, QueueSuspect, QueueFamily, BlockingSuspect,
      ExecutorSuspect, DownstreamSuspect, Slot, Inflight.IsDominant, InCluster, TimeShares.SharesOf,
      TimeShares.QueuesNormalized,
      StagesNormalized, FromScore;
    var shares := TimeShares.ComputeRequestTimeShares(run);
    trend := Inflight.DominantInflightCandidate(run.inflight);
    var growth := Growing(trend);
    var families := new FamilyCandidates();
    var queue := QueueSuspect(run.queues, shares, growth, options);
    var downstream := ComputeDownstreamSuspect(run.requests, run.stages, run.runtime, options);
    families.SetQueue(queue);
    families.SetBlocking(BlockingSuspect(run.runtime, options));
    families.SetExecutor(ExecutorSuspect(run.runtime, status, growth, options));
    families.SetDownstream(downstream);
    var suspects := families.IntoCrossFamilyCandidates();
    QueueSuspectIsFamily(run, growth, options);
    assert suspects == FamiliesOf(run, status, growth, options);
    if suspects == [] {
      suspects := suspects + [Fallback(options)];
    }
    assert suspects == CandidatesOf(run, status, growth, options);
    ranked := FinalizeScoredSuspects(suspects, run, EvidenceQuality(run, options), options);
    RankedLength(suspects, run, EvidenceQuality(run, options), options);
    ambiguous := AmbiguityWarning(ranked, options);
  }

  lemma QueueSuspectIsFamily(run: Run, growth: bool, options: AnalyzeOptions)
    ensures QueueSuspect(run.queues, TimeShares.SharesOf(run.requests, run.queues), growth, options) ==
            QueueFamily(run, growth, options)
  {}

  lemma RankedLength(cands: seq<Scored>, run: Run, quality: Quality, options: AnalyzeOptions)
    ensures |Ranked(cands, run, quality, options)| == |cands|
  {
    SortPermutes(Finals(cands, run, quality, options), FinalLe);
  }

  // ----- laws across the pipeline

  ghost predicate Plausible(c: Scored, run: Run, status: Option<WorkerEvidence>, growth: bool, options: AnalyzeOptions)
    requires UsableStatus(status)
  {
    match c.kind
    case Queue => QueueFamily(run, growth, options) == Some(c)
    case Blocking => BlockingSuspect(run.runtime, options) == Some(c)
    case Executor => ExecutorSuspect(run.runtime, status, growth, options) == Some(c)
    case Downstream => DownstreamSuspect(run.requests, run.stages, run.runtime, options) == Some(c)
    case Insufficient => c == Fallback(options)
  }

  lemma FamilyKinds(run: Run, status: Option<WorkerEvidence>, growth: bool, options: AnalyzeOptions)
    requires UsableStatus(status)
    ensures var q, b := QueueFamily(run, growth, options), BlockingSuspect(run.runtime, options);
            (q.Some? ==> q.value.kind == Queue) && (b.Some? ==> b.value.kind == Blocking)
    ensures var e, d := ExecutorSuspect(run.runtime, status, growth, options),
                        DownstreamSuspect(run.requests, run.stages, run.runtime, options);
            (e.Some? ==> e.value.kind == Executor) && (d.Some? ==> d.value.kind == Downstream)
  {
    hide QueueScore, BlockingScore, StageScore, RelatedScore, FromScore,
      EligibleBlocking, ExecutorSuspect, BestOf, Percentile;
    ExecutorKind(run.runtime, status, growth, options);
  }

  lemma ExecutorKind(snapshots: seq<RuntimeSnapshot>, status: Option<WorkerEvidence>, growth: bool,
                     options: AnalyzeOptions)
    requires UsableStatus(status)
    ensures var e := ExecutorSuspect(snapshots, status, growth, options);
            e.Some? ==> e.value.kind == Executor && e.value.basis.Completed? && snapshots != []
  {
    hide LegacyExecutorScore, FromScore, NormalizedContribution, NormalizedDepths;
  }

  /** One candidate per family, each the family's own choice. */
  lemma CandidatesAreDistinctFamilies(run: Run, status: Option<WorkerEvidence>, growth: bool, options: AnalyzeOptions)
    requires UsableStatus(status)
    ensures var cands := CandidatesOf(run, status, growth, options);
            cands != [] && DistinctKinds(cands) &&
            forall i :: 0 <= i < |cands| ==> Plausible(cands[i], run, status, growth, options)
  {
    hide QueueFamily, BlockingSuspect, ExecutorSuspect, DownstreamSuspect, Slot, DistinctKinds;
    FamilyKinds(run, status, growth, options);
    SlotsAreDistinct(QueueFamily(run, growth, options), BlockingSuspect(run.runtime, options),
                     ExecutorSuspect(run.runtime, status, growth, options),
                     DownstreamSuspect(run.requests, run.stages, run.runtime, options));
    OneKind(Fallback(options));
    var cands := CandidatesOf(run, status, growth, options);
    forall i | 0 <= i < |cands| ensures Plausible(cands[i], run, status, growth, options) {
      assert cands[i] in cands;
    }
  }

  lemma SlotsAreDistinct(q: Option<Scored>, b: Option<Scored>, e: Option<Scored>, d: Option<Scored>)
    requires (q.Some? ==> q.value.kind == Queue) && (b.Some? ==> b.value.kind == Blocking)
    requires (e.Some? ==> e.value.kind == Executor) && (d.Some? ==> d.value.kind == Downstream)
    ensures DistinctKinds(Slot(q) + Slot(b) + Slot(e) + Slot(d))
    ensures forall x :: x in Slot(q) + Slot(b) + Slot(e) + Slot(d) ==>
              q == Some(x) || b == Some(x) || e == Some(x) || d == Some(x)
  {
    hide Slot, DistinctKinds;
    NoKinds();
    AppendSlot([], q, Queue);
    assert [] + Slot(q) == Slot(q);
    AppendSlot(Slot(q), b, Blocking);
    AppendSlot(Slot(q) + Slot(b), e, Executor);
    AppendSlot(Slot(q) + Slot(b) + Slot(e), d, Downstream);
  }

  lemma NoKinds()
    ensures DistinctKinds([])
  {}

  lemma OneKind(c: Scored)
    ensures DistinctKinds([c])
  {}

  lemma AppendSlot(s: seq<Scored>, c: Option<Scored>, kind: Kind)
    requires DistinctKinds(s) && forall x :: x in s ==> KindRank(x.kind) < KindRank(kind)
    requires c.Some? ==> c.value.kind == kind
    ensures DistinctKinds(s + Slot(c)) && forall x :: x in s + Slot(c) ==> KindRank(x.kind) <= KindRank(kind)
    ensures forall x :: x in s + Slot(c) <==> x in s || c == Some(x)
  {
    if c.Some? {
      forall i | 0 <= i < |s| ensures s[i].kind != kind {
        assert s[i] in s;
      }
    }
  }

  // --- events are appended in lock order, which need not be clock order

  lemma MaxDepthIgnoresOrder(a: seq<QueueEvent>, b: seq<QueueEvent>, completedOnly: bool)
    requires multiset(a) == multiset(b)
    ensures Inflight.MaxOrZero(Depths(a, completedOnly)) == Inflight.MaxOrZero(Depths(b, completedOnly))
  {
    ScoreLaws.DepthsAre(a, completedOnly);
    ScoreLaws.DepthsAre(b, completedOnly);
    SameElements(a, b);
    MaxGrows(Depths(a, completedOnly), Depths(b, completedOnly));
    MaxGrows(Depths(b, completedOnly), Depths(a, completedOnly));
  }

  /** The candidates do not depend on the order in which queue and stage events were appended. */
  lemma CandidatesIgnoreEventOrder(a: Run, b: Run, status: Option<WorkerEvidence>, growth: bool,
                                   options: AnalyzeOptions)
    requires UsableStatus(status) && a.requests == b.requests && a.runtime == b.runtime
    requires multiset(a.queues) == multiset(b.queues) && multiset(a.stages) == multiset(b.stages)
    ensures CandidatesOf(a, status, growth, options) == CandidatesOf(b, status, growth, options)
  {
    QueueFamilyIgnoresOrder(a, b, growth, options);
    DownstreamIgnoresOrder(a, b, options);
    hide QueueFamily, DownstreamSuspect, BlockingSuspect, ExecutorSuspect, Slot;
  }

  lemma QueueFamilyIgnoresOrder(a: Run, b: Run, growth: bool, options: AnalyzeOptions)
    requires a.requests == b.requests && multiset(a.queues) == multiset(b.queues)
    ensures QueueFamily(a, growth, options) == QueueFamily(b, growth, options)
  {
    hide QueueScore, SelectQueue, Percentile;
    forall completedOnly ensures Representation(a.requests, a.queues, completedOnly, growth, options) ==
                                 Representation(b.requests, b.queues, completedOnly, growth, options)
    {
      TimeShares.SharesIgnoreQueueOrder(a.requests, a.queues, b.queues, completedOnly);
      MaxDepthIgnoresOrder(a.queues, b.queues, completedOnly);
    }
  }

  lemma DownstreamIgnoresOrder(a: Run, b: Run, options: AnalyzeOptions)
    requires a.requests == b.requests && a.runtime == b.runtime && multiset(a.stages) == multiset(b.stages)
    ensures DownstreamSuspect(a.requests, a.stages, a.runtime, options) ==
            DownstreamSuspect(b.requests, b.stages, b.runtime, options)
  {
    hide DualSummaries, BestStage, RelatedScore, FromScore, StageCandidates, Percentile;
    var p95 := Percentile(Latencies(a.requests), 95, 100);
    if p95.Some? {
      DualSummariesIgnoreEventOrder(a.requests, a.stages, b.stages, p95.value);
    }
  }

  // --- lower bounds come from partial events

  /** A suspect resting on a lower bound is a queue or downstream suspect, and the run holds a partial
      event of that family, whatever order the hash maps were visited in. */
  lemma LowerBoundNeedsPartial(run: Run, status: Option<WorkerEvidence>, growth: bool, options: AnalyzeOptions,
                               c: Scored)
    requires UsableStatus(status)
    requires c in CandidatesOf(run, status, growth, options) && c.basis.ObservedLowerBound?
    ensures (c.kind.Queue? && exists q :: q in run.queues && !q.completed)
            || (c.kind.Downstream? && exists e :: e in run.stages && !e.completed)
  {
    hide CandidatesOf, QueueFamily, BlockingSuspect, ExecutorSuspect, DownstreamSuspect;
    CandidatesAreDistinctFamilies(run, status, growth, options);
    match c.kind {
      case Queue => LowerBoundQueue(run, growth, options, c);
      case Downstream => LowerBoundDownstream(run, options, c);
      case Blocking => CompletedFamilies(run, status, growth, options, c);
      case Executor => CompletedFamilies(run, status, growth, options, c);
      case Insufficient =>
    }
  }

  lemma LowerBoundQueue(run: Run, growth: bool, options: AnalyzeOptions, c: Scored)
    requires QueueFamily(run, growth, options) == Some(c) && c.basis.ObservedLowerBound?
    ensures exists q :: q in run.queues && !q.completed
  {
    hide Representation, SelectQueue;
    LowerBoundQueueNeedsPartial(run.requests, run.queues, growth, options);
  }

  lemma LowerBoundDownstream(run: Run, options: AnalyzeOptions, c: Scored)
    requires DownstreamSuspect(run.requests, run.stages, run.runtime, options) == Some(c) && c.basis.ObservedLowerBound?
    ensures exists e :: e in run.stages && !e.completed
  {
    hide BestOf, RelatedScore, FromScore, Percentile, EligibleBlocking;
    LowerBoundStageNeedsPartial(run.requests, run.stages, Percentile(Latencies(run.requests), 95, 100).value, options);
  }

  lemma CompletedFamilies(run: Run, status: Option<WorkerEvidence>, growth: bool, options: AnalyzeOptions, c: Scored)
    requires UsableStatus(status)
    requires BlockingSuspect(run.runtime, options) == Some(c) ||
             ExecutorSuspect(run.runtime, status, growth, options) == Some(c)
    ensures c.basis.Completed?
  {
    hide ExecutorSuspect, FromScore, BlockingScore, EligibleBlocking;
    ExecutorKind(run.runtime, status, growth, options);
  }

  // --- strong evidence

  lemma {:induction false} NoQueuesNoInputs(requests: seq<RequestEvent>, completedOnly: bool)
    ensures forall k :: 0 <= k < |TimeShares.QueueShares(requests, [], completedOnly)| ==>
              TimeShares.QueueShares(requests, [], completedOnly)[k] == 0
    ensures TimeShares.QueueShares(requests, [], completedOnly) != [] <==> exists r :: r in requests && r.latencyUs != 0
  {
    if requests != [] {
      var prior, r := requests[..|requests| - 1], requests[|requests| - 1];
      assert requests == prior + [r];
      NoQueuesNoInputs(prior, completedOnly);
      if r.latencyUs != 0 {
        NoWait(r, completedOnly);
      }
    }
  }

  lemma NoWait(r: RequestEvent, completedOnly: bool)
    requires r.latencyUs != 0
    ensures TimeShares.Share(TimeShares.Wait([], r, completedOnly), r.latencyUs) == 0
  {
    assert TimeShares.Wait([], r, completedOnly) == 0 by {
      assert TimeShares.Inputs([], r.requestId, completedOnly) == [];
      EmptyUnion();
    }
    ZeroShare(r.latencyUs);
  }

  lemma ZeroShare(whole: u64)
    requires whole > 0
    ensures TimeShares.Share(0, whole) == 0
  {
    assert SatMul(0, 1000) == 0;
  }

  /** Without queue events a queue suspect appears exactly when the trigger is zero and some request
      took time: the one way a queue suspect can lack queue instrumentation. */
  lemma QueueSuspectWithoutEvents(requests: seq<RequestEvent>, growth: bool, options: AnalyzeOptions)
    ensures SelectQueue(Representation(requests, [], true, growth, options),
                        Representation(requests, [], false, growth, options)).Some?
            <==> options.triggerPermille == 0 && exists r :: r in requests && r.latencyUs != 0
  {
    hide QueueScore, FromScore;
    NoQueuesNoInputs(requests, true);
    NoQueuesNoInputs(requests, false);
    var c, o := TimeShares.QueueShares(requests, [], true), TimeShares.QueueShares(requests, [], false);
    if c != [] {
      PercentileIsElement(c, 95, 100);
      PercentileIsElement(o, 95, 100);
    }
  }

  /** How many requests took time, which is how many queue shares there are. */
  function TookTime(requests: seq<RequestEvent>): nat
  {
    if requests == [] then 0
    else TookTime(requests[..|requests| - 1]) + if requests[|requests| - 1].latencyUs != 0 then 1 else 0
  }

  lemma {:induction false} SharesCountRequests(
      requests: seq<RequestEvent>, queues: seq<QueueEvent>, completedOnly: bool)
    ensures |TimeShares.QueueShares(requests, queues, completedOnly)| == TookTime(requests)
  {
    if requests != [] {
      SharesCountRequests(requests[..|requests| - 1], queues, completedOnly);
    }
  }

  /** All a queue suspect can score without a queue event. */
  function ScoreWithoutEvents(requests: seq<RequestEvent>, growth: bool): (s: nat)
    ensures 22 <= s <= 35
  {
    22 + (if growth then 5 else 0) + SampleQuality(TookTime(requests))
  }

  lemma RepresentationWithoutEvents(requests: seq<RequestEvent>, completedOnly: bool, growth: bool,
                                    options: AnalyzeOptions)
    ensures var q := Representation(requests, [], completedOnly, growth, options);
            q.Some? ==> q.value.score == ScoreWithoutEvents(requests, growth)
  {
    hide FromScore, Percentile, TimeShares.QueueShares, TookTime, SampleQuality;
    NoQueuesNoInputs(requests, completedOnly);
    SharesCountRequests(requests, [], completedOnly);
    var shares := TimeShares.QueueShares(requests, [], completedOnly);
    if shares == [] {
      NoPercentile();
    } else {
      PercentileIsElement(shares, 95, 100);
    }
    NoShareNoDepth(TookTime(requests), growth);
  }

  lemma NoPercentile()
    ensures Percentile([], 95, 100).None?
  {}

  lemma NoShareNoDepth(samples: nat, growth: bool)
    ensures QueueScore(0, 0, samples, growth) == 22 + (if growth then 5 else 0) + SampleQuality(samples)
  {}

  /** Without queue events a queue suspect scores no share and no depth: at most 35 points. */
  lemma QueueScoreWithoutEvents(run: Run, growth: bool, options: AnalyzeOptions)
    requires run.queues == []
    ensures var q := QueueFamily(run, growth, options);
            q.Some? ==> q.value.score == ScoreWithoutEvents(run.requests, growth) <= 35
  {
    hide Representation, ScoreWithoutEvents;
    RepresentationWithoutEvents(run.requests, true, growth, options);
    RepresentationWithoutEvents(run.requests, false, growth, options);
  }

  lemma NoStagesNoCandidate(run: Run, options: AnalyzeOptions)
    requires run.stages == []
    ensures DownstreamSuspect(run.requests, run.stages, run.runtime, options).None?
  {
    var p := Percentile(Latencies(run.requests), 95, 100);
    if p.Some? {
      assert DualSummaries(run.requests, [], p.value) == [];
    }
  }

  lemma ExecutorNeedsSnapshots(run: Run, status: Option<WorkerEvidence>, growth: bool, options: AnalyzeOptions)
    requires UsableStatus(status)
    ensures ExecutorSuspect(run.runtime, status, growth, options).Some? ==> run.runtime != []
    ensures BlockingSuspect(run.runtime, options).Some? ==> run.runtime != []
  {
    hide LegacyExecutorScore, BlockingScore, FromScore, NormalizedContribution;
    if run.runtime == [] {
      assert GlobalDepths(run.runtime) == [] && BlockingDepths(run.runtime) == [];
    }
  }

  lemma StrongFamilyReason(run: Run, status: Option<WorkerEvidence>, growth: bool, options: AnalyzeOptions, c: Scored)
    requires UsableStatus(status) && EvidenceQuality(run, options).StrongQuality?
    requires c in CandidatesOf(run, status, growth, options)
    ensures FamilyReason(c.kind, c.basis, run) <==> c.kind.Queue? && run.queues == []
  {
    hide EvidenceQuality, QueueFamily, BlockingSuspect, ExecutorSuspect, DownstreamSuspect, RuntimePartial;
    StrongQualityMeans(run, options);
    CandidatesAreDistinctFamilies(run, status, growth, options);
    if c.basis.ObservedLowerBound? {
      LowerBoundNeedsPartial(run, status, growth, options, c);
    }
    ExecutorNeedsSnapshots(run, status, growth, options);
    if run.stages == [] {
      NoStagesNoCandidate(run, options);
    }
  }

  /** Strong evidence is never capped for coverage: only the ambiguity cluster, an executor limitation,
      or a queue suspect without any queue event lowers a confidence below what the score gives. */
  lemma StrongEvidenceKeepsConfidence(
      run: Run, status: Option<WorkerEvidence>, growth: bool, options: AnalyzeOptions, i: nat)
    requires UsableStatus(status) && EvidenceQuality(run, options).StrongQuality?
    requires i < |CandidatesOf(run, status, growth, options)|
    ensures var cands := CandidatesOf(run, status, growth, options);
            var capped := InCluster(cands, options, i) || cands[i].limitation.Some? ||
                          (cands[i].kind.Queue? && run.queues == []);
            Finals(cands, run, StrongQuality, options)[i].confidence ==
            if capped then FromScore(cands[i].score, options).AtMost(Medium) else FromScore(cands[i].score, options)
  {
    hide EvidenceQuality, CandidatesOf, InCluster, Finals, FromScore, FamilyReason;
    var cands := CandidatesOf(run, status, growth, options);
    StrongQualityMeans(run, options);
    StrongFamilyReason(run, status, growth, options, cands[i]);
    FinalsAre(cands, run, StrongQuality, options, i);
    InsufficientNeverClusters(cands, options, i);
  }

  /** The confidence of a suspect outside the cluster and without an executor limitation falls below its
      score exactly when it is a queue suspect without queue events whose few points reach High: the
      trigger is zero, some request took time, and the high threshold is within reach. */
  lemma StrongEvidenceCapsOnly(
      run: Run, status: Option<WorkerEvidence>, growth: bool, options: AnalyzeOptions, i: nat)
    requires UsableStatus(status) && EvidenceQuality(run, options).StrongQuality?
    requires i < |CandidatesOf(run, status, growth, options)|
    requires var cands := CandidatesOf(run, status, growth, options);
             !InCluster(cands, options, i) && cands[i].limitation.None?
    ensures var cands := CandidatesOf(run, status, growth, options);
            Finals(cands, run, StrongQuality, options)[i].confidence != FromScore(cands[i].score, options)
            <==> cands[i].kind.Queue? && EventlessQueueReachesHigh(run, growth, options)
  {
    hide EvidenceQuality, CandidatesOf, InCluster, Finals, QueueFamily, ScoreWithoutEvents;
    var c := CandidatesOf(run, status, growth, options)[i];
    StrongEvidenceKeepsConfidence(run, status, growth, options, i);
    if c.kind.Queue? && run.queues == [] {
      CandidatesAreDistinctFamilies(run, status, growth, options);
      assert Plausible(c, run, status, growth, options);
      EventlessQueueFamily(run, growth, options);
    }
  }

  /** What a caller can tell beforehand: no queue events, a zero trigger, a request that took time, and a
      high threshold no higher than what such a suspect scores. */
  predicate EventlessQueueReachesHigh(run: Run, growth: bool, options: AnalyzeOptions)
  {
    && run.queues == [] && options.triggerPermille == 0
    && (exists r :: r in run.requests && r.latencyUs != 0)
    && options.highThreshold <= ScoreWithoutEvents(run.requests, growth)
  }

  lemma EventlessQueueFamily(run: Run, growth: bool, options: AnalyzeOptions)
    requires run.queues == []
    ensures var q := QueueFamily(run, growth, options);
            && (q.Some? <==> options.triggerPermille == 0 && exists r :: r in run.requests && r.latencyUs != 0)
            && (q.Some? ==> q.value.score == ScoreWithoutEvents(run.requests, growth))
  {
    QueueFamilyIs(run, growth, options);
    QueueSuspectWithoutEvents(run.requests, growth, options);
    QueueScoreWithoutEvents(run, growth, options);
  }

  /** For a whole run: strong evidence lowers some unlimited suspect outside the cluster if and only if a
      queue suspect without queue events reaches High, and then it is the first candidate. */
  lemma StrongRunIsCappedExactly(run: Run, status: Option<WorkerEvidence>, growth: bool, options: AnalyzeOptions)
    requires UsableStatus(status) && EvidenceQuality(run, options).StrongQuality?
    ensures (exists i :: Lowered(run, status, growth, options, i))
            <==> EventlessQueueReachesHigh(run, growth, options)
                 && !InCluster(CandidatesOf(run, status, growth, options), options, 0)
  {
    hide EvidenceQuality, InCluster, Finals, QueueFamily, ScoreWithoutEvents, Plausible, FromScore;
    var cands := CandidatesOf(run, status, growth, options);
    CandidatesAreDistinctFamilies(run, status, growth, options);
    FamilyKinds(run, status, growth, options);
    if run.queues == [] {
      EventlessQueueFamily(run, growth, options);
    }
    if EventlessQueueReachesHigh(run, growth, options) {
      FirstIsQueue(run, status, growth, options);
      if !InCluster(cands, options, 0) {
        StrongEvidenceCapsOnly(run, status, growth, options, 0);
        assert Lowered(run, status, growth, options, 0);
      }
    }
    if i :| Lowered(run, status, growth, options, i) {
      StrongEvidenceCapsOnly(run, status, growth, options, i);
      FirstIsQueue(run, status, growth, options);
    }
  }

  ghost predicate Lowered(run: Run, status: Option<WorkerEvidence>, growth: bool, options: AnalyzeOptions, i: nat)
    requires UsableStatus(status)
  {
    var cands := CandidatesOf(run, status, growth, options);
    && i < |cands| && !InCluster(cands, options, i) && cands[i].limitation.None?
    && Finals(cands, run, StrongQuality, options)[i].confidence != FromScore(cands[i].score, options)
  }

  /** A lowered suspect is one whose score gives High and which ends Medium. */
  lemma LoweredToMedium(run: Run, status: Option<WorkerEvidence>, growth: bool, options: AnalyzeOptions, i: nat)
    requires UsableStatus(status) && EvidenceQuality(run, options).StrongQuality?
    requires Lowered(run, status, growth, options, i)
    ensures var cands := CandidatesOf(run, status, growth, options);
            FromScore(cands[i].score, options) == High
            && Finals(cands, run, StrongQuality, options)[i].confidence == Medium
  {
    hide EvidenceQuality, CandidatesOf, InCluster, Finals;
    StrongEvidenceKeepsConfidence(run, status, growth, options, i);
  }

  /** Its few points keep it out of any cluster whose minimum they do not reach. */
  lemma EventlessQueueIsLowered(run: Run, status: Option<WorkerEvidence>, growth: bool, options: AnalyzeOptions)
    requires UsableStatus(status) && EvidenceQuality(run, options).StrongQuality?
    requires EventlessQueueReachesHigh(run, growth, options)
    requires ScoreWithoutEvents(run.requests, growth) < options.ambiguityMinScore
    ensures Lowered(run, status, growth, options, 0)
  {
    hide EvidenceQuality, CandidatesOf, QueueFamily, Finals, ScoreWithoutEvents, FromScore;
    EventlessQueueFamily(run, growth, options);
    FirstIsQueue(run, status, growth, options);
    CandidatesAreDistinctFamilies(run, status, growth, options);
    assert Plausible(CandidatesOf(run, status, growth, options)[0], run, status, growth, options);
    StrongEvidenceCapsOnly(run, status, growth, options, 0);
  }

  /** A queue suspect takes the first slot and carries no executor limitation. */
  lemma FirstIsQueue(run: Run, status: Option<WorkerEvidence>, growth: bool, options: AnalyzeOptions)
    requires UsableStatus(status) && QueueFamily(run, growth, options).Some?
    ensures var cands := CandidatesOf(run, status, growth, options);
            && cands != [] && cands[0].kind.Queue? && cands[0].limitation.None?
            && forall i :: 0 < i < |cands| ==> !cands[i].kind.Queue?
  {
    QueueHasNoLimitation(run, growth, options);
    CandidatesAreDistinctFamilies(run, status, growth, options);
    hide QueueFamily, BlockingSuspect, ExecutorSuspect, DownstreamSuspect, Plausible;
    var families := FamiliesOf(run, status, growth, options);
    assert families[0] == QueueFamily(run, growth, options).value;
  }

  lemma QueueHasNoLimitation(run: Run, growth: bool, options: AnalyzeOptions)
    ensures var q := QueueFamily(run, growth, options); q.Some? ==> q.value.kind.Queue? && q.value.limitation.None?
  {
    hide QueueScore, FromScore, Percentile;
  }

  lemma InsufficientNeverClusters(cands: seq<Scored>, options: AnalyzeOptions, i: nat)
    ensures InCluster(cands, options, i) ==> i < |cands| && Real(cands[i])
  {}

  /** With a positive queue trigger the last exception disappears. */
  lemma PositiveTriggerNeedsQueues(run: Run, status: Option<WorkerEvidence>, growth: bool, options: AnalyzeOptions,
                                   c: Scored)
    requires UsableStatus(status) && options.triggerPermille > 0
    requires c in CandidatesOf(run, status, growth, options) && c.kind.Queue?
    ensures run.queues != []
  {
    hide QueueFamily, BlockingSuspect, ExecutorSuspect, DownstreamSuspect;
    CandidatesAreDistinctFamilies(run, status, growth, options);
    if run.queues == [] {
      QueueFamilyIs(run, growth, options);
      QueueSuspectWithoutEvents(run.requests, growth, options);
    }
  }

  lemma QueueFamilyIs(run: Run, growth: bool, options: AnalyzeOptions)
    ensures QueueFamily(run, growth, options) ==
            SelectQueue(Representation(run.requests, run.queues, true, growth, options),
                        Representation(run.requests, run.queues, false, growth, options))
  {}
}
