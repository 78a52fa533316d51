/** What a gauge's trend says of its samples, and what makes a gauge the dominant one. */
module InflightLaws {
  import opened Machine
  import opened Sorting
  import opened Names
  import opened Events
  import opened Percentiles
  import opened Inflight

  /** The last stretch of positive counts, with the zero that closes it if it is closed. */
  ghost predicate Episode(s: seq<InFlightSnapshot>, lo: int, hi: int)
  {
    && 0 <= lo <= hi < |s| && s[lo].count > 0 && (lo > 0 ==> s[lo - 1].count == 0)
    && (forall k :: lo <= k < hi ==> s[k].count > 0)
    && (s[hi].count > 0 ==> hi == |s| - 1)
    && (forall k :: hi < k < |s| ==> s[k].count == 0)
  }

  /** The difference of two counts, cut off only where a signed word ends. */
  ghost predicate IsGrowth(first: u64, last: u64, d: int)
  {
    var exact := last - first;
    d == if exact > I64_MAX then I64_MAX else if exact < -I64_MAX then -I64_MAX else exact
  }

  /** The growth per second in thousandths: the fraction is dropped, and a signed word ends it. */
  ghost predicate IsRate(growth: int, elapsed: nat, rate: int)
  {
    exists t :: IsTruncatedQuotient(growth * 1_000_000_000, elapsed, t)
                && rate == if t > I64_MAX then I64_MAX else if t < I64_MIN then I64_MIN else t
  }

  ghost predicate IsTruncatedQuotient(a: int, d: nat, t: int)
  {
    if a >= 0 then t * d <= a < (t + 1) * d else (t - 1) * d < a <= t * d
  }

  ghost predicate IsPeak(s: seq<InFlightSnapshot>, lo: int, hi: int, peak: u64)
    requires 0 <= lo <= hi < |s|
  {
    (forall k :: lo <= k <= hi ==> s[k].count <= peak) && exists k :: lo <= k <= hi && s[k].count == peak
  }

  /** What the trend of a gauge says of its samples in time order. */
  ghost predicate Tells(c: Candidate, gauge: string, relative: bool, s: seq<InFlightSnapshot>, lo: int, hi: int)
    requires 0 <= lo <= hi < |s|
  {
    && c.gauge == gauge && (c.ordering.RunRelative? <==> relative)
    && (c.active <==> s[hi].count > 0) && c.sampleCount == hi - lo + 1
    && IsPeak(s, lo, hi, c.peakCount)
    && Percentile(Counts(s[lo..hi + 1]), 95, 100) == Some(c.p95Count)
    && (c.growthDelta.Some? <==> lo < hi)
    && (lo < hi ==> IsGrowth(s[lo].count, s[hi].count, c.growthDelta.value))
    && (relative ==> s[lo].atRunUs.Some? && s[hi].atRunUs.Some?
                     && s[lo].atRunUs.value <= s[hi].atRunUs.value)
    && (c.growthPerSecMilli.Some? <==> lo < hi && relative && s[lo].atRunUs.value < s[hi].atRunUs.value)
    && (c.growthPerSecMilli.Some? ==>
          IsRate(c.growthDelta.value, s[hi].atRunUs.value - s[lo].atRunUs.value, c.growthPerSecMilli.value))
  }

  lemma DeltaIsGrowth(first: u64, last: u64)
    ensures IsGrowth(first, last, SignedDelta(first, last))
  {}

  lemma QuotientIsRate(growth: int, elapsed: nat)
    requires elapsed > 0
    ensures IsRate(growth, elapsed, Max(I64_MIN, Min(I64_MAX, TruncDiv(growth * 1_000_000_000, elapsed))))
  {
    var a := growth * 1_000_000_000;
    var t := TruncDiv(a, elapsed);
    if growth >= 0 {
      Floor(a, elapsed);
    } else {
      Floor(-a, elapsed);
      Negated((-a) / elapsed, elapsed);
    }
    assert IsTruncatedQuotient(a, elapsed, t);
  }

  lemma Negated(q: int, d: nat)
    ensures (-q) * d == -(q * d) && (-q - 1) * d == -((q + 1) * d)
  {}

  lemma Floor(a: nat, d: nat)
    requires d > 0
    ensures a / d * d <= a < (a / d + 1) * d
  {
    assert a == a / d * d + a % d;
    assert (a / d + 1) * d == a / d * d + d;
  }

  /** Every trend is read off the latest episode of the gauge's samples, ordered by run-relative time
      where all of them have one and by wall clock otherwise. */
  lemma TrendTells(gauge: string, samples: seq<InFlightSnapshot>) returns (lo: int, hi: int)
    requires CandidateFor(gauge, samples).Some?
    ensures var s := Sort(samples, TimeLe(OrderingOf(samples)));
            && multiset(s) == multiset(samples) && Sorted(s, TimeLe(OrderingOf(samples)))
            && Episode(s, lo, hi)
            && Tells(CandidateFor(gauge, samples).value, gauge, forall x :: x in samples ==> x.atRunUs.Some?, s, lo, hi)
  {
    var o := OrderingOf(samples);
    var s := Sort(samples, TimeLe(o));
    TimeOrder(o);
    SortPermutes(samples, TimeLe(o));
    SortSorts(samples, TimeLe(o));
    lo, hi := LatestIsEpisode(s);
    hide Sort, Latest, Episode, Sorted, Tells;
    if o.RunRelative? {
      RateMissesOnlyZeroElapsed(samples);
    }
    SummaryTells(gauge, s, o, lo, hi);
  }

  lemma LatestIsEpisode(s: seq<InFlightSnapshot>) returns (lo: int, hi: int)
    requires Latest(s) != []
    ensures Episode(s, lo, hi) && Latest(s) == s[lo..hi + 1]
  {
    var e;
    lo, e :| IsLatestBlock(s, lo, e);
    hi := Min(e + 1, |s| - 1);
    LatestIs(s, lo, e);
  }

  lemma SummaryTells(gauge: string, s: seq<InFlightSnapshot>, o: InflightOrdering, lo: int, hi: int)
    requires 0 <= lo <= hi < |s| && Sorted(s, TimeLe(o))
    requires o.RunRelative? ==> AllRunRelative(s)
    requires o.RunRelative? ==> TimesAscend(s[lo..hi + 1], RunRelative)
    ensures Tells(Summarized(gauge, s[lo..hi + 1], o), gauge, o.RunRelative?, s, lo, hi)
  {
    PeakTells(s, lo, hi);
    DeltaIsGrowth(s[lo].count, s[hi].count);
    CountsHavePercentile(s[lo..hi + 1]);
    RateTells(s, o, lo, hi);
    SummaryReads(gauge, s, o, lo, hi);
    hide Summarized, IsPeak, Counts, Rate, IsRate, IsGrowth, Percentile, Sorted, TimesAscend, MaxOrZero, SignedDelta,
      AllRunRelative, TimeLe;
  }

  lemma SummaryReads(gauge: string, s: seq<InFlightSnapshot>, o: InflightOrdering, lo: int, hi: int)
    requires 0 <= lo <= hi < |s|
    ensures var latest := s[lo..hi + 1]; var c := Summarized(gauge, latest, o);
            && c.gauge == gauge && c.ordering == o && c.active == (s[hi].count > 0) && c.sampleCount == hi - lo + 1
            && c.peakCount == MaxOrZero(Counts(latest)) && c.growthPerSecMilli == Rate(latest, o)
            && c.p95Count == (var p := Percentile(Counts(latest), 95, 100); if p.Some? then p.value else 0)
            && c.growthDelta == (if lo < hi then Some(SignedDelta(s[lo].count, s[hi].count)) else None)
  {
    hide Counts, Rate, Percentile, MaxOrZero, SignedDelta;
  }

  lemma CountsHavePercentile(s: seq<InFlightSnapshot>)
    requires s != []
    ensures Percentile(Counts(s), 95, 100).Some?
  {
    PercentileIsElement(Counts(s), 95, 100);
  }

  lemma RateTells(s: seq<InFlightSnapshot>, o: InflightOrdering, lo: int, hi: int)
    requires 0 <= lo <= hi < |s| && Sorted(s, TimeLe(o))
    requires o.RunRelative? ==> AllRunRelative(s)
    requires o.RunRelative? ==> TimesAscend(s[lo..hi + 1], RunRelative)
    ensures var rate := Rate(s[lo..hi + 1], o);
            && (o.RunRelative? ==> s[lo].atRunUs.Some? && s[hi].atRunUs.Some?
                                   && s[lo].atRunUs.value <= s[hi].atRunUs.value)
            && (rate.Some? <==> lo < hi && o.RunRelative? && s[lo].atRunUs.value < s[hi].atRunUs.value)
            && (rate.Some? ==> IsRate(SignedDelta(s[lo].count, s[hi].count),
                                      s[hi].atRunUs.value - s[lo].atRunUs.value, rate.value))
  {
    hide TimesAscend, IsRate, SignedDelta, TruncDiv;
    if o.RunRelative? {
      assert s[lo] in s && s[hi] in s;
      assert lo < hi ==> TimeLe(o)(s[lo], s[hi]);
      if s[lo].atRunUs.value < s[hi].atRunUs.value {
        QuotientIsRate(SignedDelta(s[lo].count, s[hi].count), s[hi].atRunUs.value - s[lo].atRunUs.value);
      }
    }
  }

  lemma PeakTells(s: seq<InFlightSnapshot>, lo: int, hi: int)
    requires 0 <= lo <= hi < |s|
    ensures IsPeak(s, lo, hi, MaxOrZero(Counts(s[lo..hi + 1])))
  {
    var counts := Counts(s[lo..hi + 1]);
    forall k | lo <= k <= hi ensures s[k].count <= MaxOrZero(counts) {
      assert counts[k - lo] == s[k].count;
    }
    var j :| 0 <= j < |counts| && counts[j] == MaxOrZero(counts);
    assert s[lo + j].count == MaxOrZero(counts);
  }

  // ----- which gauge dominates

  ghost predicate Growing(c: Candidate)
  {
    c.growthDelta.Some? && c.growthDelta.value > 0
  }

  ghost predicate Rising(c: Candidate)
  {
    c.growthPerSecMilli.Some? && c.growthPerSecMilli.value > 0
  }

  /** The two agree on everything the comparison looks at before the counts. */
  ghost predicate SameGrowth(c: Candidate, d: Candidate)
  {
    && c.active == d.active && Growing(c) == Growing(d)
    && (Growing(c) ==>
          c.growthDelta == d.growthDelta && Rising(c) == Rising(d)
          && (Rising(c) ==> c.growthPerSecMilli == d.growthPerSecMilli))
  }

  /** `d` is preferred to `c`, or they are the same gauge's: active gauges first, then growing ones, then
      the larger growth, then the larger positive rate, the larger p95, the larger peak, and last the
      smaller name. */
  ghost predicate Preferred(c: Candidate, d: Candidate)
  {
    && (c.active ==> d.active)
    && (c.active == d.active && Growing(c) ==> Growing(d))
    && (c.active == d.active && Growing(c) && Growing(d) ==> c.growthDelta.value <= d.growthDelta.value)
    && (c.active == d.active && Growing(c) && Growing(d) && c.growthDelta == d.growthDelta && Rising(c) ==>
          Rising(d) && c.growthPerSecMilli.value <= d.growthPerSecMilli.value)
    && (SameGrowth(c, d) ==> c.p95Count <= d.p95Count)
    && (SameGrowth(c, d) && c.p95Count == d.p95Count ==> c.peakCount <= d.peakCount)
    && (SameGrowth(c, d) && c.p95Count == d.p95Count && c.peakCount == d.peakCount ==> NameLe(d.gauge, c.gauge))
  }

  lemma NotGreaterIsPreferred(c: Candidate, d: Candidate)
    ensures NotGreater(c, d) ==> Preferred(c, d)
  {
    NameOrder();
  }

  /** The dominant gauge is preferred to every gauge with a trend. */
  lemma DominantIsPreferred(snapshots: seq<InFlightSnapshot>, r: Candidate)
    requires IsDominant(snapshots, Some(r))
    ensures CandidateIn(snapshots, r.gauge) == Some(r)
    ensures forall g :: CandidateIn(snapshots, g).Some? ==> Preferred(CandidateIn(snapshots, g).value, r)
  {
    hide CandidateIn, NotGreater, Preferred;
    forall g | CandidateIn(snapshots, g).Some? ensures Preferred(CandidateIn(snapshots, g).value, r) {
      assert NotAbove(snapshots, g, r);
      NotGreaterIsPreferred(CandidateIn(snapshots, g).value, r);
    }
  }

  /** An active gauge whose last count exceeds its first by more than another's, within a signed word, is
      never dominated by that other. */
  lemma LargerGrowthIsNotBeaten(snapshots: seq<InFlightSnapshot>, r: Candidate, gauge: string)
    returns (lo: int, hi: int, lo': int, hi': int)
    requires IsDominant(snapshots, Some(r))
    requires CandidateIn(snapshots, gauge).Some? && CandidateIn(snapshots, gauge).value.active
    ensures var s, t := InTime(snapshots, gauge), InTime(snapshots, r.gauge);
            && Episode(s, lo, hi) && Episode(t, lo', hi') && r.active
            && (lo < hi && 0 < s[hi].count - s[lo].count <= I64_MAX ==>
                  lo' < hi' && s[hi].count - s[lo].count <= t[hi'].count - t[lo'].count)
  {
    hide CandidateFor, Sort, Sorted, Episode, IsDominant, ForGauge, Tells, Preferred;
    DominantIsPreferred(snapshots, r);
    lo, hi := TrendTells(gauge, ForGauge(snapshots, gauge));
    lo', hi' := TrendTells(r.gauge, ForGauge(snapshots, r.gauge));
    var x, y := ForGauge(snapshots, gauge), ForGauge(snapshots, r.gauge);
    EpisodeIsRange(InTime(snapshots, gauge), lo, hi);
    EpisodeIsRange(InTime(snapshots, r.gauge), lo', hi');
    GrowthCarries(CandidateIn(snapshots, gauge).value, r, gauge, r.gauge,
                  forall z :: z in x ==> z.atRunUs.Some?, forall z :: z in y ==> z.atRunUs.Some?,
                  InTime(snapshots, gauge), lo, hi, InTime(snapshots, r.gauge), lo', hi');
  }

  lemma EpisodeIsRange(s: seq<InFlightSnapshot>, lo: int, hi: int)
    requires Episode(s, lo, hi)
    ensures 0 <= lo <= hi < |s|
  {}

  lemma GrowthCarries(c: Candidate, d: Candidate, g: string, h: string, relative: bool, relative': bool,
                      s: seq<InFlightSnapshot>, lo: int, hi: int, t: seq<InFlightSnapshot>, lo': int, hi': int)
    requires 0 <= lo <= hi < |s| && 0 <= lo' <= hi' < |t| && c.active && Preferred(c, d)
    requires Tells(c, g, relative, s, lo, hi) && Tells(d, h, relative', t, lo', hi')
    ensures d.active
    ensures lo < hi && 0 < s[hi].count - s[lo].count <= I64_MAX ==>
              lo' < hi' && s[hi].count - s[lo].count <= t[hi'].count - t[lo'].count
  {
    hide IsRate, Percentile, Counts, SameGrowth, Rising;
  }

  /** The samples of a gauge in time order, those of one time as they were recorded. */
  function InTime(snapshots: seq<InFlightSnapshot>, gauge: string): seq<InFlightSnapshot>
  {
    var samples := ForGauge(snapshots, gauge);
    Sort(samples, TimeLe(OrderingOf(samples)))
  }
}
