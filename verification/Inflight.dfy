/** In-flight trends: per gauge, the latest episode of positive counts; across gauges, the dominant one. */
module Inflight {
  import opened Machine
  import opened Sorting
  import opened Names
  import opened Events
  import opened Percentiles

  const I64_MAX: int := 0x7FFF_FFFF_FFFF_FFFF
  const I64_MIN: int := -0x8000_0000_0000_0000

  datatype InflightOrdering = RunRelative | UnixFallback

  datatype Candidate = Candidate(
    gauge: string, active: bool, ordering: InflightOrdering, sampleCount: nat,
    peakCount: u64, p95Count: u64, growthDelta: Option<int>, growthPerSecMilli: Option<int>)
  {
    predicate KnownPositiveGrowth() { growthDelta.Some? && growthDelta.value > 0 }
  }

  // ----- ordering the samples of one gauge

  /** A sample with its position among all snapshots, the tie-breaker of the sort. */
  datatype Indexed = Indexed(index: nat, sample: InFlightSnapshot)

  predicate AllRunRelative(samples: seq<InFlightSnapshot>)
  {
    forall s :: s in samples ==> s.atRunUs.Some?
  }

  function OrderingOf(samples: seq<InFlightSnapshot>): InflightOrdering
  {
    if AllRunRelative(samples) then RunRelative else UnixFallback
  }

  function Time(o: InflightOrdering, s: InFlightSnapshot): u64
  {
    match o
    case RunRelative => if s.atRunUs.Some? then s.atRunUs.value else 0
    case UnixFallback => s.atUnixMs
  }

  function TimeThenIndex(o: InflightOrdering): (Indexed, Indexed) -> bool
  {
    (a: Indexed, b: Indexed) =>
      Time(o, a.sample) < Time(o, b.sample) || (Time(o, a.sample) == Time(o, b.sample) && a.index <= b.index)
  }

  function TimeLe(o: InflightOrdering): (InFlightSnapshot, InFlightSnapshot) -> bool
  {
    (a: InFlightSnapshot, b: InFlightSnapshot) => Time(o, a) <= Time(o, b)
  }

  function SamplesOf(s: seq<Indexed>): seq<InFlightSnapshot>
  {
    Map(s, (x: Indexed) => x.sample)
  }

  ghost predicate Ascending(s: seq<Indexed>)
  {
    forall i, j :: 0 <= i < j < |s| ==> s[i].index < s[j].index
  }

  lemma {:induction false} InsertStable(x: Indexed, s: seq<Indexed>, o: InflightOrdering)
    requires forall y :: y in s ==> x.index < y.index
    ensures SamplesOf(Insert(x, s, TimeThenIndex(o))) == Insert(x.sample, SamplesOf(s), TimeLe(o))
  {
    if s != [] {
      assert s[0] in s;
      SamplesTail(s);
      if !TimeThenIndex(o)(x, s[0]) {
        InsertStable(x, s[1..], o);
        SamplesCons(s[0], Insert(x, s[1..], TimeThenIndex(o)));
      } else {
        SamplesCons(x, s);
      }
    }
  }

  lemma SamplesTail(s: seq<Indexed>)
    requires s != []
    ensures SamplesOf(s[1..]) == SamplesOf(s)[1..]
  {}

  lemma SamplesCons(x: Indexed, s: seq<Indexed>)
    ensures SamplesOf([x] + s) == [x.sample] + SamplesOf(s)
  {}

  /** Breaking ties by position is sorting stably by time: positions themselves do not matter. */
  lemma {:induction false} PositionsOnlyBreakTies(s: seq<Indexed>, o: InflightOrdering)
    requires Ascending(s)
    ensures SamplesOf(Sort(s, TimeThenIndex(o))) == Sort(SamplesOf(s), TimeLe(o))
  {
    if s != [] {
      PositionsOnlyBreakTies(s[1..], o);
      SortPermutes(s[1..], TimeThenIndex(o));
      SamplesTail(s);
      forall y | y in Sort(s[1..], TimeThenIndex(o)) ensures s[0].index < y.index {
        assert y in s[1..];
      }
      InsertStable(s[0], Sort(s[1..], TimeThenIndex(o)), o);
    }
  }

  lemma TimeOrder(o: InflightOrdering)
    ensures TotalPreorder(TimeLe(o))
  {}

  // ----- the latest episode

  /** `lo..=e` is the last maximal block of positive counts. */
  ghost predicate IsLatestBlock(s: seq<InFlightSnapshot>, lo: int, e: int)
  {
    && 0 <= lo <= e < |s|
    && (forall k :: lo <= k <= e ==> s[k].count > 0)
    && (lo > 0 ==> s[lo - 1].count == 0)
    && (forall k :: e < k < |s| ==> s[k].count == 0)
  }

  lemma LatestBlockUnique(s: seq<InFlightSnapshot>, lo: int, e: int, lo': int, e': int)
    requires IsLatestBlock(s, lo, e) && IsLatestBlock(s, lo', e')
    ensures lo == lo' && e == e'
  {
    assert s[e].count > 0 && s[e'].count > 0;
    assert e == e';
    assert lo' > 0 ==> s[lo' - 1].count == 0;
    assert lo > 0 ==> s[lo - 1].count == 0;
  }

  /** The block and the zero that closes it, if one follows; empty when no count is positive. */
  ghost function Latest(s: seq<InFlightSnapshot>): seq<InFlightSnapshot>
  {
    if exists lo, e :: IsLatestBlock(s, lo, e) then
      var lo, e :| IsLatestBlock(s, lo, e);
      s[lo..Min(e + 2, |s|)]
    else []
  }

  lemma LatestIs(s: seq<InFlightSnapshot>, lo: int, e: int)
    requires IsLatestBlock(s, lo, e)
    ensures Latest(s) == s[lo..Min(e + 2, |s|)]
  {
    var lo', e' :| IsLatestBlock(s, lo', e') && Latest(s) == s[lo'..Min(e' + 2, |s|)];
    LatestBlockUnique(s, lo, e, lo', e');
  }

  /** There is a latest block exactly when some count is positive. */
  lemma {:induction false} LatestBlockExists(s: seq<InFlightSnapshot>)
    ensures (exists lo, e :: IsLatestBlock(s, lo, e)) <==> (exists k :: 0 <= k < |s| && s[k].count > 0)
  {
    if lo, e :| IsLatestBlock(s, lo, e) {
      assert s[e].count > 0;
    }
    if k :| 0 <= k < |s| && s[k].count > 0 {
      var n := |s| - 1;
      if s[n].count > 0 {
        var lo := BlockStart(s, n);
        assert IsLatestBlock(s, lo, n);
      } else {
        assert s[..n][k].count > 0;
        LatestBlockExists(s[..n]);
        var lo, e :| IsLatestBlock(s[..n], lo, e);
        assert IsLatestBlock(s, lo, e);
      }
    }
  }

  ghost function BlockStart(s: seq<InFlightSnapshot>, e: nat): (lo: nat)
    requires e < |s| && s[e].count > 0
    ensures lo <= e && (forall k :: lo <= k <= e ==> s[k].count > 0) && (lo > 0 ==> s[lo - 1].count == 0)
  {
    if e == 0 || s[e - 1].count == 0 then e else BlockStart(s, e - 1)
  }

  ghost predicate OpenAt(s: seq<InFlightSnapshot>)
  {
    s != [] && s[|s| - 1].count > 0
  }

  /** What one more sample does to the latest episode. */
  lemma LatestNext(s: seq<InFlightSnapshot>, x: InFlightSnapshot)
    ensures Latest(s + [x]) ==
            if x.count > 0 then (if OpenAt(s) then Latest(s) + [x] else [x])
            else if OpenAt(s) then Latest(s) + [x] else Latest(s)
  {
    if OpenAt(s) {
      LatestGrow(s, x);
    } else if x.count > 0 {
      assert IsLatestBlock(s + [x], |s|, |s|);
      LatestIs(s + [x], |s|, |s|);
    } else {
      LatestSkip(s, x);
    }
  }

  lemma LatestGrow(s: seq<InFlightSnapshot>, x: InFlightSnapshot)
    requires OpenAt(s)
    ensures Latest(s + [x]) == Latest(s) + [x]
  {
    hide Latest;
    var n := |s|;
    var lo := BlockStart(s, n - 1);
    assert IsLatestBlock(s, lo, n - 1);
    LatestIs(s, lo, n - 1);
    assert IsLatestBlock(s + [x], lo, if x.count > 0 then n else n - 1);
    LatestIs(s + [x], lo, if x.count > 0 then n else n - 1);
    assert (s + [x])[lo..n + 1] == s[lo..n] + [x];
  }

  lemma LatestSkip(s: seq<InFlightSnapshot>, x: InFlightSnapshot)
    requires !OpenAt(s) && x.count == 0
    ensures Latest(s + [x]) == Latest(s)
  {
    hide IsLatestBlock;
    forall lo, e ensures IsLatestBlock(s, lo, e) <==> IsLatestBlock(s + [x], lo, e) {
      BlockSkip(s, x, lo, e);
    }
    if lo, e :| IsLatestBlock(s, lo, e) {
      LatestIs(s, lo, e);
      LatestIs(s + [x], lo, e);
      BlockSkip(s, x, lo, e);
    }
  }

  lemma BlockSkip(s: seq<InFlightSnapshot>, x: InFlightSnapshot, lo: int, e: int)
    requires !OpenAt(s) && x.count == 0
    ensures IsLatestBlock(s, lo, e) <==> IsLatestBlock(s + [x], lo, e)
    ensures IsLatestBlock(s, lo, e) ==> 0 <= lo <= e < |s| - 1
  {
    var t := s + [x];
    assert t[|s|] == x;
    assert forall k :: 0 <= k < |s| ==> t[k] == s[k];
  }

  method LatestEpisode(samples: seq<InFlightSnapshot>) returns (latest: seq<InFlightSnapshot>)
    ensures latest == Latest(samples)
  {
    hide Latest;
    latest := [];
    NoEpisode();
    var open := false;
    for i := 0 to |samples|
      invariant latest == Latest(samples[..i]) && open == OpenAt(samples[..i])
    {
      LatestNext(samples[..i], samples[i]);
      assert samples[..i + 1] == samples[..i] + [samples[i]];
      if samples[i].count > 0 {
        if !open {
          latest := [];
          open := true;
        }
        latest := latest + [samples[i]];
      } else if open {
        latest := latest + [samples[i]];
        open := false;
      }
    }
    assert samples[..|samples|] == samples;
  }

  lemma NoEpisode()
    ensures Latest([]) == []
  {}

  // ----- the trend of one gauge

  function SignedDelta(start: u64, end: u64): (d: int)
    ensures -I64_MAX <= d <= I64_MAX
    ensures (d > 0 <==> end > start) && (d < 0 <==> end < start)
  {
    if end >= start then Min(end - start, I64_MAX) else -Min(start - end, I64_MAX)
  }

  /** Integer division that drops the fraction, whatever the sign. */
  function TruncDiv(a: int, b: nat): int
    requires b > 0
  {
    if a >= 0 then a / b else -((-a) / b)
  }

  function Counts(s: seq<InFlightSnapshot>): seq<u64>
  {
    Map(s, (x: InFlightSnapshot) => x.count)
  }

  function MaxOrZero(s: seq<u64>): (m: u64)
    ensures forall k :: 0 <= k < |s| ==> s[k] <= m
    ensures if s == [] then m == 0 else m in s
  {
    if s == [] then 0
    else if |s| == 1 then s[0]
    else
      var m := MaxOrZero(s[..|s| - 1]);
      assert forall k :: 0 <= k < |s| - 1 ==> s[k] == s[..|s| - 1][k];
      if s[|s| - 1] >= m then s[|s| - 1] else m
  }

  predicate TimesAscend(s: seq<InFlightSnapshot>, o: InflightOrdering)
  {
    forall k :: 0 < k < |s| ==> Time(o, s[k - 1]) <= Time(o, s[k])
  }

  function Growth(latest: seq<InFlightSnapshot>): Option<int>
  {
    if |latest| >= 2 then Some(SignedDelta(latest[0].count, latest[|latest| - 1].count)) else None
  }

  function Rate(latest: seq<InFlightSnapshot>, o: InflightOrdering): Option<int>
  {
    if |latest| < 2 || o.UnixFallback? then None
    else
      var first, last := Time(o, latest[0]), Time(o, latest[|latest| - 1]);
      if last <= first || !TimesAscend(latest, o) then None
      else
        var delta := SignedDelta(latest[0].count, latest[|latest| - 1].count);
        Some(Max(I64_MIN, Min(I64_MAX, TruncDiv(delta * 1_000_000_000, last - first))))
  }

  function Summarized(gauge: string, latest: seq<InFlightSnapshot>, o: InflightOrdering): Candidate
    requires latest != []
  {
    Candidate(gauge, latest[|latest| - 1].count > 0, o, |latest|, MaxOrZero(Counts(latest)),
              var p := Percentile(Counts(latest), 95, 100); if p.Some? then p.value else 0,
              Growth(latest), Rate(latest, o))
  }

  /** The candidate of a gauge is read off the latest episode of its samples, stably sorted by time. */
  ghost function CandidateFor(gauge: string, samples: seq<InFlightSnapshot>): Option<Candidate>
  {
    var o := OrderingOf(samples);
    var latest := Latest(Sort(samples, TimeLe(o)));
    if latest == [] then None else Some(Summarized(gauge, latest, o))
  }

  method InflightTrendForGauge(gauge: string, samples: seq<Indexed>) returns (c: Option<Candidate>)
    requires Ascending(samples)
    ensures c == CandidateFor(gauge, SamplesOf(samples))
  {
    if samples == [] {
      NoEpisode();
      return None;
    }
    var ordering := OrderingOf(SamplesOf(samples));
    PositionsOnlyBreakTies(samples, ordering);
    var latest := LatestEpisode(SamplesOf(Sort(samples, TimeThenIndex(ordering))));
    if latest == [] {
      return None;
    }
    return Some(Summarized(gauge, latest, ordering));
  }

  /** Positive growth means the gauge is still active; a closed episode has shrunk. */
  lemma GrowthMeansActive(gauge: string, samples: seq<InFlightSnapshot>)
    requires CandidateFor(gauge, samples).Some?
    ensures var c := CandidateFor(gauge, samples).value;
            && (c.KnownPositiveGrowth() ==> c.active)
            && (!c.active ==> c.growthDelta.Some? && c.growthDelta.value < 0)
  {
    var s := Sort(samples, TimeLe(OrderingOf(samples)));
    var lo, e :| IsLatestBlock(s, lo, e);
    LatestIs(s, lo, e);
    assert Latest(s)[0] == s[lo];
  }

  /** A gauge has a candidate exactly when some count is positive, and is active exactly when its
      last sample in time is positive. */
  lemma ActiveMeansLastPositive(gauge: string, samples: seq<InFlightSnapshot>)
    ensures CandidateFor(gauge, samples).Some? <==> exists x :: x in samples && x.count > 0
    ensures CandidateFor(gauge, samples).Some? ==>
              (CandidateFor(gauge, samples).value.active <==> OpenAt(Sort(samples, TimeLe(OrderingOf(samples)))))
  {
    var le := TimeLe(OrderingOf(samples));
    var s := Sort(samples, le);
    SortPermutes(samples, le);
    LatestBlockExists(s);
    if k :| 0 <= k < |s| && s[k].count > 0 {
      assert s[k] in samples;
      var lo, e :| IsLatestBlock(s, lo, e);
      LatestIs(s, lo, e);
    } else {
      forall x | x in samples ensures x.count == 0 {
        assert x in s;
      }
    }
  }

  /** The two defensive checks on the rate never fire: sorted run-relative times neither go back
      within an episode nor between its ends. */
  lemma RateMissesOnlyZeroElapsed(samples: seq<InFlightSnapshot>)
    requires AllRunRelative(samples)
    ensures var latest := Latest(Sort(samples, TimeLe(RunRelative)));
            && TimesAscend(latest, RunRelative)
            && (|latest| >= 2 ==>
                  (Rate(latest, RunRelative).None? <==>
                   Time(RunRelative, latest[0]) == Time(RunRelative, latest[|latest| - 1])))
  {
    var s := Sort(samples, TimeLe(RunRelative));
    TimeOrder(RunRelative);
    SortSorts(samples, TimeLe(RunRelative));
    var latest := Latest(s);
    LatestStaysSorted(s);
    hide Sort, Latest;
    if |latest| >= 2 {
      assert Time(RunRelative, latest[0]) <= Time(RunRelative, latest[|latest| - 1]);
    }
  }

  lemma LatestStaysSorted(s: seq<InFlightSnapshot>)
    requires Sorted(s, TimeLe(RunRelative))
    ensures forall j, k :: 0 <= j < k < |Latest(s)| ==>
              Time(RunRelative, Latest(s)[j]) <= Time(RunRelative, Latest(s)[k])
  {
    if lo, e :| IsLatestBlock(s, lo, e) {
      LatestIs(s, lo, e);
      hide Latest, IsLatestBlock;
      forall j, k | 0 <= j < k < |Latest(s)|
        ensures Time(RunRelative, Latest(s)[j]) <= Time(RunRelative, Latest(s)[k])
      {
        assert TimeLe(RunRelative)(s[lo + j], s[lo + k]);
      }
    }
  }

  // ----- comparing gauges

  datatype Ordering = Less | Equal | Greater

  function Then(a: Ordering, b: Ordering): Ordering { if a.Equal? then b else a }

  function CompareInt(a: int, b: int): Ordering { if a < b then Less else if a == b then Equal else Greater }

  function CompareBool(a: bool, b: bool): Ordering { CompareInt(if a then 1 else 0, if b then 1 else 0) }

  function CompareOption(a: Option<int>, b: Option<int>): Ordering
  {
    match (a, b)
    case (None, None) => Equal
    case (None, Some(_)) => Less
    case (Some(_), None) => Greater
    case (Some(x), Some(y)) => CompareInt(x, y)
  }

  function CompareName(a: string, b: string): Ordering
  {
    if a == b then Equal else if NameLe(a, b) then Less else Greater
  }

  function PositiveRate(c: Candidate): Option<int>
  {
    if c.growthPerSecMilli.Some? && c.growthPerSecMilli.value > 0 then c.growthPerSecMilli else None
  }

  /** The comparator as written, with its two conditional steps. */
  function Compare(l: Candidate, r: Candidate): Ordering
  {
    var lp, rp := l.KnownPositiveGrowth(), r.KnownPositiveGrowth();
    Then(CompareBool(l.active, r.active),
    Then(CompareBool(lp, rp),
    Then(if lp && rp then CompareOption(l.growthDelta, r.growthDelta) else Equal,
    Then(if lp && rp && l.growthDelta == r.growthDelta
           then CompareOption(PositiveRate(l), PositiveRate(r)) else Equal,
    Then(CompareInt(l.p95Count, r.p95Count),
    Then(CompareInt(l.peakCount, r.peakCount),
         CompareName(r.gauge, l.gauge)))))))
  }

  /** A key that makes the conditional steps unconditional. */
  datatype Key = Key(active: bool, positive: bool, delta: Option<int>, rate: Option<int>, p95: int, peak: int)

  function KeyOf(c: Candidate): Key
  {
    var p := c.KnownPositiveGrowth();
    Key(c.active, p, if p then c.growthDelta else None, if p then PositiveRate(c) else None, c.p95Count, c.peakCount)
  }

  function CompareKey(a: Key, b: Key): Ordering
  {
    Then(CompareBool(a.active, b.active),
    Then(CompareBool(a.positive, b.positive),
    Then(CompareOption(a.delta, b.delta),
    Then(CompareOption(a.rate, b.rate),
    Then(CompareInt(a.p95, b.p95), CompareInt(a.peak, b.peak))))))
  }

  /** The conditional comparator is the lexicographic order on keys, then the smaller gauge name. */
  lemma CompareIsLexicographic(l: Candidate, r: Candidate)
    ensures Compare(l, r) == Then(CompareKey(KeyOf(l), KeyOf(r)), CompareName(r.gauge, l.gauge))
  {}

  lemma CompareKeyTransitive(a: Key, b: Key, c: Key)
    requires !CompareKey(a, b).Greater? && !CompareKey(b, c).Greater?
    ensures !CompareKey(a, c).Greater?
    ensures CompareKey(a, c).Equal? ==> CompareKey(a, b).Equal? && CompareKey(b, c).Equal?
  {}

  predicate NotGreater(l: Candidate, r: Candidate) { !Compare(l, r).Greater? }

  /** A total order: candidates of different gauges never tie. */
  lemma CompareIsTotalOrder(a: Candidate, b: Candidate, c: Candidate)
    ensures NotGreater(a, b) || NotGreater(b, a)
    ensures NotGreater(a, b) && NotGreater(b, c) ==> NotGreater(a, c)
    ensures NotGreater(a, b) && NotGreater(b, a) ==> a.gauge == b.gauge
  {
    hide CompareKey, KeyOf;
    NameOrder();
    CompareIsLexicographic(a, b);
    CompareIsLexicographic(b, a);
    CompareIsLexicographic(b, c);
    CompareIsLexicographic(a, c);
    CompareKeySymmetric(KeyOf(a), KeyOf(b));
    if NotGreater(a, b) && NotGreater(b, c) {
      CompareKeyTransitive(KeyOf(a), KeyOf(b), KeyOf(c));
    }
  }

  lemma CompareKeySymmetric(a: Key, b: Key)
    ensures CompareKey(a, b).Greater? <==> CompareKey(b, a).Less?
    ensures CompareKey(a, b).Equal? <==> CompareKey(b, a).Equal?
  {}

  // ----- the dominant gauge

  function ForGauge(snapshots: seq<InFlightSnapshot>, gauge: string): seq<InFlightSnapshot>
  {
    if snapshots == [] then []
    else
      var x := snapshots[|snapshots| - 1];
      ForGauge(snapshots[..|snapshots| - 1], gauge) + if x.gauge == gauge then [x] else []
  }

  ghost function CandidateIn(snapshots: seq<InFlightSnapshot>, gauge: string): Option<Candidate>
  {
    CandidateFor(gauge, ForGauge(snapshots, gauge))
  }

  ghost predicate NotAbove(snapshots: seq<InFlightSnapshot>, gauge: string, c: Candidate)
  {
    CandidateIn(snapshots, gauge).Some? ==> NotGreater(CandidateIn(snapshots, gauge).value, c)
  }

  /** A candidate no other gauge's candidate exceeds; none only when no gauge has one. */
  ghost predicate IsDominant(snapshots: seq<InFlightSnapshot>, r: Option<Candidate>)
  {
    match r
    case None => forall g :: CandidateIn(snapshots, g).None?
    case Some(c) =>
      CandidateIn(snapshots, c.gauge) == r
      && forall g :: NotAbove(snapshots, g, c)
  }

  lemma DominantUnique(snapshots: seq<InFlightSnapshot>, a: Option<Candidate>, b: Option<Candidate>)
    requires IsDominant(snapshots, a) && IsDominant(snapshots, b)
    ensures a == b
  {
    hide CandidateIn, NotGreater;
    if a.Some? && b.Some? {
      CompareIsTotalOrder(a.value, b.value, a.value);
      assert NotAbove(snapshots, a.value.gauge, b.value) && NotAbove(snapshots, b.value.gauge, a.value);
    }
  }

  /** How the gauges' samples interleave in the run does not matter. */
  lemma DominantIgnoresInterleaving(a: seq<InFlightSnapshot>, b: seq<InFlightSnapshot>, r: Option<Candidate>)
    requires forall g :: ForGauge(a, g) == ForGauge(b, g)
    ensures IsDominant(a, r) <==> IsDominant(b, r)
  {
    hide CandidateFor;
    hide NotGreater;
    forall g, c ensures NotAbove(a, g, c) <==> NotAbove(b, g, c) {}
    forall g ensures CandidateIn(a, g) == CandidateIn(b, g) {}
  }

  function GaugeAt(m: map<string, seq<Indexed>>, gauge: string): seq<Indexed>
  {
    if gauge in m then m[gauge] else []
  }

  ghost predicate Gauged(m: map<string, seq<Indexed>>, snapshots: seq<InFlightSnapshot>, gauge: string)
  {
    && SamplesOf(GaugeAt(m, gauge)) == ForGauge(snapshots, gauge)
    && Ascending(GaugeAt(m, gauge))
    && (forall x :: x in GaugeAt(m, gauge) ==> x.index < |snapshots|)
  }

  lemma AppendSample(s: seq<Indexed>, i: nat, x: InFlightSnapshot)
    requires Ascending(s) && forall y :: y in s ==> y.index < i
    ensures SamplesOf(s + [Indexed(i, x)]) == SamplesOf(s) + [x]
    ensures Ascending(s + [Indexed(i, x)]) && forall y :: y in s + [Indexed(i, x)] ==> y.index < i + 1
  {
    assert (s + [Indexed(i, x)])[..|s|] == s;
    forall k | 0 <= k < |s| ensures s[k].index < i {
      assert s[k] in s;
    }
  }

  lemma GaugedNext(m: map<string, seq<Indexed>>, snapshots: seq<InFlightSnapshot>, i: nat, gauge: string)
    requires i < |snapshots| && Gauged(m, snapshots[..i], gauge)
    ensures var x := snapshots[i];
            Gauged(m[x.gauge := GaugeAt(m, x.gauge) + [Indexed(i, x)]], snapshots[..i + 1], gauge)
  {
    hide SamplesOf, Ascending;
    var x := snapshots[i];
    var upto := snapshots[..i + 1];
    assert upto[..i] == snapshots[..i] && upto[i] == x;
    if x.gauge == gauge {
      AppendSample(GaugeAt(m, gauge), i, x);
    } else {
      assert GaugeAt(m[x.gauge := GaugeAt(m, x.gauge) + [Indexed(i, x)]], gauge) == GaugeAt(m, gauge);
    }
  }

  method GroupByGauge(snapshots: seq<InFlightSnapshot>) returns (byGauge: map<string, seq<Indexed>>)
    ensures forall g :: Gauged(byGauge, snapshots, g)
  {
    hide Gauged;
    byGauge := map[];
    assert snapshots[..0] == [];
    forall g ensures Gauged(byGauge, [], g) { NothingGauged(g); }
    for i := 0 to |snapshots|
      invariant forall g :: Gauged(byGauge, snapshots[..i], g)
    {
      var x := snapshots[i];
      var next := byGauge[x.gauge := GaugeAt(byGauge, x.gauge) + [Indexed(i, x)]];
      var upto := snapshots[..i + 1];
      forall g ensures Gauged(next, upto, g) {
        GaugedNext(byGauge, snapshots, i, g);
      }
      byGauge := next;
    }
    assert snapshots[..|snapshots|] == snapshots;
  }

  lemma NothingGauged(gauge: string)
    ensures Gauged(map[], [], gauge)
  {}

  lemma NothingForGauge(gauge: string)
    ensures CandidateFor(gauge, []) == None
  {
    NoEpisode();
  }

  method DominantInflightCandidate(snapshots: seq<InFlightSnapshot>) returns (r: Option<Candidate>)
    ensures IsDominant(snapshots, r)
  {
    hide CandidateFor, NotGreater, ForGauge, SamplesOf, Ascending;
    var byGauge := GroupByGauge(snapshots);
    var gauges := byGauge.Keys;
    r := None;
    while gauges != {}
      invariant gauges <= byGauge.Keys
      invariant r.None? ==> forall g :: g in byGauge && g !in gauges ==> CandidateIn(snapshots, g).None?
      invariant r.Some? ==> CandidateIn(snapshots, r.value.gauge) == r
      invariant r.Some? ==> forall g :: g in byGauge && g !in gauges ==> NotAbove(snapshots, g, r.value)
      decreases |gauges|
    {
      var gauge :| gauge in gauges;
      assert Gauged(byGauge, snapshots, gauge);
      var c := InflightTrendForGauge(gauge, byGauge[gauge]);
      CandidateNamesGauge(gauge, ForGauge(snapshots, gauge));
      if c.Some? {
        if r.None? {
          CompareIsTotalOrder(c.value, c.value, c.value);
          r := c;
        } else {
          ReplaceKeeps(snapshots, byGauge.Keys - gauges, r.value, c.value);
          if Compare(r.value, c.value) != Greater {
            r := c;
          } else {
            CompareIsTotalOrder(r.value, c.value, c.value);
            assert NotGreater(c.value, r.value) by { NotGreaterIs(r.value, c.value); }
          }
        }
      }
      gauges := gauges - {gauge};
    }
    forall g | g !in byGauge ensures CandidateIn(snapshots, g).None? {
      assert Gauged(byGauge, snapshots, g);
      assert ForGauge(snapshots, g) == [] by { NoSamples(); }
      NothingForGauge(g);
    }
  }

  lemma NoSamples()
    ensures SamplesOf([]) == []
  {}

  lemma NotGreaterIs(l: Candidate, r: Candidate)
    ensures NotGreater(l, r) <==> Compare(l, r) != Greater
  {}

  lemma CandidateNamesGauge(gauge: string, samples: seq<InFlightSnapshot>)
    ensures CandidateFor(gauge, samples).Some? ==> CandidateFor(gauge, samples).value.gauge == gauge
  {}

  lemma ReplaceKeeps(snapshots: seq<InFlightSnapshot>, seen: set<string>, r: Candidate, c: Candidate)
    requires forall g :: g in seen ==> NotAbove(snapshots, g, r)
    ensures Compare(r, c) != Greater ==> NotGreater(c, c) && forall g :: g in seen ==> NotAbove(snapshots, g, c)
  {
    hide NotGreater, CandidateIn, Compare;
    CompareIsTotalOrder(c, c, c);
    NotGreaterIs(r, c);
    if Compare(r, c) != Greater {
      forall g | g in seen ensures NotAbove(snapshots, g, c) {
        assert NotAbove(snapshots, g, r);
        if CandidateIn(snapshots, g).Some? {
          CompareIsTotalOrder(CandidateIn(snapshots, g).value, r, c);
        }
      }
    }
  }
}
