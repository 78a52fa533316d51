/** Elapsed time attributed to overlapping events: interval union when every event carries its
    interval, the capped sum of durations otherwise. */
module Attribution {
  import opened Machine
  import opened Sorting

  datatype Interval = Interval(start: u64, end: u64)

  datatype Input = Input(interval: Option<Interval>, durationUs: u64)

  datatype Mode = Precise | Approximate

  datatype Attributed = Attributed(durationUs: u64, mode: Mode)

  // ----- what the result is: distinct microseconds covered

  predicate Within(t: int, iv: Interval) { iv.start <= t < iv.end }

  ghost predicate Covers(ivs: seq<Interval>, t: int)
  {
    exists i :: 0 <= i < |ivs| && Within(t, ivs[i])
  }

  ghost function Covered(ivs: seq<Interval>): set<int>
  {
    set t | 0 <= t <= U64_MAX && Covers(ivs, t)
  }

  ghost function Range(lo: u64, hi: u64): set<int>
  {
    set t | 0 <= t <= U64_MAX && Within(t, Interval(lo, hi))
  }

  predicate HasGap(events: seq<Input>)
  {
    exists e :: e in events && e.interval.None?
  }

  predicate NotInverted(e: Input)
  {
    e.interval.Some? ==> e.interval.value.start <= e.interval.value.end
  }

  predicate Normalized(events: seq<Input>)
  {
    forall e :: e in events ==> NotInverted(e)
  }

  function Durations(events: seq<Input>): seq<u64>
  {
    Map(events, (e: Input) => e.durationUs)
  }

  function Intervals(events: seq<Input>): (ivs: seq<Interval>)
    requires !HasGap(events)
    ensures |ivs| == |events| && forall i :: 0 <= i < |ivs| ==> events[i].interval == Some(ivs[i])
  {
    if events == [] then []
    else
      assert events[|events| - 1] in events;
      Intervals(events[..|events| - 1]) + [events[|events| - 1].interval.value]
  }

  /** The number of distinct microseconds covered by a gap-free list. */
  ghost function Union(events: seq<Input>): nat
    requires !HasGap(events)
  {
    |Covered(Intervals(events))|
  }

  ghost function Attribute(events: seq<Input>, cap: u64): Attributed
  {
    if HasGap(events) then Attributed(Min(cap, Sum(Durations(events))), Approximate)
    else Attributed(Min(cap, Union(events)), Precise)
  }

  // ----- the sort-and-merge loop

  predicate IntervalLe(a: Interval, b: Interval)
  {
    a.start < b.start || (a.start == b.start && a.end <= b.end)
  }

  method AttributedElapsedDuration(events: seq<Input>, cap: u64) returns (r: Attributed)
    requires Normalized(events)
    ensures r == Attribute(events, cap)
  {
    if events == [] {
      EmptyUnion();
      return Attributed(0, Precise);
    }
    if HasGap(events) {
      SatSumIsExactOrMax(Durations(events));
      return Attributed(Min(SatSum(Durations(events)), cap), Approximate);
    }
    SortedIsOrdered(events);
    var covered := MergeSorted(Sort(Intervals(events), IntervalLe));
    return Attributed(Min(covered, cap), Precise);
  }

  method MergeSorted(intervals: seq<Interval>) returns (covered: u64)
    requires intervals != [] && Ordered(intervals)
    ensures covered == |Covered(intervals)|
  {
    hide MergeInv, Ordered, Covered, Range;
    covered := 0;
    var merged: Option<Interval> := None;
    ghost var closed: set<int> := {};
    for i := 0 to |intervals|
      invariant merged.None? <==> i == 0
      invariant merged.None? ==> closed == {} && covered == 0
      invariant merged.Some? ==> MergeInv(intervals, i, merged.value, covered, closed)
    {
      var iv := intervals[i];
      match merged {
        case None =>
          FirstInterval(intervals);
          merged := Some(iv);
        case Some(m) =>
          if iv.start <= m.end {
            ExtendKeeps(intervals, i, m, covered, closed);
            merged := Some(Interval(m.start, Max(m.end, iv.end)));
          } else {
            CloseKeeps(intervals, i, m, covered, closed);
            covered := SatAdd(covered, SatSub(m.end, m.start));
            closed := closed + Range(m.start, m.end);
            merged := Some(iv);
          }
      }
    }
    CloseCounts(intervals, |intervals|, merged.value, covered, closed);
    assert intervals[..|intervals|] == intervals;
    covered := SatAdd(covered, SatSub(merged.value.end, merged.value.start));
  }

  lemma SortedIsOrdered(events: seq<Input>)
    requires Normalized(events) && !HasGap(events)
    ensures Ordered(Sort(Intervals(events), IntervalLe))
    ensures Covered(Sort(Intervals(events), IntervalLe)) == Covered(Intervals(events))
  {
    var ivs := Intervals(events);
    var sorted := Sort(ivs, IntervalLe);
    SortSorts(ivs, IntervalLe);
    SortPermutes(ivs, IntervalLe);
    SameCover(sorted, ivs);
    forall j, k | 0 <= j < k < |sorted| ensures sorted[j].start <= sorted[k].start {
      assert IntervalLe(sorted[j], sorted[k]);
    }
    forall k | 0 <= k < |sorted| ensures sorted[k].start <= sorted[k].end {
      assert sorted[k] in ivs;
      var i :| 0 <= i < |ivs| && ivs[i] == sorted[k];
      assert events[i] in events && NotInverted(events[i]);
    }
  }

  /** After `i` intervals: what is covered is the closed part, below the merged block, and the block.
      The running total is at most the block's start, so no addition can saturate. */
  ghost predicate MergeInv(ivs: seq<Interval>, i: nat, m: Interval, covered: u64, closed: set<int>)
  {
    && 0 < i <= |ivs|
    && m.start <= m.end
    && (forall j :: i <= j < |ivs| ==> m.start <= ivs[j].start)
    && Covered(ivs[..i]) == closed + Range(m.start, m.end)
    && (forall t :: t in closed ==> 0 <= t < m.start)
    && |closed| == covered
  }

  ghost predicate Ordered(ivs: seq<Interval>)
  {
    && (forall j, k :: 0 <= j < k < |ivs| ==> ivs[j].start <= ivs[k].start)
    && (forall j :: 0 <= j < |ivs| ==> ivs[j].start <= ivs[j].end)
  }

  lemma CoveredGrows(ivs: seq<Interval>, i: nat)
    requires i < |ivs|
    ensures Covered(ivs[..i + 1]) == Covered(ivs[..i]) + Range(ivs[i].start, ivs[i].end)
  {
    forall t ensures t in Covered(ivs[..i + 1]) <==> t in Covered(ivs[..i]) + Range(ivs[i].start, ivs[i].end) {
      if t in Covered(ivs[..i + 1]) {
        var k :| 0 <= k <= i && Within(t, ivs[..i + 1][k]);
        if k < i {
          assert Within(t, ivs[..i][k]);
        }
      }
      if t in Covered(ivs[..i]) {
        var k :| 0 <= k < i && Within(t, ivs[..i][k]);
        assert Within(t, ivs[..i + 1][k]);
      }
      if t in Range(ivs[i].start, ivs[i].end) {
        assert Within(t, ivs[..i + 1][i]);
      }
    }
  }

  lemma FirstInterval(ivs: seq<Interval>)
    requires ivs != [] && Ordered(ivs)
    ensures MergeInv(ivs, 1, ivs[0], 0, {})
  {
    CoveredGrows(ivs, 0);
    assert ivs[..0] == [];
  }

  lemma ExtendKeeps(ivs: seq<Interval>, i: nat, m: Interval, covered: u64, closed: set<int>)
    requires Ordered(ivs) && i < |ivs| && MergeInv(ivs, i, m, covered, closed) && ivs[i].start <= m.end
    ensures MergeInv(ivs, i + 1, Interval(m.start, Max(m.end, ivs[i].end)), covered, closed)
  {
    CoveredGrows(ivs, i);
  }

  lemma CloseCounts(ivs: seq<Interval>, i: nat, m: Interval, covered: u64, closed: set<int>)
    requires MergeInv(ivs, i, m, covered, closed)
    ensures covered + (m.end - m.start) == |Covered(ivs[..i])| <= U64_MAX
    ensures covered <= m.start <= m.end
  {
    RangeSize(m.start, m.end);
    RangeSize(0, m.start);
    SubsetSize(closed, Range(0, m.start));
    assert closed !! Range(m.start, m.end);
  }

  lemma CloseKeeps(ivs: seq<Interval>, i: nat, m: Interval, covered: u64, closed: set<int>)
    requires Ordered(ivs) && i < |ivs| && MergeInv(ivs, i, m, covered, closed) && m.end < ivs[i].start
    ensures m.start <= m.end && covered + (m.end - m.start) <= U64_MAX
    ensures MergeInv(ivs, i + 1, ivs[i], covered + (m.end - m.start), closed + Range(m.start, m.end))
  {
    CloseCounts(ivs, i, m, covered, closed);
    CoveredGrows(ivs, i);
    forall j | i + 1 <= j < |ivs| ensures ivs[i].start <= ivs[j].start {}
  }

  lemma {:induction false} RangeSize(lo: u64, hi: u64)
    requires lo <= hi
    ensures |Range(lo, hi)| == hi - lo
    decreases hi - lo
  {
    if lo < hi {
      RangeSize(lo, hi - 1);
      assert Range(lo, hi) == Range(lo, hi - 1) + {hi - 1};
    }
  }

  lemma EmptyUnion()
    ensures !HasGap([]) && Union([]) == 0
  {
    assert Covered([]) == {};
  }

  lemma SameCover(a: seq<Interval>, b: seq<Interval>)
    requires forall iv :: iv in a <==> iv in b
    ensures Covered(a) == Covered(b)
  {
    CoverIncluded(a, b);
    CoverIncluded(b, a);
  }

  lemma CoverIncluded(a: seq<Interval>, b: seq<Interval>)
    requires forall iv :: iv in a ==> iv in b
    ensures Covered(a) <= Covered(b)
  {
    forall t | t in Covered(a) ensures t in Covered(b) {
      var i :| 0 <= i < |a| && Within(t, a[i]);
      assert a[i] in b;
      var j :| 0 <= j < |b| && b[j] == a[i];
      assert Within(t, b[j]);
    }
  }

  // ----- laws

  lemma UnionIncluded(a: seq<Input>, b: seq<Input>)
    requires !HasGap(a) && !HasGap(b) && forall e :: e in a ==> e in b
    ensures Union(a) <= Union(b)
  {
    var x, y := Intervals(a), Intervals(b);
    forall iv | iv in x ensures iv in y {
      var i :| 0 <= i < |x| && x[i] == iv;
      assert a[i] in b;
      var j :| 0 <= j < |b| && b[j] == a[i];
      assert y[j] == iv;
    }
    CoverIncluded(x, y);
    SubsetSize(Covered(x), Covered(y));
  }

  /** Precise attribution depends only on which intervals occur: neither order nor repetition matters. */
  lemma PreciseIgnoresOrderAndRepetition(a: seq<Input>, b: seq<Input>, cap: u64)
    requires !HasGap(a) && forall e :: e in a <==> e in b
    ensures Attribute(a, cap) == Attribute(b, cap)
  {
    assert !HasGap(b);
    UnionIncluded(a, b);
    UnionIncluded(b, a);
  }

  /** Either mode: the order in which events were recorded is immaterial. */
  lemma AttributionIgnoresOrder(a: seq<Input>, b: seq<Input>, cap: u64)
    requires multiset(a) == multiset(b)
    ensures Attribute(a, cap) == Attribute(b, cap)
  {
    SameElements(a, b);
    if HasGap(a) {
      MapPermutes(a, b, (e: Input) => e.durationUs);
      SumPermutes(Durations(a), Durations(b));
    } else {
      PreciseIgnoresOrderAndRepetition(a, b, cap);
    }
  }

  /** Adding intervals never lowers a precise attribution. */
  lemma PreciseMonotone(a: seq<Input>, b: seq<Input>, cap: u64)
    requires !HasGap(b) && forall e :: e in a ==> e in b
    ensures Attribute(a, cap).durationUs <= Attribute(b, cap).durationUs
  {
    assert !HasGap(a);
    UnionIncluded(a, b);
  }

  // ----- completed events against all observed events

  lemma DurationsIncluded(some: seq<Input>, all: seq<Input>)
    requires multiset(some) <= multiset(all)
    ensures Sum(Durations(some)) <= Sum(Durations(all))
  {
    SumIncluded(some, all, (e: Input) => e.durationUs);
  }

  /** The guard under which extra events cannot lower an attribution: the switch to approximate
      mode, if it can happen, starts from durations at least as long as the union it replaces. */
  ghost predicate DurationsCoverUnion(events: seq<Input>, cap: u64)
  {
    HasGap(events) || Min(cap, Union(events)) <= Sum(Durations(events))
  }

  lemma ObservedDominates(completed: seq<Input>, observed: seq<Input>, cap: u64)
    requires multiset(completed) <= multiset(observed)
    requires HasGap(observed) ==> DurationsCoverUnion(completed, cap)
    ensures Attribute(completed, cap).durationUs <= Attribute(observed, cap).durationUs
  {
    forall e | e in completed ensures e in observed {
      assert e in multiset(completed);
      assert e in multiset(observed);
    }
    if HasGap(observed) {
      DurationsIncluded(completed, observed);
    } else {
      PreciseMonotone(completed, observed, cap);
    }
  }

  /** Exactly when no partial event whatever can lower the attribution of the completed ones. */
  lemma DominationCondition(completed: seq<Input>, cap: u64)
    ensures (forall partial: seq<Input> ::
               Attribute(completed, cap).durationUs <= Attribute(completed + partial, cap).durationUs)
            <==> DurationsCoverUnion(completed, cap)
  {
    if DurationsCoverUnion(completed, cap) {
      forall partial: seq<Input>
        ensures Attribute(completed, cap).durationUs <= Attribute(completed + partial, cap).durationUs
      {
        assert multiset(completed + partial) == multiset(completed) + multiset(partial);
        ObservedDominates(completed, completed + partial, cap);
      }
    } else {
      GapLoses(completed, cap);
    }
  }

  /** One interval-less event of no duration is enough to expose durations that fall short. */
  lemma GapLoses(completed: seq<Input>, cap: u64)
    requires !DurationsCoverUnion(completed, cap)
    ensures Attribute(completed, cap).durationUs > Attribute(completed + [Input(None, 0)], cap).durationUs
  {
    var both := completed + [Input(None, 0)];
    assert both[|completed|].interval.None?;
    assert both[..|completed|] == completed;
    assert Durations(both) == Durations(completed) + [0];
    assert (Durations(completed) + [0])[..|completed|] == Durations(completed);
  }

  /** The interval is at most `slack` longer than the duration. */
  predicate LengthWithin(e: Input, slack: nat)
  {
    e.interval.Some? ==> e.interval.value.end - e.interval.value.start <= e.durationUs + slack
  }

  /** A union is no longer than its parts, so no longer than the durations and their slack. */
  lemma {:induction false} LengthsBoundUnion(events: seq<Input>, slack: nat)
    requires !HasGap(events) && forall e :: e in events ==> LengthWithin(e, slack)
    ensures Union(events) <= Sum(Durations(events)) + slack * |events|
  {
    if events == [] {
      EmptyUnion();
    } else {
      hide Intervals, Covered, Durations, Union, Sum;
      var n := |events| - 1;
      LengthsBoundUnion(events[..n], slack);
      assert events[n] in events;
      UnionGrows(events, n);
      DurationsLast(events, n);
      OneMore(slack, n);
    }
  }

  lemma OneMore(a: nat, n: nat)
    ensures a * (n + 1) == a * n + a
  {}

  lemma DurationsLast(events: seq<Input>, n: nat)
    requires n == |events| - 1
    ensures Sum(Durations(events)) == Sum(Durations(events[..n])) + events[n].durationUs
  {
    assert Durations(events)[..n] == Durations(events[..n]);
  }

  lemma UnionGrows(events: seq<Input>, n: nat)
    requires !HasGap(events) && n == |events| - 1
    ensures !HasGap(events[..n]) && events[n].interval.Some?
    ensures Union(events) <= Union(events[..n]) + Max(events[n].interval.value.end - events[n].interval.value.start, 0)
  {
    var ivs := Intervals(events);
    assert Intervals(events[..n]) == ivs[..n] && ivs[..n + 1] == ivs;
    CoveredGrows(ivs, n);
    var last := Range(ivs[n].start, ivs[n].end);
    if ivs[n].start <= ivs[n].end {
      RangeSize(ivs[n].start, ivs[n].end);
    } else {
      assert last == {};
    }
    UnionSize(Covered(ivs[..n]), last);
  }

  /** With a slack, observing can lose at most the slack of each completed event. */
  lemma ObservedLossBounded(completed: seq<Input>, observed: seq<Input>, cap: u64, slack: nat)
    requires multiset(completed) <= multiset(observed) && forall e :: e in completed ==> LengthWithin(e, slack)
    ensures Attribute(completed, cap).durationUs <= Attribute(observed, cap).durationUs + slack * |completed|
  {
    if HasGap(observed) && !HasGap(completed) {
      LengthsBoundUnion(completed, slack);
      DurationsIncluded(completed, observed);
    } else {
      ObservedDominates(completed, observed, cap);
      MulNonNegative(slack, |completed|);
    }
  }

  lemma UnionSize<T>(a: set<T>, b: set<T>)
    ensures |a + b| <= |a| + |b|
  {
    assert a + b == a + (b - a);
    SubsetSize(b - a, b);
  }

  /** Normalization tolerates a duration shorter than its interval. Such a completed wait of 100 us
      recorded as 0 us attributes 100 us alone and nothing beside an interval-less partial event. */
  lemma DominationCanFail(cap: u64)
    ensures var completed := [Input(Some(Interval(0, 100)), 0)];
            Normalized(completed)
            && Attribute(completed, cap) == Attributed(Min(cap, 100), Precise)
            && Attribute(completed + [Input(None, 0)], cap) == Attributed(0, Approximate)
  {
    hide Intervals, Covered, Durations, Sum;
    OneInterval(0, 100, 0);
    TwoZeroDurations(Some(Interval(0, 100)), None);
    var both := [Input(Some(Interval(0, 100)), 0)] + [Input(None, 0)];
    assert both == [Input(Some(Interval(0, 100)), 0), Input(None, 0)];
    assert both[1].interval.None? && both[1] in both;
  }

  lemma OneInterval(lo: u64, hi: u64, durationUs: u64)
    requires lo <= hi
    ensures var e := [Input(Some(Interval(lo, hi)), durationUs)]; !HasGap(e) && Union(e) == hi - lo
  {
    var e := [Input(Some(Interval(lo, hi)), durationUs)];
    var ivs := Intervals(e);
    CoveredGrows(ivs, 0);
    assert ivs[..1] == ivs && ivs[..0] == [];
    assert Covered([]) == {};
    assert ivs[0] == Interval(lo, hi);
    RangeSize(lo, hi);
  }

  lemma TwoZeroDurations(a: Option<Interval>, b: Option<Interval>)
    ensures Sum(Durations([Input(a, 0), Input(b, 0)])) == 0
  {
    var d := Durations([Input(a, 0), Input(b, 0)]);
    assert d[..1][..0] == [] && Sum(d[..1]) == 0;
  }
}
