/** The early and late halves of a run, and the windows their global samples are taken from. */
module Temporal {
  import opened Machine
  import opened Sorting
  import opened Names
  import opened Events
  import opened Slicing

  // ----- the order

  predicate AllRunRelativeStart(requests: seq<RequestEvent>)
  {
    forall r :: r in requests ==> r.startedRunUs.Some?
  }

  function RunStart(r: RequestEvent): u64
  {
    if r.startedRunUs.Some? then r.startedRunUs.value else 0
  }

  /** The clock the split goes by. */
  function Start(relative: bool, r: RequestEvent): u64
  {
    if relative then RunStart(r) else r.startedUnixMs
  }

  /** Run-relative start, then wall clock, then id; or wall clock, then id. */
  predicate StartsBefore(relative: bool, a: RequestEvent, b: RequestEvent)
  {
    if Start(relative, a) != Start(relative, b) then Start(relative, a) < Start(relative, b)
    else if a.startedUnixMs != b.startedUnixMs then a.startedUnixMs < b.startedUnixMs
    else NameLe(a.requestId, b.requestId)
  }

  function ByStart(relative: bool): (RequestEvent, RequestEvent) -> bool
  {
    (a: RequestEvent, b: RequestEvent) => StartsBefore(relative, a, b)
  }

  lemma StartOrder(relative: bool)
    ensures TotalPreorder(ByStart(relative))
    ensures forall a, b :: ByStart(relative)(a, b) && ByStart(relative)(b, a) ==> a.requestId == b.requestId
  {
    NameOrder();
  }

  ghost predicate UniqueIds(requests: seq<RequestEvent>)
  {
    forall i, j :: 0 <= i < j < |requests| ==> requests[i].requestId != requests[j].requestId
  }

  function Ordered(requests: seq<RequestEvent>): seq<RequestEvent>
  {
    Sort(requests, ByStart(AllRunRelativeStart(requests)))
  }

  datatype Segments = Segments(early: seq<RequestEvent>, late: seq<RequestEvent>)

  function Split(requests: seq<RequestEvent>): Segments
  {
    SortPermutes(requests, ByStart(AllRunRelativeStart(requests)));
    var ordered := Ordered(requests);
    Segments(ordered[..|requests| / 2], ordered[|requests| / 2..])
  }

  lemma UniqueMeansDistinct(requests: seq<RequestEvent>)
    requires UniqueIds(requests)
    ensures Distinct(requests)
    ensures forall r, q :: r in requests && q in requests && r.requestId == q.requestId ==> r == q
  {
    forall r, q | r in requests && q in requests && r.requestId == q.requestId ensures r == q {
      var i :| 0 <= i < |requests| && requests[i] == r;
      var j :| 0 <= j < |requests| && requests[j] == q;
    }
  }

  /** The halves partition the requests, the first being no larger, and no early request starts after
      a late one on the chosen clock. */
  lemma SplitPartitions(requests: seq<RequestEvent>)
    ensures var s := Split(requests);
            && multiset(s.early) + multiset(s.late) == multiset(requests)
            && |s.early| == |requests| / 2 && |s.late| == (|requests| + 1) / 2
    ensures var s := Split(requests);
            forall e, l :: e in s.early && l in s.late ==>
              Start(AllRunRelativeStart(requests), e) <= Start(AllRunRelativeStart(requests), l)
  {
    var relative := AllRunRelativeStart(requests);
    var ordered, n := Ordered(requests), |requests| / 2;
    hide *;
    OrderedByStart(requests);
    OrderedPermutes(requests);
    CutMultiset(ordered, n);
    HalvesOrdered(ordered, n, relative);
    SplitIs(requests);
  }

  lemma SplitIs(requests: seq<RequestEvent>)
    ensures |Ordered(requests)| == |requests|
    ensures Split(requests) == Segments(Ordered(requests)[..|requests| / 2], Ordered(requests)[|requests| / 2..])
  {
    SortPermutes(requests, ByStart(AllRunRelativeStart(requests)));
  }

  lemma OrderedPermutes(requests: seq<RequestEvent>)
    ensures multiset(Ordered(requests)) == multiset(requests)
  {
    SortPermutes(requests, ByStart(AllRunRelativeStart(requests)));
  }

  lemma HalvesOrdered(ordered: seq<RequestEvent>, n: nat, relative: bool)
    requires n <= |ordered|
    requires forall i, j :: 0 <= i < j < |ordered| ==> Start(relative, ordered[i]) <= Start(relative, ordered[j])
    ensures forall e, l :: e in ordered[..n] && l in ordered[n..] ==> Start(relative, e) <= Start(relative, l)
  {
    hide Start;
    forall e, l | e in ordered[..n] && l in ordered[n..] ensures Start(relative, e) <= Start(relative, l) {
      var i :| 0 <= i < n && ordered[i] == e;
      var j :| n <= j < |ordered| && ordered[j] == l;
    }
  }

  lemma OrderedByStart(requests: seq<RequestEvent>)
    ensures |Ordered(requests)| == |requests| && Sorted(Ordered(requests), ByStart(AllRunRelativeStart(requests)))
    ensures forall i, j :: 0 <= i < j < |requests| ==>
              Start(AllRunRelativeStart(requests), Ordered(requests)[i]) <=
              Start(AllRunRelativeStart(requests), Ordered(requests)[j])
  {
    var relative := AllRunRelativeStart(requests);
    var ordered := Ordered(requests);
    StartOrder(relative);
    SortPermutes(requests, ByStart(relative));
    SortSorts(requests, ByStart(relative));
    hide Sort;
    forall i, j | 0 <= i < j < |requests| ensures Start(relative, ordered[i]) <= Start(relative, ordered[j]) {
      assert ByStart(relative)(ordered[i], ordered[j]);
    }
  }

  lemma UniqueIdsPermute(a: seq<RequestEvent>, b: seq<RequestEvent>)
    requires UniqueIds(a) && multiset(a) == multiset(b)
    ensures UniqueIds(b)
  {
    UniqueMeansDistinct(a);
    forall i, j | 0 <= i < j < |b| ensures b[i].requestId != b[j].requestId {
      assert b[i] in multiset(a) && b[j] in multiset(a);
      if b[i] == b[j] {
        DistinctMultiplicity(a, b[i]);
        Twice(b, i, j);
      }
    }
  }

  /** With unique ids the split does not depend on the order in which requests were recorded. */
  lemma SplitIgnoresOrder(a: seq<RequestEvent>, b: seq<RequestEvent>)
    requires UniqueIds(a) && multiset(a) == multiset(b)
    ensures Split(a) == Split(b)
  {
    UniqueMeansDistinct(a);
    SameElements(a, b);
    assert AllRunRelativeStart(a) == AllRunRelativeStart(b);
    assert |multiset(a)| == |a| && |multiset(b)| == |b|;
    var le := ByStart(AllRunRelativeStart(a));
    StartOrder(AllRunRelativeStart(a));
    assert TieFree(a, le) by {
      forall i, j | 0 <= i < |a| && 0 <= j < |a| && le(a[i], a[j]) && le(a[j], a[i]) ensures a[i] == a[j] {
        assert a[i] in a && a[j] in a;
      }
    }
    SortOfPermutation(a, b, le);
  }

  /** The halves, when the run and its smaller half are large enough to be compared. */
  method SplitForSegments(requests: seq<RequestEvent>, minRequests: nat, minSegment: nat) returns (s: Option<Segments>)
    ensures s == if |requests| >= minRequests && |requests| / 2 >= minSegment then Some(Split(requests)) else None
  {
    if |requests| < minRequests {
      return None;
    }
    SplitPartitions(requests);
    SortPermutes(requests, ByStart(AllRunRelativeStart(requests)));
    var ordered := Ordered(requests);
    var split := |ordered| / 2;
    var early, late := ordered[..split], ordered[split..];
    if |early| < minSegment || |late| < minSegment {
      return None;
    }
    return Some(Segments(early, late));
  }

  // ----- windows

  datatype SegmentWindows = SegmentWindows(unix: Option<Window>, runRelative: Option<Window>)

  ghost predicate IsUnixWindow(segment: seq<RequestEvent>, w: Option<Window>)
  {
    match w
    case None => segment == []
    case Some(w) =>
      && (forall r :: r in segment ==> w.start <= r.startedUnixMs && r.finishedUnixMs <= w.finish)
      && (exists r :: r in segment && r.startedUnixMs == w.start)
      && (exists r :: r in segment && r.finishedUnixMs == w.finish)
  }

  predicate Timed(r: RequestEvent) { r.startedRunUs.Some? && r.finishedRunUs.Some? }

  ghost predicate IsRunWindow(segment: seq<RequestEvent>, w: Option<Window>)
  {
    match w
    case None => segment == [] || exists r :: r in segment && !Timed(r)
    case Some(w) =>
      && (forall r :: r in segment ==> Timed(r) && w.start <= r.startedRunUs.value && r.finishedRunUs.value <= w.finish)
      && (exists r :: r in segment && r.startedRunUs == Some(w.start))
      && (exists r :: r in segment && r.finishedRunUs == Some(w.finish))
  }

  method SegmentUnixWindow(segment: seq<RequestEvent>) returns (w: Option<Window>)
    ensures IsUnixWindow(segment, w)
  {
    if segment == [] {
      return None;
    }
    var start: u64, finish: u64 := segment[0].startedUnixMs, segment[0].finishedUnixMs;
    for i := 1 to |segment|
      invariant IsUnixWindow(segment[..i], Some(Window(start, finish)))
    {
      var r := segment[i];
      assert segment[..i + 1] == segment[..i] + [r];
      start := Min(start, r.startedUnixMs);
      finish := Max(finish, r.finishedUnixMs);
    }
    assert segment[..|segment|] == segment;
    return Some(Window(start, finish));
  }

  method SegmentRunRelativeWindow(segment: seq<RequestEvent>) returns (w: Option<Window>)
    ensures IsRunWindow(segment, w)
  {
    if segment == [] || exists r :: r in segment && !Timed(r) {
      return None;
    }
    assert segment[0] in segment && Timed(segment[0]);
    var start: u64, finish: u64 := segment[0].startedRunUs.value, segment[0].finishedRunUs.value;
    for i := 1 to |segment|
      invariant IsRunWindow(segment[..i], Some(Window(start, finish)))
    {
      var r := segment[i];
      assert r in segment && Timed(r);
      assert segment[..i + 1] == segment[..i] + [r];
      start := Min(start, r.startedRunUs.value);
      finish := Max(finish, r.finishedRunUs.value);
    }
    assert segment[..|segment|] == segment;
    return Some(Window(start, finish));
  }

  // ----- slicing by a segment's ids gives the segment back

  ghost function IdSet(segment: seq<RequestEvent>): set<string>
  {
    set r | r in segment :: r.requestId
  }

  /** Slicing the run by a half's ids recovers exactly that half: its requests in source order, which
      the split's own order arranges as the half. */
  lemma SliceRecoversSegment(run: Run, samples: Run, policy: GlobalEvidencePolicy, late: bool)
    requires UniqueIds(run.requests)
    ensures var s := Split(run.requests);
            var segment := if late then s.late else s.early;
            var sliced := Sliced(run, samples, IdSet(segment), policy).requests;
            && multiset(sliced) == multiset(segment)
            && Sort(sliced, ByStart(AllRunRelativeStart(run.requests))) == segment
  {
    var relative := AllRunRelativeStart(run.requests);
    var le := ByStart(relative);
    var ordered, n := Ordered(run.requests), |run.requests| / 2;
    StartOrder(relative);
    OrderedByStart(run.requests);
    SortPermutes(run.requests, le);
    UniqueIdsPermute(run.requests, ordered);
    var lo, hi := if late then n else 0, if late then |ordered| else n;
    assert ordered[n..] == ordered[n..|ordered|] && ordered[..n] == ordered[0..n];
    SegmentRetained(run.requests, ordered, lo, hi, ordered[lo..hi]);
    SegmentSorted(ordered, lo, hi, relative);
    hide StartsBefore, Sort, IdSet, Sorted, TieFree, UniqueIds;
    SortRestores(Retain(run.requests, OfRequests(IdSet(ordered[lo..hi]))), ordered[lo..hi], le);
  }

  lemma SegmentSorted(ordered: seq<RequestEvent>, lo: nat, hi: nat, relative: bool)
    requires lo <= hi <= |ordered| && UniqueIds(ordered) && Sorted(ordered, ByStart(relative))
    ensures Sorted(ordered[lo..hi], ByStart(relative)) && TieFree(ordered[lo..hi], ByStart(relative))
  {
    var segment, le := ordered[lo..hi], ByStart(relative);
    StartOrder(relative);
    UniqueMeansDistinct(ordered);
    hide StartsBefore, UniqueIds;
    forall i, j | 0 <= i < |segment| && 0 <= j < |segment| && le(segment[i], segment[j]) && le(segment[j], segment[i])
      ensures segment[i] == segment[j]
    {
      assert segment[i] in ordered && segment[j] in ordered;
    }
  }

  lemma SegmentRetained(requests: seq<RequestEvent>, ordered: seq<RequestEvent>, lo: nat, hi: nat,
                        segment: seq<RequestEvent>)
    requires UniqueIds(requests) && UniqueIds(ordered) && multiset(ordered) == multiset(requests)
    requires lo <= hi <= |ordered| && segment == ordered[lo..hi]
    ensures multiset(Retain(requests, OfRequests(IdSet(segment)))) == multiset(segment)
  {
    var keep := OfRequests(IdSet(segment));
    UniqueMeansDistinct(requests);
    UniqueMeansDistinct(ordered);
    RetainMembers(requests, keep);
    RetainDistinct(requests, keep);
    SameElements(ordered, requests);
    SegmentMembers(ordered, segment, requests);
    DistinctPermutation(Retain(requests, keep), segment);
  }

  lemma SegmentMembers(ordered: seq<RequestEvent>, segment: seq<RequestEvent>, requests: seq<RequestEvent>)
    requires forall r :: r in segment ==> r in ordered
    requires forall r :: r in ordered <==> r in requests
    requires forall r, q :: r in requests && q in requests && r.requestId == q.requestId ==> r == q
    ensures forall r :: r in requests && r.requestId in IdSet(segment) <==> r in segment
  {}

  lemma IdsSplit(run: Run)
    requires UniqueIds(run.requests)
    ensures var s := Split(run.requests);
            && IdSet(s.early) !! IdSet(s.late)
            && IdSet(s.early) + IdSet(s.late) == IdSet(run.requests)
  {
    var le := ByStart(AllRunRelativeStart(run.requests));
    var ordered, n := Ordered(run.requests), |run.requests| / 2;
    SortPermutes(run.requests, le);
    UniqueIdsPermute(run.requests, ordered);
    IdsOfHalves(ordered, n);
    hide Sort;
    assert IdSet(ordered) == IdSet(run.requests);
  }

  lemma IdsOfHalves(ordered: seq<RequestEvent>, n: nat)
    requires n <= |ordered| && UniqueIds(ordered)
    ensures IdSet(ordered[..n]) !! IdSet(ordered[n..])
    ensures IdSet(ordered[..n]) + IdSet(ordered[n..]) == IdSet(ordered)
  {
    forall e, l | e in ordered[..n] && l in ordered[n..] ensures e.requestId != l.requestId {
      var i :| 0 <= i < n && ordered[i] == e;
      var j :| n <= j < |ordered| && ordered[j] == l;
    }
    assert ordered == ordered[..n] + ordered[n..];
    forall id ensures id in IdSet(ordered) <==> id in IdSet(ordered[..n]) + IdSet(ordered[n..]) {}
  }

  /** The halves' slices share out the children of the run: none lost, none in both. */
  lemma SlicesShareOutChildren(run: Run, samples: Run, policy: GlobalEvidencePolicy)
    requires UniqueIds(run.requests)
    requires forall e :: e in run.stages ==> e.requestId in IdSet(run.requests)
    requires forall q :: q in run.queues ==> q.requestId in IdSet(run.requests)
    ensures var s := Split(run.requests);
            var early, late := Sliced(run, samples, IdSet(s.early), policy),
                               Sliced(run, samples, IdSet(s.late), policy);
            && multiset(early.requests) + multiset(late.requests) == multiset(run.requests)
            && multiset(early.stages) + multiset(late.stages) == multiset(run.stages)
            && multiset(early.queues) + multiset(late.queues) == multiset(run.queues)
  {
    var s := Split(run.requests);
    IdsSplit(run);
    RetainSplits(run.requests, OfRequests(IdSet(s.early)), OfRequests(IdSet(s.late)));
    RetainSplits(run.stages, StagesOf(IdSet(s.early)), StagesOf(IdSet(s.late)));
    RetainSplits(run.queues, QueuesOf(IdSet(s.early)), QueuesOf(IdSet(s.late)));
  }
}
