/** The halves of a run and the samples of a window, said request by request and sample by sample. */
module TemporalLaws {
  import opened Machine
  import opened Sorting
  import opened Names
  import opened Events
  import opened Slicing
  import opened Temporal

  /** Whether a request starts no later than another: by run-relative time when every request has one, and
      by wall clock otherwise; what ties is ordered by wall clock, then by id. */
  predicate NotAfter(requests: seq<RequestEvent>, a: RequestEvent, b: RequestEvent)
  {
    var wall := a.startedUnixMs < b.startedUnixMs
                || (a.startedUnixMs == b.startedUnixMs && NameLe(a.requestId, b.requestId));
    if forall r :: r in requests ==> r.startedRunUs.Some? then
      a.startedRunUs.Some? && b.startedRunUs.Some?
      && (a.startedRunUs.value < b.startedRunUs.value || (a.startedRunUs == b.startedRunUs && wall))
    else wall
  }

  /** The early half of a run is the first half of its requests in that order, the late half the rest, and
      both are in that order; an odd request goes to the late half. */
  lemma SplitExactly(requests: seq<RequestEvent>)
    ensures var s := Split(requests); var all := s.early + s.late;
            && multiset(all) == multiset(requests) && |s.late| - |s.early| == |requests| % 2
            && forall i, j :: 0 <= i < j < |all| ==> NotAfter(requests, all[i], all[j])
  {
    var ordered := Ordered(requests);
    OrderedByStart(requests);
    OrderedPermutes(requests);
    SplitIs(requests);
    SplitPartitions(requests);
    assert ordered[..|requests| / 2] + ordered[|requests| / 2..] == ordered;
    SameElements(ordered, requests);
    hide Ordered, Split;
    forall i, j | 0 <= i < j < |ordered| ensures NotAfter(requests, ordered[i], ordered[j]) {
      assert ByStart(AllRunRelativeStart(requests))(ordered[i], ordered[j]);
      assert ordered[i] in requests && ordered[j] in requests;
    }
  }

  /** A sample lies in a window: on the run-relative clock when both have that time, otherwise on the wall
      clock; the ends belong to it. */
  predicate Inside(w: SampleWindow, atUnixMs: u64, atRunUs: Option<u64>)
  {
    match (w.runRelative, atRunUs)
    case (Some(Window(start, finish)), Some(t)) => start <= t && t <= finish
    case _ => w.unixStart <= atUnixMs && atUnixMs <= w.unixFinish
  }

  /** A slice keeps the requests, stages and queue events of the ids and the samples inside the window, each
      in recorded order, and nothing without a window; everything else is the source's. */
  lemma SliceExactly(source: Run, samples: Run, ids: set<string>, policy: GlobalEvidencePolicy)
    ensures var s := Sliced(source, samples, ids, policy);
            && s.metadata == source.metadata && s.truncation == source.truncation
            && s.requests == Retain(source.requests, (r: RequestEvent) => r.requestId in ids)
            && s.stages == Retain(source.stages, (e: StageEvent) => e.requestId in ids)
            && s.queues == Retain(source.queues, (q: QueueEvent) => q.requestId in ids)
            && match policy
               case Exclude => s.runtime == [] && s.inflight == []
               case Within(w) =>
                 && s.runtime == Retain(samples.runtime, (x: RuntimeSnapshot) => Inside(w, x.atUnixMs, x.atRunUs))
                 && s.inflight == Retain(samples.inflight, (x: InFlightSnapshot) => Inside(w, x.atUnixMs, x.atRunUs))
  {
    if policy.Within? {
      var w := policy.window;
      RetainAlike(samples.runtime, KeepRuntime(w), (x: RuntimeSnapshot) => Inside(w, x.atUnixMs, x.atRunUs));
      RetainAlike(samples.inflight, KeepInflight(w), (x: InFlightSnapshot) => Inside(w, x.atUnixMs, x.atRunUs));
    }
  }

  /** Falling back is reported of a sample that is kept although the window has a range on the run-relative
      clock and the sample no time on it. */
  lemma FallbackExactly(w: SampleWindow, atUnixMs: u64, atRunUs: Option<u64>)
    ensures FellBack(atUnixMs, atRunUs, w) <==>
              Inside(w, atUnixMs, atRunUs) && w.runRelative != None && atRunUs == None
  {}
}
