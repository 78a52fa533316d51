/** What the shares and summaries of a run are, read off its requests and events: which events count,
    for whom, and how much of a request they take. */
module ShareLaws {
  import opened Machine
  import opened Sorting
  import opened Names
  import opened Events
  import opened Percentiles
  import Attribution
  import TimeShares
  import StageAttribution
  import Slicing

  // ----- attribution

  /** The microseconds inside some interval of the events. */
  ghost function Microseconds(events: seq<Attribution.Input>): set<int>
  {
    set t | 0 <= t <= U64_MAX && Held(events, t)
  }

  ghost predicate Held(events: seq<Attribution.Input>, t: int)
  {
    exists e :: e in events && Holds(e, t)
  }

  predicate Holds(e: Attribution.Input, t: int)
  {
    e.interval.Some? && e.interval.value.start <= t < e.interval.value.end
  }

  /** What is attributed: with an event that lacks its interval the sum of the durations, otherwise the
      number of distinct microseconds; never more than the cap. */
  lemma AttributionExactly(events: seq<Attribution.Input>, cap: u64)
    ensures var a := Attribution.Attribute(events, cap);
            if exists e :: e in events && e.interval.None? then
              a.mode.Approximate? && a.durationUs == Min(cap, Sum(Map(events, (e: Attribution.Input) => e.durationUs)))
            else
              a.mode.Precise? && a.durationUs == Min(cap, |Microseconds(events)|)
  {
    if !Attribution.HasGap(events) {
      var ivs := Attribution.Intervals(events);
      forall t | 0 <= t <= U64_MAX ensures t in Attribution.Covered(ivs) <==> t in Microseconds(events) {
        if e :| e in events && Holds(e, t) {
          var i :| 0 <= i < |events| && events[i] == e;
          assert Attribution.Within(t, ivs[i]);
        }
        if i :| 0 <= i < |ivs| && Attribution.Within(t, ivs[i]) {
          assert events[i] in events && Holds(events[i], t);
        }
      }
      assert Attribution.Covered(ivs) == Microseconds(events);
    }
  }

  // ----- queue shares

  /** A part of a request in thousandths, rounded down. */
  lemma ShareIsQuotient(part: u64, whole: u64, q: nat)
    requires 0 < whole && part <= whole && whole * 1000 <= U64_MAX
    ensures TimeShares.Share(part, whole) == q <==> q * whole <= part * 1000 < (q + 1) * whole
  {
    var a := part * 1000;
    TimeShares.DivMod(a, whole);
    var r := a / whole;
    QuotientUnique(a, whole, r, q);
    QuotientUnique(whole * 1000, whole, 1000, 1000);
    TimeShares.DivMonotone(a, whole * 1000, whole);
    StageAttribution.DivExact(1000, whole);
  }

  lemma QuotientUnique(a: nat, d: nat, r: nat, q: nat)
    requires d > 0 && r * d <= a < r * d + d
    ensures r == q <==> q * d <= a < (q + 1) * d
  {
    assert (q + 1) * d == q * d + d && (r + 1) * d == r * d + d;
    if r < q {
      MulMonotone(d, r + 1, q);
    } else if q < r {
      MulMonotone(d, q + 1, r);
    }
  }

  /** The waits of a request: the queue events under its id, the completed ones or all of them, in
      recorded order, each with its duration and, where both ends have an offset, its interval. */
  ghost predicate AreWaits(inputs: seq<Attribution.Input>, some: seq<QueueEvent>)
  {
    |inputs| == |some| && forall k :: 0 <= k < |some| ==> IsWait(inputs[k], some[k])
  }

  predicate IsWait(x: Attribution.Input, q: QueueEvent)
  {
    && x.durationUs == q.waitUs
    && (x.interval.Some? <==> q.fromRunUs.Some? && q.untilRunUs.Some?)
    && (x.interval.Some? ==> x.interval.value.start == q.fromRunUs.value && x.interval.value.end == q.untilRunUs.value)
  }

  function WaitsOf(id: string, completedOnly: bool): QueueEvent -> bool
  {
    (q: QueueEvent) => q.requestId == id && (completedOnly ==> q.completed)
  }

  lemma {:induction false} InputsAreWaits(queues: seq<QueueEvent>, id: string, completedOnly: bool)
    ensures AreWaits(TimeShares.Inputs(queues, id, completedOnly), Slicing.Retain(queues, WaitsOf(id, completedOnly)))
  {
    if queues != [] {
      InputsAreWaits(queues[..|queues| - 1], id, completedOnly);
    }
  }

  /** What the events take of a request of the given latency. */
  ghost function Taken(events: seq<Attribution.Input>, latency: u64): u64
  {
    Attribution.Attribute(events, latency).durationUs
  }

  function TookTime(): RequestEvent -> bool { (r: RequestEvent) => r.latencyUs > 0 }

  /** The three series: one share per request that took time, in order, of its completed wait, of its
      observed wait, and of what its completed wait leaves. */
  lemma {:induction false} SharesExactly(requests: seq<RequestEvent>, queues: seq<QueueEvent>)
    ensures var some := Slicing.Retain(requests, TookTime()); var s := TimeShares.SharesOf(requests, queues);
            && |s.completedQueue| == |s.observedQueue| == |s.completedService| == |some|
            && forall k :: 0 <= k < |some| ==>
                 var r := some[k];
                 var done := Taken(TimeShares.Inputs(queues, r.requestId, true), r.latencyUs);
                 var seen := Taken(TimeShares.Inputs(queues, r.requestId, false), r.latencyUs);
                 && r.latencyUs > 0 && done <= r.latencyUs && seen <= r.latencyUs
                 && s.completedQueue[k] == TimeShares.Share(done, r.latencyUs)
                 && s.observedQueue[k] == TimeShares.Share(seen, r.latencyUs)
                 && s.completedService[k] == TimeShares.Share(r.latencyUs - done, r.latencyUs)
  {
    hide TimeShares.Share, TimeShares.Inputs, Attribution.Attribute;
    if requests != [] {
      SharesExactly(requests[..|requests| - 1], queues);
      var r := requests[|requests| - 1];
      TimeShares.WaitWithin(queues, r);
    }
  }

  /** A request's completed queue share and service share make up all of it but a thousandth. */
  lemma ServiceComplementsQueue(requests: seq<RequestEvent>, queues: seq<QueueEvent>)
    ensures SplitsRequests(TimeShares.SharesOf(requests, queues), Slicing.Retain(requests, TookTime()))
  {
    hide TimeShares.SharesOf, TimeShares.Inputs, Attribution.Attribute, TimeShares.Share;
    SharesExactly(requests, queues);
    var s, some := TimeShares.SharesOf(requests, queues), Slicing.Retain(requests, TookTime());
    forall k | 0 <= k < |some|
      ensures MakesUp(s.completedQueue[k], s.completedService[k], some[k].latencyUs)
    {
      var r := some[k];
      var done := Taken(TimeShares.Inputs(queues, r.requestId, true), r.latencyUs);
      TimeShares.SharesSplitLatency(done, r.latencyUs);
    }
  }

  ghost predicate SplitsRequests(s: TimeShares.RequestTimeShares, some: seq<RequestEvent>)
  {
    && |s.completedQueue| == |s.completedService| == |some|
    && forall k :: 0 <= k < |some| ==> MakesUp(s.completedQueue[k], s.completedService[k], some[k].latencyUs)
  }

  /** Unless the latency is so long that a product saturates. */
  predicate MakesUp(queue: int, service: int, latency: int)
  {
    queue + service <= 1000 && (latency * 1000 <= U64_MAX ==> queue + service >= 999)
  }

  // ----- stages

  /** The last request under an id gives its context, and only ids of requests have one. */
  lemma {:induction false} ContextsExactly(requests: seq<RequestEvent>, p95: u64, id: string)
    ensures var contexts := StageAttribution.ContextsOf(requests, p95);
            && (id in contexts <==> exists r :: r in requests && r.requestId == id)
            && forall i :: LastOf(requests, id, i) ==>
                 && id in contexts && contexts[id].latencyUs == requests[i].latencyUs
                 && (contexts[id].isTail <==> requests[i].latencyUs >= p95)
  {
    if requests != [] {
      var n := |requests| - 1;
      var prior, r := requests[..n], requests[n];
      assert requests == prior + [r];
      ContextsExactly(prior, p95, id);
      forall i | LastOf(requests, id, i) ensures if r.requestId == id then i == n else LastOf(prior, id, i) {}
    }
  }

  ghost predicate LastOf(requests: seq<RequestEvent>, id: string, i: int)
  {
    0 <= i < |requests| && requests[i].requestId == id && forall j :: i < j < |requests| ==> requests[j].requestId != id
  }

  /** The two denominators: all latencies, and those no lower than the p95. */
  lemma TotalsExactly(requests: seq<RequestEvent>, p95: u64)
    ensures var t := StageAttribution.TotalsOf(requests, p95);
            && t.all == Min(Sum(Map(requests, (r: RequestEvent) => r.latencyUs)), U64_MAX)
            && t.tail == Min(Sum(Map(requests, (r: RequestEvent) => if r.latencyUs >= p95 then r.latencyUs else 0)),
                             U64_MAX)
  {
    var all, tail := Map(requests, (r: RequestEvent) => r.latencyUs),
                     Map(requests, (r: RequestEvent) => if r.latencyUs >= p95 then r.latencyUs else 0);
    assert StageAttribution.Weights(requests, p95, false) == all;
    assert StageAttribution.Weights(requests, p95, true) == tail;
    SatSumIsExactOrMax(all);
    SatSumIsExactOrMax(tail);
  }

  predicate IsTimed(x: Attribution.Input, e: StageEvent)
  {
    && x.durationUs == e.latencyUs
    && (x.interval.Some? <==> e.startedRunUs.Some? && e.finishedRunUs.Some?)
    && (x.interval.Some? ==>
          x.interval.value.start == e.startedRunUs.value && x.interval.value.end == e.finishedRunUs.value)
  }

  /** The events of one stage of one known request, the completed ones or all of them. */
  function EventsOf(g: StageAttribution.Group, id: string): StageEvent -> bool
  {
    (e: StageEvent) =>
      e.stage == g.name && e.requestId == id && id in g.contexts && (g.basis.Completed? ==> e.completed)
  }

  lemma {:induction false} InputsAreStages(g: StageAttribution.Group, id: string)
    ensures var some := Slicing.Retain(g.stages, EventsOf(g, id));
            && |StageAttribution.Inputs(g, id)| == |some|
            && forall k :: 0 <= k < |some| ==> IsTimed(StageAttribution.Inputs(g, id)[k], some[k])
    decreases |g.stages|
  {
    if g.stages != [] {
      var prior := g.(stages := g.stages[..|g.stages| - 1]);
      InputsAreStages(prior, id);
      Slicing.RetainAlike(prior.stages, EventsOf(g, id), EventsOf(prior, id));
    }
  }

  /** The partial events of the stage on known requests. */
  function PartialsOf(g: StageAttribution.Group): StageEvent -> bool
  {
    (e: StageEvent) => e.stage == g.name && e.requestId in g.contexts && !e.completed
  }

  lemma {:induction false} PartialCountExactly(g: StageAttribution.Group)
    ensures StageAttribution.PartialCount(g) == |Slicing.Retain(g.stages, PartialsOf(g))|
    decreases |g.stages|
  {
    if g.stages != [] {
      var prior := g.(stages := g.stages[..|g.stages| - 1]);
      PartialCountExactly(prior);
      Slicing.RetainAlike(prior.stages, PartialsOf(g), PartialsOf(prior));
    }
  }

  /** What a request contributes to the stage: what its events of the stage take of it. */
  ghost function TakenOf(g: StageAttribution.Group, id: string): u64
    requires id in g.contexts
  {
    Taken(StageAttribution.Inputs(g, id), g.contexts[id].latencyUs)
  }

  ghost function TakenBy(g: StageAttribution.Group, ids: seq<string>, tailOnly: bool): seq<u64>
    requires forall id :: id in ids ==> id in g.contexts
  {
    seq(|ids|, k requires 0 <= k < |ids| =>
      assert ids[k] in ids;
      if tailOnly && !g.contexts[ids[k]].isTail then 0 else TakenOf(g, ids[k]))
  }

  /** The summary of a stage, over any list of the requests that have an event of it, each once: how many
      they are, the p95 of what they contribute, the sum over all of them and over the tail, and both as
      shares of the totals, in thousandths rounded down. */
  lemma SummaryExactly(g: StageAttribution.Group, totals: StageAttribution.Totals, ids: seq<string>)
    requires Distinct(ids)
    requires forall id :: id in ids <==> exists e :: e in g.stages && EventsOf(g, id)(e)
    ensures forall id :: id in ids ==> id in g.contexts
    ensures var s := StageAttribution.SummaryOf(g, totals);
            var all, tail := TakenBy(g, ids, false), TakenBy(g, ids, true);
            && s.basis == g.basis && s.stage == g.name && s.requestSamples == |ids|
            && (ids != [] ==> Percentile(all, 95, 100) == Some(s.p95Us)) && (ids == [] ==> s.p95Us == 0)
            && s.cumulativeUs == Min(Sum(all), U64_MAX) && s.tailUs == Min(Sum(tail), U64_MAX)
            && s.cumulativeShare == StageAttribution.Permille(s.cumulativeUs, totals.all)
            && s.tailShare == StageAttribution.Permille(s.tailUs, totals.tail)
            && s.partialCount == if g.basis.ObservedLowerBound? then |Slicing.Retain(g.stages, PartialsOf(g))| else 0
  {
    hide Attribution.Attribute, StageAttribution.PartialCount, StageAttribution.Permille;
    assert forall id :: id in ids ==> id in g.contexts;
    PartialCountExactly(g);
    EnumeratesIds(g, ids);
    StageAttribution.MembersEnumerate(g);
    StageAttribution.SummaryIgnoresVisitingOrder(g, totals, ids, StageAttribution.Members(g));
    hide StageAttribution.Inputs, StageAttribution.Members, StageAttribution.Enumerates;
    var all, tail := TakenBy(g, ids, false), TakenBy(g, ids, true);
    PartsAreTaken(g, ids, false);
    PartsAreTaken(g, ids, true);
    SatSumIsExactOrMax(all);
    SatSumIsExactOrMax(tail);
    if ids != [] {
      PercentileIsElement(all, 95, 100);
    }
  }

  lemma EnumeratesIds(g: StageAttribution.Group, ids: seq<string>)
    requires Distinct(ids)
    requires forall id :: id in ids <==> exists e :: e in g.stages && EventsOf(g, id)(e)
    ensures StageAttribution.Enumerates(ids, g)
  {
    forall id ensures id in ids <==> StageAttribution.Inputs(g, id) != [] {
      InputsAreStages(g, id);
      Slicing.RetainMembers(g.stages, EventsOf(g, id));
      var some := Slicing.Retain(g.stages, EventsOf(g, id));
      if some != [] {
        assert some[0] in some;
      }
    }
  }

  lemma PartsAreTaken(g: StageAttribution.Group, ids: seq<string>, tailOnly: bool)
    requires forall id :: id in ids ==> id in g.contexts
    ensures StageAttribution.Parts(g, tailOnly, ids) == TakenBy(g, ids, tailOnly)
  {
    hide StageAttribution.Inputs, Attribution.Attribute;
    var x, y := StageAttribution.Parts(g, tailOnly, ids), TakenBy(g, ids, tailOnly);
    forall k | 0 <= k < |ids| ensures x[k] == y[k] {
      assert ids[k] in ids;
    }
  }

  /** A share of a total in thousandths, rounded down; none of nothing. */
  lemma PermilleIsQuotient(part: u64, total: u64, q: u64)
    requires part * 1000 <= U64_MAX
    ensures total == 0 ==> StageAttribution.Permille(part, total) == 0
    ensures total > 0 ==>
              (StageAttribution.Permille(part, total) == q <==> q * total <= part * 1000 < (q + 1) * total)
  {
    if total > 0 {
      TimeShares.DivMod(part * 1000, total);
      QuotientUnique(part * 1000, total, part * 1000 / total, q);
    }
  }

  /** Both summaries of every stage some known request has an event of, and of no other, by name. */
  lemma SummariesExactly(requests: seq<RequestEvent>, stages: seq<StageEvent>, p95: u64) returns (names: seq<string>)
    ensures Distinct(names) && Sorted(names, NameLe)
    ensures var contexts := StageAttribution.ContextsOf(requests, p95);
            && (forall n :: n in names <==> exists e :: e in stages && e.stage == n && e.requestId in contexts)
            && PairOf(StageAttribution.DualSummaries(requests, stages, p95), names, stages, contexts,
                      StageAttribution.TotalsOf(requests, p95))
  {
    var contexts, totals := StageAttribution.ContextsOf(requests, p95), StageAttribution.TotalsOf(requests, p95);
    var found := StageAttribution.StageNames(stages, contexts);
    names := Sort(found, NameLe);
    StageAttribution.NamesDistinct(stages, contexts);
    NameOrder();
    SortPermutes(found, NameLe);
    SortSorts(found, NameLe);
    PermutationDistinct(found, names);
    PairsOf(names, stages, contexts, totals);
  }

  ghost predicate PairOf(s: seq<StageAttribution.Summary>, names: seq<string>, stages: seq<StageEvent>,
                         contexts: StageAttribution.Contexts, totals: StageAttribution.Totals)
  {
    && |s| == 2 * |names|
    && forall k :: 0 <= k < |names| ==>
         && s[2 * k] == StageAttribution.SummaryOf(
              StageAttribution.Group(stages, contexts, names[k], StageAttribution.Completed), totals)
         && s[2 * k + 1] == StageAttribution.SummaryOf(
              StageAttribution.Group(stages, contexts, names[k], StageAttribution.ObservedLowerBound), totals)
  }

  lemma {:induction false} PairsOf(names: seq<string>, stages: seq<StageEvent>, contexts: StageAttribution.Contexts,
                                   totals: StageAttribution.Totals)
    ensures PairOf(StageAttribution.SummariesFor(names, stages, contexts, totals), names, stages, contexts, totals)
  {
    hide StageAttribution.SummaryOf;
    if names != [] {
      PairsOf(names[..|names| - 1], stages, contexts, totals);
    }
  }
}
