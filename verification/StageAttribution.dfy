/** Per-stage summaries: how much of each request a stage accounts for, over completed events and
    over all observed events. Groups are hash maps, so requests are visited in no particular order. */
module StageAttribution {
  import opened Machine
  import opened Sorting
  import opened Names
  import opened Events
  import opened Attribution
  import opened Percentiles
  import opened TimeShares

  datatype Basis = Completed | ObservedLowerBound

  datatype Context = Context(latencyUs: u64, isTail: bool)

  type Contexts = map<string, Context>

  datatype Summary = Summary(
    basis: Basis, stage: string, requestSamples: nat, p95Us: u64,
    cumulativeUs: u64, cumulativeShare: u64, tailUs: u64, tailShare: u64, partialCount: nat)

  datatype Totals = Totals(all: u64, tail: u64)

  // ----- request contexts: with duplicate ids the last request wins, the totals count all

  function ContextOf(r: RequestEvent, p95: u64): Context
  {
    Context(r.latencyUs, r.latencyUs >= p95)
  }

  function ContextsOf(requests: seq<RequestEvent>, p95: u64): Contexts
  {
    if requests == [] then map[]
    else
      var r := requests[|requests| - 1];
      ContextsOf(requests[..|requests| - 1], p95)[r.requestId := ContextOf(r, p95)]
  }

  /** A context's latency, or nothing when only the tail counts and it is not in the tail. */
  function Weight(c: Context, tailOnly: bool): u64
  {
    if tailOnly && !c.isTail then 0 else c.latencyUs
  }

  function Weights(requests: seq<RequestEvent>, p95: u64, tailOnly: bool): seq<u64>
  {
    Map(requests, (r: RequestEvent) => Weight(ContextOf(r, p95), tailOnly))
  }

  function TotalsOf(requests: seq<RequestEvent>, p95: u64): Totals
  {
    Totals(SatSum(Weights(requests, p95, false)), SatSum(Weights(requests, p95, true)))
  }

  method RequestContexts(requests: seq<RequestEvent>, p95: u64) returns (contexts: Contexts, totals: Totals)
    ensures contexts == ContextsOf(requests, p95) && totals == TotalsOf(requests, p95)
  {
    contexts := map[];
    var total: u64, tail: u64 := 0, 0;
    for i := 0 to |requests|
      invariant contexts == ContextsOf(requests[..i], p95)
      invariant Totals(total, tail) == TotalsOf(requests[..i], p95)
    {
      var r := requests[i];
      var isTail := r.latencyUs >= p95;
      assert requests[..i + 1][..i] == requests[..i];
      WeightsNext(requests, i, p95, false);
      WeightsNext(requests, i, p95, true);
      total := SatAdd(total, r.latencyUs);
      if isTail {
        tail := SatAdd(tail, r.latencyUs);
      }
      contexts := contexts[r.requestId := Context(r.latencyUs, isTail)];
    }
    assert requests[..|requests|] == requests;
    totals := Totals(total, tail);
  }

  lemma WeightsNext(requests: seq<RequestEvent>, i: nat, p95: u64, tailOnly: bool)
    requires i < |requests|
    ensures SatSum(Weights(requests[..i + 1], p95, tailOnly)) ==
            SatAdd(SatSum(Weights(requests[..i], p95, tailOnly)), Weight(ContextOf(requests[i], p95), tailOnly))
  {
    var w := Weights(requests[..i + 1], p95, tailOnly);
    assert requests[..i + 1][..i] == requests[..i];
    assert w[..i] == Weights(requests[..i], p95, tailOnly);
  }

  // ----- what a group holds

  /** The events of one stage name, restricted to completed ones or not. */
  datatype Group = Group(stages: seq<StageEvent>, contexts: Contexts, name: string, basis: Basis)

  function StageInput(e: StageEvent): Input
  {
    Input(Zip(e.startedRunUs, e.finishedRunUs), e.latencyUs)
  }

  predicate StagesNormalized(stages: seq<StageEvent>)
  {
    forall e :: e in stages ==> NotInverted(StageInput(e))
  }

  predicate Belongs(e: StageEvent, contexts: Contexts, name: string, basis: Basis)
  {
    e.stage == name && e.requestId in contexts && (basis.Completed? ==> e.completed)
  }

  function Inputs(g: Group, id: string): seq<Input>
    decreases |g.stages|
  {
    if g.stages == [] then []
    else
      var e := g.stages[|g.stages| - 1];
      Inputs(g.(stages := g.stages[..|g.stages| - 1]), id)
      + if Belongs(e, g.contexts, g.name, g.basis) && e.requestId == id then [StageInput(e)] else []
  }

  function PartialCount(g: Group): nat
    decreases |g.stages|
  {
    if g.stages == [] then 0
    else
      var e := g.stages[|g.stages| - 1];
      PartialCount(g.(stages := g.stages[..|g.stages| - 1]))
      + if Belongs(e, g.contexts, g.name, ObservedLowerBound) && !e.completed then 1 else 0
  }

  /** The request ids of a group, in order of first appearance. */
  function Members(g: Group): seq<string>
    decreases |g.stages|
  {
    if g.stages == [] then []
    else
      var e := g.stages[|g.stages| - 1];
      var before := Members(g.(stages := g.stages[..|g.stages| - 1]));
      if Belongs(e, g.contexts, g.name, g.basis) && e.requestId !in before then before + [e.requestId] else before
  }

  // ----- what a summary says, whatever order the requests are visited in

  ghost function Part(g: Group, tailOnly: bool, id: string): u64
  {
    if id !in g.contexts || (tailOnly && !g.contexts[id].isTail) then 0
    else Attribute(Inputs(g, id), g.contexts[id].latencyUs).durationUs
  }

  ghost function Parts(g: Group, tailOnly: bool, ids: seq<string>): seq<u64>
  {
    Map(ids, id => Part(g, tailOnly, id))
  }

  function Permille(part: u64, total: u64): u64
  {
    if total == 0 then 0 else SatMul(part, 1000) / total
  }

  function OrZero(v: Option<u64>): u64
  {
    if v.Some? then v.value else 0
  }

  function SummaryFrom(g: Group, totals: Totals, parts: seq<u64>, tailParts: seq<u64>): Summary
  {
    Summary(g.basis, g.name, |parts|, OrZero(Percentile(parts, 95, 100)),
            SatSum(parts), Permille(SatSum(parts), totals.all),
            SatSum(tailParts), Permille(SatSum(tailParts), totals.tail),
            if g.basis.ObservedLowerBound? then PartialCount(g) else 0)
  }

  ghost function SummaryOver(g: Group, totals: Totals, ids: seq<string>): Summary
  {
    SummaryFrom(g, totals, Parts(g, false, ids), Parts(g, true, ids))
  }

  ghost function SummaryOf(g: Group, totals: Totals): Summary
  {
    SummaryOver(g, totals, Members(g))
  }

  /** Any visiting order: each request of the group once. */
  ghost predicate Enumerates(ids: seq<string>, g: Group)
  {
    Distinct(ids) && forall id :: id in ids <==> Inputs(g, id) != []
  }

  lemma {:induction false} MembersEnumerate(g: Group)
    ensures Enumerates(Members(g), g)
    decreases |g.stages|
  {
    if g.stages != [] {
      MembersEnumerate(g.(stages := g.stages[..|g.stages| - 1]));
    }
  }

  /** Hash order is immaterial. */
  lemma SummaryIgnoresVisitingOrder(g: Group, totals: Totals, a: seq<string>, b: seq<string>)
    requires Enumerates(a, g) && Enumerates(b, g)
    ensures SummaryOver(g, totals, a) == SummaryOver(g, totals, b)
  {
    DistinctPermutation(a, b);
    PartsPermute(g, false, a, b);
    PartsPermute(g, true, a, b);
    PercentileIgnoresOrder(Parts(g, false, a), Parts(g, false, b), 95, 100);
    assert |multiset(a)| == |a| && |multiset(b)| == |b|;
  }

  lemma PartsPermute(g: Group, tailOnly: bool, a: seq<string>, b: seq<string>)
    requires multiset(a) == multiset(b)
    ensures multiset(Parts(g, tailOnly, a)) == multiset(Parts(g, tailOnly, b))
    ensures SatSum(Parts(g, tailOnly, a)) == SatSum(Parts(g, tailOnly, b))
  {
    MapPermutes(a, b, id => Part(g, tailOnly, id));
    SumPermutes(Parts(g, tailOnly, a), Parts(g, tailOnly, b));
  }

  // ----- bounds

  /** The weights of distinct ids, as their last requests give them, fit in the weights of all requests. */
  lemma {:induction false} DistinctIdsFit(requests: seq<RequestEvent>, p95: u64, tailOnly: bool, ids: seq<string>)
    requires Distinct(ids) && forall id :: id in ids ==> id in ContextsOf(requests, p95)
    ensures Sum(IdWeights(ContextsOf(requests, p95), tailOnly, ids)) <= Sum(Weights(requests, p95, tailOnly))
    decreases |requests|
  {
    if ids != [] {
      assert ids[0] in ids;
      var n := |requests| - 1;
      var r, all, prior := requests[n], ContextsOf(requests, p95), ContextsOf(requests[..n], p95);
      assert Weights(requests, p95, tailOnly)[..n] == Weights(requests[..n], p95, tailOnly);
      if r.requestId in ids {
        var i :| 0 <= i < |ids| && ids[i] == r.requestId;
        var rest := Without(ids, i);
        WithoutDistinct(ids, i);
        DistinctIdsFit(requests[..n], p95, tailOnly, rest);
        IdWeightsSame(all, prior, tailOnly, rest);
        MapOfWithout(ids, i, id => IdWeight(all, tailOnly, id));
        SumWithout(IdWeights(all, tailOnly, ids), i);
      } else {
        DistinctIdsFit(requests[..n], p95, tailOnly, ids);
        IdWeightsSame(all, prior, tailOnly, ids);
      }
    }
  }

  function IdWeight(contexts: Contexts, tailOnly: bool, id: string): u64
  {
    if id in contexts then Weight(contexts[id], tailOnly) else 0
  }

  function IdWeights(contexts: Contexts, tailOnly: bool, ids: seq<string>): seq<u64>
  {
    Map(ids, id => IdWeight(contexts, tailOnly, id))
  }

  lemma IdWeightsSame(a: Contexts, b: Contexts, tailOnly: bool, ids: seq<string>)
    requires forall id :: id in ids ==> IdWeight(a, tailOnly, id) == IdWeight(b, tailOnly, id)
    ensures IdWeights(a, tailOnly, ids) == IdWeights(b, tailOnly, ids)
  {
    var x, y := IdWeights(a, tailOnly, ids), IdWeights(b, tailOnly, ids);
    forall k | 0 <= k < |ids| ensures x[k] == y[k] {
      assert ids[k] in ids;
    }
  }

  lemma WithoutDistinct<T>(s: seq<T>, i: nat)
    requires i < |s| && Distinct(s)
    ensures Distinct(Without(s, i)) && forall x :: x in Without(s, i) <==> x in s && x != s[i]
  {
    var w := Without(s, i);
    forall x | x in s && x != s[i] ensures x in w {
      var k :| 0 <= k < |s| && s[k] == x;
      assert w[if k < i then k else k - 1] == x;
    }
  }

  lemma {:induction false} SumPointwise(a: seq<u64>, b: seq<u64>)
    requires |a| == |b| && forall k :: 0 <= k < |a| ==> a[k] <= b[k]
    ensures Sum(a) <= Sum(b)
  {
    if a != [] {
      SumPointwise(a[..|a| - 1], b[..|b| - 1]);
    }
  }

  lemma {:induction false} InputsOfKnown(g: Group, id: string)
    ensures Inputs(g, id) != [] ==> id in g.contexts
    decreases |g.stages|
  {
    if g.stages != [] {
      InputsOfKnown(g.(stages := g.stages[..|g.stages| - 1]), id);
    }
  }

  lemma PartsFit(requests: seq<RequestEvent>, p95: u64, g: Group, tailOnly: bool)
    requires g.contexts == ContextsOf(requests, p95)
    ensures SatSum(Parts(g, tailOnly, Members(g))) <= SatSum(Weights(requests, p95, tailOnly))
  {
    hide Parts, IdWeights, Weights, Members, Inputs;
    var ids := Members(g);
    MembersEnumerate(g);
    forall id | id in ids ensures id in g.contexts {
      InputsOfKnown(g, id);
    }
    DistinctIdsFit(requests, p95, tailOnly, ids);
    PartsWithinWeights(g, tailOnly, ids);
    SatSumIsExactOrMax(Parts(g, tailOnly, ids));
    SatSumIsExactOrMax(Weights(requests, p95, tailOnly));
  }

  /** A request is attributed at most its own latency. */
  lemma PartsWithinWeights(g: Group, tailOnly: bool, ids: seq<string>)
    ensures Sum(Parts(g, tailOnly, ids)) <= Sum(IdWeights(g.contexts, tailOnly, ids))
  {
    hide Inputs;
    SumPointwise(Parts(g, tailOnly, ids), IdWeights(g.contexts, tailOnly, ids));
  }

  lemma PermilleBounded(part: u64, total: u64)
    requires part <= total
    ensures Permille(part, total) <= 1000
  {
    if total > 0 {
      DivMonotone(SatMul(part, 1000), 1000 * total, total);
      assert 1000 * total / total == 1000 by { DivExact(1000, total); }
    }
  }

  lemma DivExact(q: nat, d: nat)
    requires d > 0
    ensures q * d / d == q
  {
    var r := q * d / d;
    assert q * d == r * d + q * d % d;
    assert (q - r) * d == q * d % d;
    if q > r { MulMonotone(d, 1, q - r); }
    assert (r - q) * d == -((q - r) * d);
    if r > q { MulMonotone(d, 1, r - q); }
  }

  /** Shares never exceed 1000 permille, even with duplicate ids or saturated totals; every total is
      the exact sum cut off at the machine word. */
  lemma SharesBounded(requests: seq<RequestEvent>, p95: u64, g: Group)
    requires g.contexts == ContextsOf(requests, p95)
    ensures var s := SummaryOf(g, TotalsOf(requests, p95));
            && s.cumulativeShare <= 1000 && s.tailShare <= 1000
            && s.cumulativeUs == Min(Sum(Parts(g, false, Members(g))), U64_MAX)
            && s.tailUs == Min(Sum(Parts(g, true, Members(g))), U64_MAX)
            && s.tailUs <= s.cumulativeUs <= TotalsOf(requests, p95).all
  {
    var totals := TotalsOf(requests, p95);
    PartsFit(requests, p95, g, false);
    PartsFit(requests, p95, g, true);
    PermilleBounded(SatSum(Parts(g, false, Members(g))), totals.all);
    PermilleBounded(SatSum(Parts(g, true, Members(g))), totals.tail);
    SatSumIsExactOrMax(Parts(g, false, Members(g)));
    SatSumIsExactOrMax(Parts(g, true, Members(g)));
    SumPointwise(Parts(g, true, Members(g)), Parts(g, false, Members(g)));
  }

  function Latencies(requests: seq<RequestEvent>): seq<u64>
  {
    Map(requests, (r: RequestEvent) => r.latencyUs)
  }

  /** The tail denominator is zero only when no request took any time at all. */
  lemma TailTotalZero(requests: seq<RequestEvent>, p95: u64)
    requires Percentile(Latencies(requests), 95, 100) == Some(p95)
    ensures TotalsOf(requests, p95).tail == 0 <==> forall r :: r in requests ==> r.latencyUs == 0
  {
    var w := Weights(requests, p95, true);
    var latencies := Latencies(requests);
    PercentileIsElement(latencies, 95, 100);
    var i :| 0 <= i < |latencies| && latencies[i] == p95;
    SatSumIsExactOrMax(w);
    if Sum(w) == 0 {
      SumZero(w);
      forall r | r in requests ensures r.latencyUs == 0 {
        var k :| 0 <= k < |requests| && requests[k] == r;
        assert w[k] == 0 && w[i] == 0;
      }
    } else {
      SumNonzero(w);
      var k :| 0 <= k < |w| && w[k] > 0;
      assert requests[k] in requests;
    }
  }

  lemma {:induction false} SumZero(s: seq<u64>)
    requires Sum(s) == 0
    ensures forall k :: 0 <= k < |s| ==> s[k] == 0
  {
    if s != [] {
      SumZero(s[..|s| - 1]);
    }
  }

  lemma {:induction false} SumNonzero(s: seq<u64>)
    requires Sum(s) > 0
    ensures exists k :: 0 <= k < |s| && s[k] > 0
  {
    if s[|s| - 1] == 0 {
      SumNonzero(s[..|s| - 1]);
      var k :| 0 <= k < |s| - 1 && s[..|s| - 1][k] > 0;
      assert s[k] > 0;
    }
  }

  // ----- the passes of the source

  datatype StageGroup = StageGroup(
    completed: map<string, seq<Input>>, observed: map<string, seq<Input>>, partial: nat)

  const EMPTY_GROUP := StageGroup(map[], map[], 0)

  function GroupAt(groups: map<string, StageGroup>, name: string): StageGroup
  {
    if name in groups then groups[name] else EMPTY_GROUP
  }

  ghost predicate Filed(m: map<string, seq<Input>>, g: Group)
  {
    forall id :: (id in m <==> Inputs(g, id) != []) && Lookup(m, id) == Inputs(g, id)
  }

  ghost predicate Holds(gr: StageGroup, stages: seq<StageEvent>, contexts: Contexts, name: string)
  {
    && Filed(gr.completed, Group(stages, contexts, name, Completed))
    && Filed(gr.observed, Group(stages, contexts, name, ObservedLowerBound))
    && gr.partial == PartialCount(Group(stages, contexts, name, ObservedLowerBound))
  }

  /** The stage names seen on known requests, in order of first appearance. */
  function StageNames(stages: seq<StageEvent>, contexts: Contexts): seq<string>
  {
    if stages == [] then []
    else
      var e := stages[|stages| - 1];
      var before := StageNames(stages[..|stages| - 1], contexts);
      if e.requestId in contexts && e.stage !in before then before + [e.stage] else before
  }

  function AddInput(m: map<string, seq<Input>>, e: StageEvent): map<string, seq<Input>>
  {
    m[e.requestId := Lookup(m, e.requestId) + [StageInput(e)]]
  }

  function AddStage(gr: StageGroup, e: StageEvent): StageGroup
  {
    StageGroup(if e.completed then AddInput(gr.completed, e) else gr.completed, AddInput(gr.observed, e),
               gr.partial + if e.completed then 0 else 1)
  }

  lemma FiledNext(m: map<string, seq<Input>>, g: Group, i: nat)
    requires i < |g.stages| && Filed(m, g.(stages := g.stages[..i]))
    ensures Filed(if Belongs(g.stages[i], g.contexts, g.name, g.basis) then AddInput(m, g.stages[i]) else m,
                  g.(stages := g.stages[..i + 1]))
  {
    var before, after := g.(stages := g.stages[..i]), g.(stages := g.stages[..i + 1]);
    assert after.stages[..i] == before.stages && after.stages[i] == g.stages[i];
    var m' := if Belongs(g.stages[i], g.contexts, g.name, g.basis) then AddInput(m, g.stages[i]) else m;
    forall id ensures (id in m' <==> Inputs(after, id) != []) && Lookup(m', id) == Inputs(after, id) {
      assert Lookup(m, id) == Inputs(before, id);
    }
  }

  lemma HoldsNext(gr: StageGroup, stages: seq<StageEvent>, i: nat, contexts: Contexts, name: string)
    requires i < |stages| && Holds(gr, stages[..i], contexts, name)
    ensures Holds(if stages[i].stage == name && stages[i].requestId in contexts then AddStage(gr, stages[i]) else gr,
                  stages[..i + 1], contexts, name)
  {
    hide Filed, Inputs, AddInput;
    FiledNext(gr.completed, Group(stages, contexts, name, Completed), i);
    FiledNext(gr.observed, Group(stages, contexts, name, ObservedLowerBound), i);
    assert stages[..i + 1][..i] == stages[..i];
  }

  ghost predicate AllHold(groups: map<string, StageGroup>, names: seq<string>, stages: seq<StageEvent>,
                          contexts: Contexts)
  {
    && names == StageNames(stages, contexts)
    && (forall n :: n in groups <==> n in names)
    && (forall n :: Holds(GroupAt(groups, n), stages, contexts, n))
  }

  lemma AllHoldNext(groups: map<string, StageGroup>, names: seq<string>, stages: seq<StageEvent>, i: nat,
                    contexts: Contexts)
    requires i < |stages| && AllHold(groups, names, stages[..i], contexts)
    ensures var e := stages[i];
            if e.requestId in contexts then
              AllHold(groups[e.stage := AddStage(GroupAt(groups, e.stage), e)],
                      if e.stage in names then names else names + [e.stage], stages[..i + 1], contexts)
            else
              AllHold(groups, names, stages[..i + 1], contexts)
  {
    hide Holds, AddStage;
    var e := stages[i];
    assert stages[..i + 1][..i] == stages[..i];
    var groups' := if e.requestId in contexts then groups[e.stage := AddStage(GroupAt(groups, e.stage), e)] else groups;
    forall n ensures Holds(GroupAt(groups', n), stages[..i + 1], contexts, n) {
      HoldsNext(GroupAt(groups, n), stages, i, contexts, n);
    }
  }

  lemma AllHoldNothing(contexts: Contexts)
    ensures AllHold(map[], [], [], contexts)
  {}

  method GroupStages(stages: seq<StageEvent>, contexts: Contexts)
    returns (groups: map<string, StageGroup>, names: seq<string>)
    ensures AllHold(groups, names, stages, contexts)
  {
    hide AllHold;
    groups, names := map[], [];
    assert stages[..0] == [];
    AllHoldNothing(contexts);
    for i := 0 to |stages|
      invariant AllHold(groups, names, stages[..i], contexts)
    {
      var e := stages[i];
      AllHoldNext(groups, names, stages, i, contexts);
      if e.requestId in contexts {
        var entry := GroupAt(groups, e.stage);
        entry := entry.(observed := AddInput(entry.observed, e));
        if e.completed {
          entry := entry.(completed := AddInput(entry.completed, e));
        } else {
          entry := entry.(partial := entry.partial + 1);
        }
        groups := groups[e.stage := entry];
        if e.stage !in names {
          names := names + [e.stage];
        }
      }
    }
    assert stages[..|stages|] == stages;
  }

  lemma {:induction false} GroupNormalized(g: Group, id: string)
    requires StagesNormalized(g.stages)
    ensures Normalized(Inputs(g, id))
    decreases |g.stages|
  {
    if g.stages != [] {
      GroupNormalized(g.(stages := g.stages[..|g.stages| - 1]), id);
    }
  }

  lemma PartsNext(g: Group, tailOnly: bool, ids: seq<string>, id: string)
    ensures Parts(g, tailOnly, ids + [id]) == Parts(g, tailOnly, ids) + [Part(g, tailOnly, id)]
    ensures SatSum(Parts(g, tailOnly, ids + [id])) == SatAdd(SatSum(Parts(g, tailOnly, ids)), Part(g, tailOnly, id))
  {
    assert (ids + [id])[..|ids|] == ids;
    var parts := Parts(g, tailOnly, ids) + [Part(g, tailOnly, id)];
    assert Parts(g, tailOnly, ids + [id]) == parts;
    assert parts[..|ids|] == Parts(g, tailOnly, ids);
  }

  /** Visits the hash map in whatever order it yields its entries. */
  method Summarize(g: Group, byRequest: map<string, seq<Input>>, partial: nat, totals: Totals) returns (s: Summary)
    requires StagesNormalized(g.stages) && Filed(byRequest, g)
    requires g.basis.ObservedLowerBound? ==> partial == PartialCount(g)
    ensures s == SummaryOf(g, totals)
  {
    hide Part, Parts, SatSum, Inputs, PartialCount, StagesNormalized;
    var perRequest: seq<u64> := [];
    var cumulative: u64, tailAttributed: u64 := 0, 0;
    var entries := byRequest.Keys;
    ghost var visited: seq<string> := [];
    NoParts(g);
    while entries != {}
      invariant entries <= byRequest.Keys
      invariant Distinct(visited)
      invariant forall id :: id in visited <==> id in byRequest && id !in entries
      invariant perRequest == Parts(g, false, visited)
      invariant cumulative == SatSum(perRequest)
      invariant tailAttributed == SatSum(Parts(g, true, visited))
      decreases |entries|
    {
      var id :| id in entries;
      entries := entries - {id};
      InputsOfKnown(g, id);
      GroupNormalized(g, id);
      assert Lookup(byRequest, id) == Inputs(g, id);
      var context := g.contexts[id];
      var attributed := AttributedElapsedDuration(byRequest[id], context.latencyUs);
      PartOf(g, id);
      PartsNext(g, false, visited, id);
      PartsNext(g, true, visited, id);
      perRequest := perRequest + [attributed.durationUs];
      cumulative := SatAdd(cumulative, attributed.durationUs);
      if context.isTail {
        tailAttributed := SatAdd(tailAttributed, attributed.durationUs);
      }
      visited := visited + [id];
    }
    MembersEnumerate(g);
    assert Enumerates(visited, g);
    SummaryIgnoresVisitingOrder(g, totals, visited, Members(g));
    s := Summary(g.basis, g.name, |perRequest|, OrZero(Percentile(perRequest, 95, 100)),
                 cumulative, Permille(cumulative, totals.all), tailAttributed, Permille(tailAttributed, totals.tail),
                 if g.basis.ObservedLowerBound? then partial else 0);
    PartsLength(g, visited);
  }

  lemma PartsLength(g: Group, ids: seq<string>)
    ensures |Parts(g, false, ids)| == |ids|
  {}

  lemma NoParts(g: Group)
    ensures Parts(g, false, []) == [] && SatSum([]) == 0 && SatSum(Parts(g, true, [])) == 0
  {}

  lemma PartOf(g: Group, id: string)
    requires id in g.contexts
    ensures var a := Attribute(Inputs(g, id), g.contexts[id].latencyUs).durationUs;
            Part(g, false, id) == a && Part(g, true, id) == if g.contexts[id].isTail then a else 0
  {}

  /** Both summaries of every named stage, in the order of the names. */
  ghost function SummariesFor(names: seq<string>, stages: seq<StageEvent>, contexts: Contexts,
                              totals: Totals): seq<Summary>
  {
    if names == [] then []
    else
      var n := names[|names| - 1];
      SummariesFor(names[..|names| - 1], stages, contexts, totals)
      + [SummaryOf(Group(stages, contexts, n, Completed), totals),
         SummaryOf(Group(stages, contexts, n, ObservedLowerBound), totals)]
  }

  ghost function DualSummaries(requests: seq<RequestEvent>, stages: seq<StageEvent>, p95: u64): seq<Summary>
  {
    var contexts := ContextsOf(requests, p95);
    SummariesFor(Sort(StageNames(stages, contexts), NameLe), stages, contexts, TotalsOf(requests, p95))
  }

  method DualStageSummaries(requests: seq<RequestEvent>, stages: seq<StageEvent>, p95: u64)
    returns (summaries: seq<Summary>)
    requires StagesNormalized(stages)
    ensures summaries == DualSummaries(requests, stages, p95)
  {
    hide StagesNormalized, Filed, PartialCount, SummaryOf;
    var contexts, totals := RequestContexts(requests, p95);
    var groups, stageNames := GroupStages(stages, contexts);
    SortPermutes(stageNames, NameLe);
    var names := Sort(stageNames, NameLe);
    summaries := [];
    for i := 0 to |names|
      invariant summaries == SummariesFor(names[..i], stages, contexts, totals)
    {
      var n := names[i];
      assert n in names && n in groups;
      assert Holds(GroupAt(groups, n), stages, contexts, n);
      var completed := Summarize(Group(stages, contexts, n, Completed), groups[n].completed, 0, totals);
      var observed := Summarize(Group(stages, contexts, n, ObservedLowerBound), groups[n].observed,
                                groups[n].partial, totals);
      assert names[..i + 1][..i] == names[..i];
      summaries := summaries + [completed, observed];
    }
    assert names[..|names|] == names;
  }

  // ----- the order of the events is immaterial

  lemma {:induction false} GroupAppend(g: Group, more: seq<StageEvent>, id: string)
    ensures var whole, rest := g.(stages := g.stages + more), g.(stages := more);
            && Inputs(whole, id) == Inputs(g, id) + Inputs(rest, id)
            && PartialCount(whole) == PartialCount(g) + PartialCount(rest)
    decreases |more|
  {
    if more == [] {
      assert g.stages + more == g.stages;
    } else {
      assert (g.stages + more)[..|g.stages + more| - 1] == g.stages + more[..|more| - 1];
      GroupAppend(g, more[..|more| - 1], id);
    }
  }

  lemma GroupWithout(g: Group, i: nat, id: string)
    requires i < |g.stages|
    ensures var less, one := g.(stages := Without(g.stages, i)), g.(stages := [g.stages[i]]);
            && multiset(Inputs(g, id)) == multiset(Inputs(less, id)) + multiset(Inputs(one, id))
            && PartialCount(g) == PartialCount(less) + PartialCount(one)
  {
    var l, x, r := g.stages[..i], [g.stages[i]], g.stages[i + 1..];
    hide Inputs, PartialCount, Without;
    Reassemble(g.stages, i);
    GroupAppend(g.(stages := l), x + r, id);
    GroupAppend(g.(stages := x), r, id);
    GroupAppend(g.(stages := l), r, id);
    MiddleOut(Inputs(g.(stages := l), id), Inputs(g.(stages := x), id), Inputs(g.(stages := r), id));
  }

  lemma {:induction false} GroupPermutes(a: Group, b: Group, id: string)
    requires multiset(a.stages) == multiset(b.stages) && b == a.(stages := b.stages)
    ensures multiset(Inputs(a, id)) == multiset(Inputs(b, id)) && PartialCount(a) == PartialCount(b)
    decreases |a.stages|
  {
    if a.stages == [] {
      assert |multiset(b.stages)| == 0;
      assert b.stages == [];
    } else {
      assert a.stages[0] in multiset(b.stages);
      var i :| 0 <= i < |b.stages| && b.stages[i] == a.stages[0];
      RemoveOne(a.stages, 0);
      RemoveOne(b.stages, i);
      GroupPermutes(a.(stages := Without(a.stages, 0)), b.(stages := Without(b.stages, i)), id);
      GroupWithout(a, 0, id);
      GroupWithout(b, i, id);
    }
  }

  lemma SummaryIgnoresEventOrder(a: Group, b: Group, totals: Totals)
    requires multiset(a.stages) == multiset(b.stages) && b == a.(stages := b.stages)
    ensures SummaryOf(a, totals) == SummaryOf(b, totals)
  {
    hide Inputs, PartialCount, Members;
    MembersEnumerate(a);
    MembersEnumerate(b);
    forall id ensures Inputs(a, id) != [] <==> Inputs(b, id) != [] {
      GroupPermutes(a, b, id);
      assert |multiset(Inputs(a, id))| == |Inputs(a, id)| && |multiset(Inputs(b, id))| == |Inputs(b, id)|;
    }
    forall id, tailOnly ensures Part(a, tailOnly, id) == Part(b, tailOnly, id) {
      GroupPermutes(a, b, id);
      if id in a.contexts {
        AttributionIgnoresOrder(Inputs(a, id), Inputs(b, id), a.contexts[id].latencyUs);
      }
    }
    GroupPermutes(a, b, "");
    SummaryIgnoresVisitingOrder(b, totals, Members(a), Members(b));
    assert Parts(a, false, Members(a)) == Parts(b, false, Members(a));
    assert Parts(a, true, Members(a)) == Parts(b, true, Members(a));
  }

  lemma {:induction false} NamesDistinct(stages: seq<StageEvent>, contexts: Contexts)
    ensures Distinct(StageNames(stages, contexts))
    ensures forall n :: n in StageNames(stages, contexts) <==>
                        exists e :: e in stages && e.stage == n && e.requestId in contexts
  {
    if stages != [] {
      var prior := stages[..|stages| - 1];
      NamesDistinct(prior, contexts);
      assert stages == prior + [stages[|stages| - 1]];
    }
  }

  lemma {:induction false} SummariesIgnoreEventOrder(
      names: seq<string>, a: seq<StageEvent>, b: seq<StageEvent>, contexts: Contexts, totals: Totals)
    requires multiset(a) == multiset(b)
    ensures SummariesFor(names, a, contexts, totals) == SummariesFor(names, b, contexts, totals)
    decreases |names|
  {
    hide SummaryOf;
    if names != [] {
      var n := names[|names| - 1];
      SummariesIgnoreEventOrder(names[..|names| - 1], a, b, contexts, totals);
      SummaryIgnoresEventOrder(Group(a, contexts, n, Completed), Group(b, contexts, n, Completed), totals);
      SummaryIgnoresEventOrder(Group(a, contexts, n, ObservedLowerBound),
                               Group(b, contexts, n, ObservedLowerBound), totals);
    }
  }

  /** Stage events in any order give the same list of summaries. */
  lemma DualSummariesIgnoreEventOrder(requests: seq<RequestEvent>, a: seq<StageEvent>, b: seq<StageEvent>, p95: u64)
    requires multiset(a) == multiset(b)
    ensures DualSummaries(requests, a, p95) == DualSummaries(requests, b, p95)
  {
    var contexts := ContextsOf(requests, p95);
    var x, y := StageNames(a, contexts), StageNames(b, contexts);
    NamesDistinct(a, contexts);
    NamesDistinct(b, contexts);
    SameElements(a, b);
    DistinctPermutation(x, y);
    NameOrder();
    SortOfPermutation(x, y, NameLe);
    SummariesIgnoreEventOrder(Sort(x, NameLe), a, b, contexts, TotalsOf(requests, p95));
  }

  // ----- observed summaries against completed summaries

  /** As for queue waits: where observing switches a request to durations, its completed durations
      add up to at least what their union attributed. */
  ghost predicate NoStageLoss(g: Group)
  {
    forall id :: id in g.contexts && HasGap(Inputs(g, id)) ==>
      DurationsCoverUnion(Inputs(g.(basis := Completed), id), g.contexts[id].latencyUs)
  }

  lemma {:induction false} CompletedInputsAmongObserved(g: Group, id: string)
    requires g.basis.ObservedLowerBound?
    ensures multiset(Inputs(g.(basis := Completed), id)) <= multiset(Inputs(g, id))
    decreases |g.stages|
  {
    if g.stages != [] {
      CompletedInputsAmongObserved(g.(stages := g.stages[..|g.stages| - 1]), id);
    }
  }

  lemma PartDominates(g: Group, tailOnly: bool, id: string)
    requires g.basis.ObservedLowerBound? && NoStageLoss(g)
    ensures Part(g.(basis := Completed), tailOnly, id) <= Part(g, tailOnly, id)
  {
    hide Inputs, DurationsCoverUnion, Attribute;
    if id in g.contexts {
      CompletedInputsAmongObserved(g, id);
      ObservedDominates(Inputs(g.(basis := Completed), id), Inputs(g, id), g.contexts[id].latencyUs);
    }
  }

  lemma CompletedMembersAmongObserved(g: Group)
    requires g.basis.ObservedLowerBound?
    ensures multiset(Members(g.(basis := Completed))) <= multiset(Members(g))
    ensures |Members(g.(basis := Completed))| <= |Members(g)|
  {
    hide Inputs, Members;
    var c := g.(basis := Completed);
    MembersEnumerate(g);
    MembersEnumerate(c);
    forall id ensures multiset(Members(c))[id] <= multiset(Members(g))[id] {
      DistinctMultiplicity(Members(c), id);
      DistinctMultiplicity(Members(g), id);
      CompletedInputsAmongObserved(g, id);
      assert Inputs(c, id) != [] ==>
             Inputs(c, id)[0] in multiset(Inputs(c, id)) && Inputs(c, id)[0] in multiset(Inputs(g, id));
    }
    assert |multiset(Members(c))| == |Members(c)| && |multiset(Members(g))| == |Members(g)|;
    SmallerMultiset(multiset(Members(c)), multiset(Members(g)));
  }

  lemma SmallerMultiset<T>(a: multiset<T>, b: multiset<T>)
    requires a <= b
    ensures |a| <= |b|
  {
    assert b == a + (b - a);
  }

  lemma PartsDominate(g: Group, tailOnly: bool)
    requires g.basis.ObservedLowerBound? && NoStageLoss(g)
    ensures var c := g.(basis := Completed);
            SatSum(Parts(c, tailOnly, Members(c))) <= SatSum(Parts(g, tailOnly, Members(g)))
  {
    hide Members, Part, NoStageLoss;
    var c := g.(basis := Completed);
    CompletedMembersAmongObserved(g);
    SumIncluded(Members(c), Members(g), id => Part(c, tailOnly, id));
    forall k | 0 <= k < |Members(g)| ensures Parts(c, tailOnly, Members(g))[k] <= Parts(g, tailOnly, Members(g))[k] {
      PartDominates(g, tailOnly, Members(g)[k]);
    }
    SumPointwise(Parts(c, tailOnly, Members(g)), Parts(g, tailOnly, Members(g)));
    SatSumIsExactOrMax(Parts(c, tailOnly, Members(c)));
    SatSumIsExactOrMax(Parts(g, tailOnly, Members(g)));
  }

  lemma PermilleMonotone(a: u64, b: u64, total: u64)
    requires a <= b
    ensures Permille(a, total) <= Permille(b, total)
  {
    if total > 0 {
      DivMonotone(SatMul(a, 1000), SatMul(b, 1000), total);
    }
  }

  /** Where no switch loses, a stage's observed summary has at least the samples, totals and shares of
      its completed summary. */
  lemma ObservedSummaryDominates(g: Group, totals: Totals)
    requires g.basis.ObservedLowerBound? && NoStageLoss(g)
    ensures var c, o := SummaryOf(g.(basis := Completed), totals), SummaryOf(g, totals);
            && c.requestSamples <= o.requestSamples
            && c.cumulativeUs <= o.cumulativeUs && c.tailUs <= o.tailUs
            && c.cumulativeShare <= o.cumulativeShare && c.tailShare <= o.tailShare
  {
    hide Members, Parts, NoStageLoss, Permille, SatSum;
    var c := g.(basis := Completed);
    CompletedMembersAmongObserved(g);
    PartsDominate(g, false);
    PartsDominate(g, true);
    PermilleMonotone(SatSum(Parts(c, false, Members(c))), SatSum(Parts(g, false, Members(g))), totals.all);
    PermilleMonotone(SatSum(Parts(c, true, Members(c))), SatSum(Parts(g, true, Members(g))), totals.tail);
    PartsLength(c, Members(c));
    PartsLength(g, Members(g));
  }

  // ----- without partial events the two summaries of a stage coincide

  lemma {:induction false} NoPartialSameGroup(g: Group, id: string)
    requires g.basis.ObservedLowerBound? && PartialCount(g) == 0
    ensures Inputs(g, id) == Inputs(g.(basis := Completed), id)
    ensures Members(g) == Members(g.(basis := Completed))
    decreases |g.stages|
  {
    if g.stages != [] {
      NoPartialSameGroup(g.(stages := g.stages[..|g.stages| - 1]), id);
    }
  }

  /** A stage without partial events has the same observed summary as completed summary. */
  lemma NoPartialNoDifferenceInSummary(g: Group, totals: Totals)
    requires g.basis.ObservedLowerBound? && PartialCount(g) == 0
    ensures SummaryOf(g, totals) == SummaryOf(g.(basis := Completed), totals).(basis := ObservedLowerBound)
  {
    var c := g.(basis := Completed);
    NoPartialSameGroup(g, "");
    forall id, tailOnly ensures Part(g, tailOnly, id) == Part(c, tailOnly, id) {
      NoPartialSameGroup(g, id);
    }
    assert Parts(g, false, Members(g)) == Parts(c, false, Members(c));
    assert Parts(g, true, Members(g)) == Parts(c, true, Members(c));
  }

  lemma {:induction false} PartialCountPositive(g: Group)
    ensures PartialCount(g) > 0 <==>
            exists e :: e in g.stages && !e.completed && e.stage == g.name && e.requestId in g.contexts
    decreases |g.stages|
  {
    if g.stages != [] {
      var prior := g.stages[..|g.stages| - 1];
      PartialCountPositive(g.(stages := prior));
      assert g.stages == prior + [g.stages[|g.stages| - 1]];
    }
  }
}
