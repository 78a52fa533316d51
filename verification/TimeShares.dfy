/** Permille of each request's latency spent in queues: from completed waits, from all observed
    waits including partial ones, and what is left as service time. */
module TimeShares {
  import opened Machine
  import opened Sorting
  import opened Events
  import opened Attribution
  import opened Percentiles

  datatype RequestTimeShares = RequestTimeShares(
    completedQueue: seq<u64>, observedQueue: seq<u64>, completedService: seq<u64>)

  function Zip(a: Option<u64>, b: Option<u64>): Option<Interval>
  {
    if a.Some? && b.Some? then Some(Interval(a.value, b.value)) else None
  }

  function QueueInput(q: QueueEvent): Input
  {
    Input(Zip(q.fromRunUs, q.untilRunUs), q.waitUs)
  }

  /** The waits of one request in recorded order. */
  function Inputs(queues: seq<QueueEvent>, id: string, completedOnly: bool): seq<Input>
  {
    if queues == [] then []
    else
      var q := queues[|queues| - 1];
      Inputs(queues[..|queues| - 1], id, completedOnly)
      + if q.requestId == id && (!completedOnly || q.completed) then [QueueInput(q)] else []
  }

  predicate QueuesNormalized(queues: seq<QueueEvent>)
  {
    forall q :: q in queues ==> NotInverted(QueueInput(q))
  }

  function Share(part: u64, whole: u64): (s: u64)
    requires whole > 0
    ensures s <= 1000
  {
    Min(SatMul(part, 1000) / whole, 1000)
  }

  ghost function Wait(queues: seq<QueueEvent>, r: RequestEvent, completedOnly: bool): (w: u64)
    ensures w <= r.latencyUs
  {
    Attribute(Inputs(queues, r.requestId, completedOnly), r.latencyUs).durationUs
  }

  /** Requests of zero latency contribute no sample. */
  ghost function QueueShares(requests: seq<RequestEvent>, queues: seq<QueueEvent>, completedOnly: bool): (s: seq<u64>)
  {
    if requests == [] then []
    else
      var r := requests[|requests| - 1];
      QueueShares(requests[..|requests| - 1], queues, completedOnly)
      + if r.latencyUs == 0 then [] else [Share(Wait(queues, r, completedOnly), r.latencyUs)]
  }

  ghost function ServiceShares(requests: seq<RequestEvent>, queues: seq<QueueEvent>): (s: seq<u64>)
  {
    if requests == [] then []
    else
      var r := requests[|requests| - 1];
      ServiceShares(requests[..|requests| - 1], queues)
      + if r.latencyUs == 0 then [] else [Share(r.latencyUs - Wait(queues, r, true), r.latencyUs)]
  }

  ghost function SharesOf(requests: seq<RequestEvent>, queues: seq<QueueEvent>): RequestTimeShares
  {
    RequestTimeShares(QueueShares(requests, queues, true), QueueShares(requests, queues, false),
                      ServiceShares(requests, queues))
  }

  // ----- the two passes of the source

  function Lookup(m: map<string, seq<Input>>, id: string): seq<Input>
  {
    if id in m then m[id] else []
  }

  function File(m: map<string, seq<Input>>, q: QueueEvent): map<string, seq<Input>>
  {
    m[q.requestId := Lookup(m, q.requestId) + [QueueInput(q)]]
  }

  ghost predicate Groups(m: map<string, seq<Input>>, queues: seq<QueueEvent>, completedOnly: bool)
  {
    forall id :: Lookup(m, id) == Inputs(queues, id, completedOnly)
  }

  lemma FileNext(m: map<string, seq<Input>>, queues: seq<QueueEvent>, i: nat, completedOnly: bool)
    requires i < |queues| && Groups(m, queues[..i], completedOnly)
    ensures Groups(if completedOnly && !queues[i].completed then m else File(m, queues[i]),
                   queues[..i + 1], completedOnly)
  {
    var upto := queues[..i + 1];
    assert upto[..|upto| - 1] == queues[..i] && upto[|upto| - 1] == queues[i];
    var m' := if completedOnly && !queues[i].completed then m else File(m, queues[i]);
    forall id ensures Lookup(m', id) == Inputs(upto, id, completedOnly) {
      assert Lookup(m, id) == Inputs(queues[..i], id, completedOnly);
    }
  }

  method GroupByRequest(queues: seq<QueueEvent>)
    returns (completed: map<string, seq<Input>>, observed: map<string, seq<Input>>)
    ensures Groups(completed, queues, true) && Groups(observed, queues, false)
  {
    hide Inputs;
    completed, observed := map[], map[];
    assert queues[..0] == [];
    NothingGrouped();
    for i := 0 to |queues|
      invariant Groups(completed, queues[..i], true) && Groups(observed, queues[..i], false)
    {
      hide Groups;
      var q := queues[i];
      FileNext(observed, queues, i, false);
      FileNext(completed, queues, i, true);
      observed := observed[q.requestId := Lookup(observed, q.requestId) + [QueueInput(q)]];
      if q.completed {
        completed := completed[q.requestId := Lookup(completed, q.requestId) + [QueueInput(q)]];
      }
    }
    assert queues[..|queues|] == queues;
  }

  lemma NothingGrouped()
    ensures Groups(map[], [], true) && Groups(map[], [], false)
  {}

  lemma {:induction false} InputsNormalized(queues: seq<QueueEvent>, id: string, completedOnly: bool)
    requires QueuesNormalized(queues)
    ensures Normalized(Inputs(queues, id, completedOnly))
  {
    if queues != [] {
      InputsNormalized(queues[..|queues| - 1], id, completedOnly);
    }
  }

  ghost function OneShare(queues: seq<QueueEvent>, r: RequestEvent, completedOnly: bool): seq<u64>
  {
    if r.latencyUs == 0 then [] else [Share(Wait(queues, r, completedOnly), r.latencyUs)]
  }

  ghost function OneServiceShare(queues: seq<QueueEvent>, r: RequestEvent): seq<u64>
  {
    if r.latencyUs == 0 then [] else [Share(r.latencyUs - Wait(queues, r, true), r.latencyUs)]
  }

  lemma SharesNext(requests: seq<RequestEvent>, i: nat, queues: seq<QueueEvent>)
    requires i < |requests|
    ensures forall c :: QueueShares(requests[..i + 1], queues, c) ==
                        QueueShares(requests[..i], queues, c) + OneShare(queues, requests[i], c)
    ensures ServiceShares(requests[..i + 1], queues) ==
            ServiceShares(requests[..i], queues) + OneServiceShare(queues, requests[i])
  {
    hide Share, Wait;
    var upto := requests[..i + 1];
    assert upto[..i] == requests[..i] && upto[i] == requests[i];
  }

  method ComputeRequestTimeShares(run: Run) returns (shares: RequestTimeShares)
    requires QueuesNormalized(run.queues)
    ensures shares == SharesOf(run.requests, run.queues)
  {
    hide Share, Inputs, Attribute, QueuesNormalized, Groups;
    var completedInputs, observedInputs := GroupByRequest(run.queues);
    var completedQueue: seq<u64>, observedQueue: seq<u64>, service: seq<u64> := [], [], [];
    assert run.requests[..0] == [];
    for i := 0 to |run.requests|
      invariant completedQueue == QueueShares(run.requests[..i], run.queues, true)
      invariant observedQueue == QueueShares(run.requests[..i], run.queues, false)
      invariant service == ServiceShares(run.requests[..i], run.queues)
    {
      hide QueueShares, ServiceShares;
      var r := run.requests[i];
      SharesNext(run.requests, i, run.queues);
      Looked(completedInputs, run.queues, true, r.requestId);
      Looked(observedInputs, run.queues, false, r.requestId);
      if r.latencyUs != 0 {
        InputsNormalized(run.queues, r.requestId, true);
        InputsNormalized(run.queues, r.requestId, false);
        var completed := AttributedElapsedDuration(Lookup(completedInputs, r.requestId), r.latencyUs);
        var observed := AttributedElapsedDuration(Lookup(observedInputs, r.requestId), r.latencyUs);
        WaitWithin(run.queues, r);
        completedQueue := completedQueue + [Share(completed.durationUs, r.latencyUs)];
        observedQueue := observedQueue + [Share(observed.durationUs, r.latencyUs)];
        service := service + [Share(SatSub(r.latencyUs, completed.durationUs), r.latencyUs)];
      }
    }
    assert run.requests[..|run.requests|] == run.requests;
    return RequestTimeShares(completedQueue, observedQueue, service);
  }

  lemma Looked(m: map<string, seq<Input>>, queues: seq<QueueEvent>, completedOnly: bool, id: string)
    requires Groups(m, queues, completedOnly)
    ensures Lookup(m, id) == Inputs(queues, id, completedOnly)
  {}

  lemma WaitWithin(queues: seq<QueueEvent>, r: RequestEvent)
    ensures Wait(queues, r, true) == Attribute(Inputs(queues, r.requestId, true), r.latencyUs).durationUs <= r.latencyUs
    ensures Wait(queues, r, false) == Attribute(Inputs(queues, r.requestId, false), r.latencyUs).durationUs
  {}

  // ----- laws

  lemma ShareMonotone(a: u64, b: u64, whole: u64)
    requires a <= b && whole > 0
    ensures Share(a, whole) <= Share(b, whole)
  {
    DivMonotone(SatMul(a, 1000), SatMul(b, 1000), whole);
  }

  lemma DivMonotone(a: nat, b: nat, d: nat)
    requires a <= b && d > 0
    ensures a / d <= b / d
  {
    var p, q := a / d, b / d;
    assert a == p * d + a % d && b == q * d + b % d;
    if p > q {
      MulMonotone(d, q + 1, p);
    }
  }

  /** Queue and service share split the request: together at most 1000, and at least 999 unless the
      latency is so long that a product saturates. */
  lemma SharesSplitLatency(wait: u64, latency: u64)
    requires 0 < latency && wait <= latency
    ensures Share(wait, latency) + Share(latency - wait, latency) <= 1000
    ensures latency * 1000 <= U64_MAX ==> Share(wait, latency) + Share(latency - wait, latency) >= 999
    ensures latency * 1000 <= U64_MAX ==>
              (Share(wait, latency) + Share(latency - wait, latency) == 1000 <==> wait * 1000 % latency == 0)
  {
    FloorsOfSplit(SatMul(wait, 1000), SatMul(latency - wait, 1000), latency);
  }

  lemma FloorsOfSplit(x: nat, y: nat, w: nat)
    requires w > 0 && x + y <= 1000 * w
    ensures x / w + y / w <= 1000
    ensures x + y == 1000 * w ==> x / w + y / w >= 999 && (x / w + y / w == 1000 <==> x % w == 0)
  {
    DivMod(x, w);
    DivMod(y, w);
    FloorSplit(x, y, w, x / w, y / w, x % w, y % w);
  }

  lemma DivMod(x: nat, w: nat)
    requires w > 0
    ensures x == x / w * w + x % w && x % w < w
  {}

  lemma FloorSplit(x: nat, y: nat, w: nat, p: nat, q: nat, restX: nat, restY: nat)
    requires w > 0 && x == p * w + restX && y == q * w + restY && restX < w && restY < w
    requires x + y <= 1000 * w
    ensures p + q <= 1000
    ensures x + y == 1000 * w ==> p + q >= 999 && (p + q == 1000 <==> restX == 0)
  {
    var t := p + q;
    assert t * w == p * w + q * w;
    if t > 1000 {
      MulMonotone(w, 1001, t);
    }
    if x + y == 1000 * w {
      var d := 1000 - t;
      assert d * w == restX + restY;
      if d >= 2 {
        MulMonotone(w, 2, d);
      }
    }
  }

  lemma {:induction false} InputsPermute(a: seq<QueueEvent>, b: seq<QueueEvent>, id: string, completedOnly: bool)
    requires multiset(a) == multiset(b)
    ensures multiset(Inputs(a, id, completedOnly)) == multiset(Inputs(b, id, completedOnly))
    decreases |a|
  {
    if a == [] {
      assert |multiset(b)| == 0;
    } else {
      assert a[0] in multiset(b);
      var i :| 0 <= i < |b| && b[i] == a[0];
      RemoveOne(a, 0);
      RemoveOne(b, i);
      InputsPermute(Without(a, 0), Without(b, i), id, completedOnly);
      InputsWithout(a, 0, id, completedOnly);
      InputsWithout(b, i, id, completedOnly);
    }
  }

  lemma {:induction false} InputsAppend(a: seq<QueueEvent>, b: seq<QueueEvent>, id: string, completedOnly: bool)
    ensures Inputs(a + b, id, completedOnly) == Inputs(a, id, completedOnly) + Inputs(b, id, completedOnly)
  {
    if b == [] {
      assert a + b == a;
    } else {
      assert (a + b)[..|a + b| - 1] == a + b[..|b| - 1];
      InputsAppend(a, b[..|b| - 1], id, completedOnly);
    }
  }

  lemma InputsWithout(s: seq<QueueEvent>, i: nat, id: string, completedOnly: bool)
    requires i < |s|
    ensures multiset(Inputs(s, id, completedOnly)) ==
            multiset(Inputs(Without(s, i), id, completedOnly)) + multiset(Inputs([s[i]], id, completedOnly))
  {
    hide Inputs, Without;
    Reassemble(s, i);
    InputsAppend(s[..i], [s[i]] + s[i + 1..], id, completedOnly);
    InputsAppend([s[i]], s[i + 1..], id, completedOnly);
    InputsAppend(s[..i], s[i + 1..], id, completedOnly);
    MiddleOut(Inputs(s[..i], id, completedOnly), Inputs([s[i]], id, completedOnly),
              Inputs(s[i + 1..], id, completedOnly));
  }

  /** Vector order is lock order, not clock order; the shares do not depend on it. */
  lemma {:induction false} SharesIgnoreQueueOrder(
      requests: seq<RequestEvent>, a: seq<QueueEvent>, b: seq<QueueEvent>, completedOnly: bool)
    requires multiset(a) == multiset(b)
    ensures QueueShares(requests, a, completedOnly) == QueueShares(requests, b, completedOnly)
    decreases |requests|
  {
    if requests != [] {
      var r := requests[|requests| - 1];
      SharesIgnoreQueueOrder(requests[..|requests| - 1], a, b, completedOnly);
      InputsPermute(a, b, r.requestId, completedOnly);
      AttributionIgnoresOrder(Inputs(a, r.requestId, completedOnly), Inputs(b, r.requestId, completedOnly),
                              r.latencyUs);
    }
  }

  // ----- observed shares against completed shares

  lemma {:induction false} CompletedAmongObserved(queues: seq<QueueEvent>, id: string)
    ensures multiset(Inputs(queues, id, true)) <= multiset(Inputs(queues, id, false))
    ensures (forall q :: q in queues ==> q.completed) ==> Inputs(queues, id, true) == Inputs(queues, id, false)
  {
    if queues != [] {
      CompletedAmongObserved(queues[..|queues| - 1], id);
    }
  }

  /** Wherever observing switches a request to approximate mode, its completed durations add up to
      at least what their union attributed. */
  ghost predicate NoLossOnSwitch(requests: seq<RequestEvent>, queues: seq<QueueEvent>)
  {
    forall r :: r in requests && HasGap(Inputs(queues, r.requestId, false)) ==>
      DurationsCoverUnion(Inputs(queues, r.requestId, true), r.latencyUs)
  }

  lemma {:induction false} ObservedSharesDominate(requests: seq<RequestEvent>, queues: seq<QueueEvent>)
    requires NoLossOnSwitch(requests, queues)
    ensures |QueueShares(requests, queues, true)| == |QueueShares(requests, queues, false)|
    ensures forall k :: 0 <= k < |QueueShares(requests, queues, true)| ==>
              QueueShares(requests, queues, true)[k] <= QueueShares(requests, queues, false)[k]
    decreases |requests|
  {
    hide Wait, Share, NoLossOnSwitch;
    if requests != [] {
      var prior, r := requests[..|requests| - 1], requests[|requests| - 1];
      assert requests == prior + [r];
      FewerLoseNothing(prior, r, queues);
      ObservedSharesDominate(prior, queues);
      ObservedWaitDominates(requests, queues, r);
      if r.latencyUs != 0 {
        ShareMonotone(Wait(queues, r, true), Wait(queues, r, false), r.latencyUs);
      }
    }
  }

  lemma FewerLoseNothing(prior: seq<RequestEvent>, r: RequestEvent, queues: seq<QueueEvent>)
    requires NoLossOnSwitch(prior + [r], queues)
    ensures NoLossOnSwitch(prior, queues)
  {
    hide HasGap, DurationsCoverUnion, Inputs;
    assert forall x :: x in prior ==> x in prior + [r];
  }

  lemma ObservedWaitDominates(requests: seq<RequestEvent>, queues: seq<QueueEvent>, r: RequestEvent)
    requires NoLossOnSwitch(requests, queues) && r in requests
    ensures Wait(queues, r, true) <= Wait(queues, r, false)
  {
    hide HasGap, DurationsCoverUnion, Inputs, Attribute;
    CompletedAmongObserved(queues, r.requestId);
    ObservedDominates(Inputs(queues, r.requestId, true), Inputs(queues, r.requestId, false), r.latencyUs);
  }

  /** The observed p95 share is at least the completed one, and exists exactly when it does. */
  lemma ObservedP95Dominates(requests: seq<RequestEvent>, queues: seq<QueueEvent>)
    requires NoLossOnSwitch(requests, queues)
    ensures var completed := Percentile(QueueShares(requests, queues, true), 95, 100);
            var observed := Percentile(QueueShares(requests, queues, false), 95, 100);
            (completed.Some? <==> observed.Some?) && (completed.Some? ==> completed.value <= observed.value)
  {
    ObservedSharesDominate(requests, queues);
    if QueueShares(requests, queues, true) != [] {
      PercentilePointwise(QueueShares(requests, queues, true), QueueShares(requests, queues, false), 95, 100);
    }
  }

  ghost predicate WaitsDominated(requests: seq<RequestEvent>, queues: seq<QueueEvent>)
  {
    forall r :: r in requests ==> Wait(queues, r, true) <= Wait(queues, r, false)
  }

  predicate AllPartial(queues: seq<QueueEvent>)
  {
    forall q :: q in queues ==> !q.completed
  }

  lemma {:induction false} PartialAddsNothingCompleted(partial: seq<QueueEvent>, id: string)
    requires AllPartial(partial)
    ensures Inputs(partial, id, true) == []
  {
    if partial != [] {
      PartialAddsNothingCompleted(partial[..|partial| - 1], id);
    }
  }

  /** A partial wait of a request that measured no time and carries no offsets. */
  function UntimedWait(r: RequestEvent): QueueEvent
  {
    QueueEvent(r.requestId, "queue", r.startedUnixMs, None, r.finishedUnixMs, None, 0, None, false)
  }

  /** Whatever partial events join the completed ones, no request's observed wait falls below its
      completed wait: exactly when each request's completed durations make up its union. */
  lemma WaitsDominatedExactly(requests: seq<RequestEvent>, completed: seq<QueueEvent>)
    requires forall q :: q in completed ==> q.completed
    ensures (forall partial :: AllPartial(partial) ==> WaitsDominated(requests, completed + partial))
            <==> (forall r :: r in requests ==> DurationsCoverUnion(Inputs(completed, r.requestId, true), r.latencyUs))
  {
    hide DurationsCoverUnion, Attribute, Inputs;
    if forall r :: r in requests ==> DurationsCoverUnion(Inputs(completed, r.requestId, true), r.latencyUs) {
      forall partial | AllPartial(partial) ensures WaitsDominated(requests, completed + partial) {
        forall r | r in requests ensures Wait(completed + partial, r, true) <= Wait(completed + partial, r, false) {
          InputsAppend(completed, partial, r.requestId, true);
          PartialAddsNothingCompleted(partial, r.requestId);
          assert Inputs(completed, r.requestId, true) + [] == Inputs(completed, r.requestId, true);
          CompletedAmongObserved(completed + partial, r.requestId);
          ObservedDominates(Inputs(completed, r.requestId, true), Inputs(completed + partial, r.requestId, false),
                            r.latencyUs);
        }
      }
    } else {
      var r :| r in requests && !DurationsCoverUnion(Inputs(completed, r.requestId, true), r.latencyUs);
      var partial := [UntimedWait(r)];
      SwitchLoses(completed, partial[0], r);
      assert AllPartial(partial) && !WaitsDominated(requests, completed + partial);
    }
  }

  lemma SwitchLoses(completed: seq<QueueEvent>, q: QueueEvent, r: RequestEvent)
    requires forall e :: e in completed ==> e.completed
    requires q.requestId == r.requestId && !q.completed && QueueInput(q) == Input(None, 0)
    requires !DurationsCoverUnion(Inputs(completed, r.requestId, true), r.latencyUs)
    ensures Wait(completed + [q], r, true) > Wait(completed + [q], r, false)
  {
    hide Attribute, DurationsCoverUnion, Inputs;
    var c := Inputs(completed, r.requestId, true);
    CompletedAmongObserved(completed, r.requestId);
    InputsAppend(completed, [q], r.requestId, true);
    InputsAppend(completed, [q], r.requestId, false);
    InputsOfOne(q);
    assert c + [] == c;
    GapLoses(c, r.latencyUs);
  }

  lemma InputsOfOne(q: QueueEvent)
    ensures Inputs([q], q.requestId, false) == [QueueInput(q)]
    ensures Inputs([q], q.requestId, true) == if q.completed then [QueueInput(q)] else []
  {
    assert [q][..0] == [];
  }

  /** The documented reading of a duration, no shorter than its interval, implies the guard. */
  lemma FaithfulDurationsNeverLose(requests: seq<RequestEvent>, queues: seq<QueueEvent>)
    requires forall q :: q in queues && q.completed ==> LengthWithin(QueueInput(q), 0)
    ensures NoLossOnSwitch(requests, queues)
  {
    forall r | r in requests && HasGap(Inputs(queues, r.requestId, false))
      ensures DurationsCoverUnion(Inputs(queues, r.requestId, true), r.latencyUs)
    {
      var completed := Inputs(queues, r.requestId, true);
      if !HasGap(completed) {
        InputsFaithful(queues, r.requestId, 0);
        LengthsBoundUnion(completed, 0);
      }
    }
  }

  lemma {:induction false} InputsFaithful(queues: seq<QueueEvent>, id: string, slack: nat)
    requires forall q :: q in queues && q.completed ==> LengthWithin(QueueInput(q), slack)
    ensures forall e :: e in Inputs(queues, id, true) ==> LengthWithin(e, slack)
  {
    if queues != [] {
      InputsFaithful(queues[..|queues| - 1], id, slack);
    }
  }

  /** A request loses at most the slack of each of its completed waits. */
  lemma WaitLossBounded(queues: seq<QueueEvent>, r: RequestEvent, slack: nat)
    requires forall q :: q in queues && q.completed ==> LengthWithin(QueueInput(q), slack)
    ensures Wait(queues, r, true) <= Wait(queues, r, false) + slack * |Inputs(queues, r.requestId, true)|
  {
    CompletedAmongObserved(queues, r.requestId);
    InputsFaithful(queues, r.requestId, slack);
    ObservedLossBounded(Inputs(queues, r.requestId, true), Inputs(queues, r.requestId, false), r.latencyUs, slack);
  }

  /** Without partial events there is nothing to lose or gain: both series coincide. */
  lemma {:induction false} NoPartialNoDifference(requests: seq<RequestEvent>, queues: seq<QueueEvent>)
    requires forall q :: q in queues ==> q.completed
    ensures QueueShares(requests, queues, true) == QueueShares(requests, queues, false)
  {
    if requests != [] {
      NoPartialNoDifference(requests[..|requests| - 1], queues);
      CompletedAmongObserved(queues, requests[|requests| - 1].requestId);
    }
  }
}
