/** Permissive normalization of a run: which events are kept, and which of their offsets. */
module Normalization {
  import opened Machine
  import opened Sorting
  import opened Events
  import Attribution
  import TimeShares
  import StageAttribution
  import Slicing
  import Temporal
  import Analysis

  const TOLERANCE_US := 2_000

  // ----- what a single event must satisfy

  predicate WhiteSpace(c: char)
  {
    '\U{9}' <= c <= '\U{D}' || c == ' ' || c == '\U{85}' || c == '\U{A0}' || c == '\U{1680}'
    || '\U{2000}' <= c <= '\U{200A}' || c == '\U{2028}' || c == '\U{2029}' || c == '\U{202F}'
    || c == '\U{205F}' || c == '\U{3000}'
  }

  predicate Blank(s: string) { forall c :: c in s ==> WhiteSpace(c) }

  predicate ValidRequest(r: RequestEvent)
  {
    !Blank(r.requestId) && !Blank(r.route) && !Blank(r.outcome) && r.startedUnixMs <= r.finishedUnixMs
  }

  predicate ValidStage(e: StageEvent)
  {
    !Blank(e.requestId) && !Blank(e.stage) && e.startedUnixMs <= e.finishedUnixMs
  }

  predicate ValidQueue(q: QueueEvent)
  {
    !Blank(q.requestId) && !Blank(q.queue) && q.fromUnixMs <= q.untilUnixMs
  }

  /** Offsets that are half missing, inverted, or further from the duration than the tolerance. */
  predicate BadOffsets(start: Option<u64>, end: Option<u64>, durationUs: u64)
  {
    match (start, end)
    case (None, None) => false
    case (Some(s), Some(e)) => e < s || e - s > durationUs + TOLERANCE_US || durationUs > e - s + TOLERANCE_US
    case _ => true
  }

  function ClearRequest(r: RequestEvent): RequestEvent
  {
    if BadOffsets(r.startedRunUs, r.finishedRunUs, r.latencyUs)
    then r.(startedRunUs := None, finishedRunUs := None)
    else r
  }

  function ClearStage(e: StageEvent): StageEvent
  {
    if BadOffsets(e.startedRunUs, e.finishedRunUs, e.latencyUs)
    then e.(startedRunUs := None, finishedRunUs := None)
    else e
  }

  function ClearQueue(q: QueueEvent): QueueEvent
  {
    if BadOffsets(q.fromRunUs, q.untilRunUs, q.waitUs) then q.(fromRunUs := None, untilRunUs := None) else q
  }

  function ClearWorkers(x: RuntimeSnapshot): RuntimeSnapshot
  {
    if x.workerCount == Some(0) then x.(workerCount := None) else x
  }

  // ----- requests: valid ones whose id no other valid request shares

  function ValidCount(requests: seq<RequestEvent>, id: string): nat
  {
    if requests == [] then 0
    else
      var r := requests[|requests| - 1];
      ValidCount(requests[..|requests| - 1], id) + if ValidRequest(r) && r.requestId == id then 1 else 0
  }

  function KeepRequest(requests: seq<RequestEvent>): RequestEvent -> bool
  {
    (r: RequestEvent) => ValidRequest(r) && ValidCount(requests, r.requestId) == 1
  }

  function Requests(requests: seq<RequestEvent>): seq<RequestEvent>
  {
    Map(Slicing.Retain(requests, KeepRequest(requests)), ClearRequest)
  }

  /** The last valid request of an id. */
  function FindValid(requests: seq<RequestEvent>, id: string): (r: RequestEvent)
    requires ValidCount(requests, id) > 0
    ensures r in requests && ValidRequest(r) && r.requestId == id
  {
    var r := requests[|requests| - 1];
    if ValidRequest(r) && r.requestId == id then r else FindValid(requests[..|requests| - 1], id)
  }

  // ----- children: their parent must be retained and, where both are precise, contain them

  function Precise(start: Option<u64>, end: Option<u64>): Option<Attribution.Interval>
  {
    TimeShares.Zip(start, end)
  }

  predicate Inside(child: Option<Attribution.Interval>, parent: Option<Attribution.Interval>)
  {
    child.Some? && parent.Some? ==> parent.value.start <= child.value.start && child.value.end <= parent.value.end
  }

  function ParentInterval(requests: seq<RequestEvent>, id: string): Option<Attribution.Interval>
    requires ValidCount(requests, id) > 0
  {
    var p := ClearRequest(FindValid(requests, id));
    Precise(p.startedRunUs, p.finishedRunUs)
  }

  predicate ChildKept(requests: seq<RequestEvent>, id: string, child: Option<Attribution.Interval>)
  {
    ValidCount(requests, id) == 1 && Inside(child, ParentInterval(requests, id))
  }

  function KeepStage(requests: seq<RequestEvent>): StageEvent -> bool
  {
    (e: StageEvent) =>
      ValidStage(e) &&
      ChildKept(requests, e.requestId, Precise(ClearStage(e).startedRunUs, ClearStage(e).finishedRunUs))
  }

  function KeepQueue(requests: seq<RequestEvent>): QueueEvent -> bool
  {
    (q: QueueEvent) =>
      ValidQueue(q) && ChildKept(requests, q.requestId, Precise(ClearQueue(q).fromRunUs, ClearQueue(q).untilRunUs))
  }

  function Stages(requests: seq<RequestEvent>, stages: seq<StageEvent>): seq<StageEvent>
  {
    Map(Slicing.Retain(stages, KeepStage(requests)), ClearStage)
  }

  function Queues(requests: seq<RequestEvent>, queues: seq<QueueEvent>): seq<QueueEvent>
  {
    Map(Slicing.Retain(queues, KeepQueue(requests)), ClearQueue)
  }

  function KeepGauge(x: InFlightSnapshot): bool { !Blank(x.gauge) }

  function Normalize(run: Run): Run
  {
    run.(requests := Requests(run.requests),
         stages := Stages(run.requests, run.stages),
         queues := Queues(run.requests, run.queues),
         inflight := Slicing.Retain(run.inflight, KeepGauge),
         runtime := Map(run.runtime, ClearWorkers))
  }

  // ----- the passes of the source

  datatype ParentState = UniqueRetained(interval: Option<Attribution.Interval>) | AmbiguousRetained | ExcludedOnly

  function CountIn(counts: map<string, nat>, id: string): nat
  {
    if id in counts then counts[id] else 0
  }

  ghost predicate Counted(counts: map<string, nat>, requests: seq<RequestEvent>)
  {
    forall id :: CountIn(counts, id) == ValidCount(requests, id)
  }

  lemma CountedNext(counts: map<string, nat>, requests: seq<RequestEvent>, i: nat)
    requires i < |requests| && Counted(counts, requests[..i])
    ensures var r := requests[i];
            Counted(if ValidRequest(r) then counts[r.requestId := CountIn(counts, r.requestId) + 1] else counts,
                    requests[..i + 1])
  {
    hide ValidRequest;
    var r, upto := requests[i], requests[..i + 1];
    assert upto[..i] == requests[..i] && upto[i] == r;
    var counts' := if ValidRequest(r) then counts[r.requestId := CountIn(counts, r.requestId) + 1] else counts;
    forall id ensures CountIn(counts', id) == ValidCount(upto, id) {
      assert CountIn(counts, id) == ValidCount(requests[..i], id);
    }
  }

  method CountValid(requests: seq<RequestEvent>) returns (counts: map<string, nat>)
    ensures Counted(counts, requests)
  {
    hide Counted, ValidRequest;
    counts := map[];
    assert requests[..0] == [];
    NothingCounted();
    for i := 0 to |requests|
      invariant Counted(counts, requests[..i])
    {
      CountedNext(counts, requests, i);
      if ValidRequest(requests[i]) {
        var id := requests[i].requestId;
        counts := counts[id := CountIn(counts, id) + 1];
      }
    }
    assert requests[..|requests|] == requests;
  }

  lemma NothingCounted()
    ensures Counted(map[], [])
  {}

  /** The state the source looks up for a child's request id. */
  ghost predicate States(states: map<string, ParentState>, requests: seq<RequestEvent>)
  {
    forall id :: StateIs(states, requests, id)
  }

  ghost predicate Named(requests: seq<RequestEvent>, id: string)
  {
    exists r :: r in requests && r.requestId == id
  }

  lemma NamedNext(requests: seq<RequestEvent>, i: nat)
    requires i < |requests|
    ensures forall id :: Named(requests[..i + 1], id) <==> Named(requests[..i], id) || requests[i].requestId == id
  {
    var r := requests[i];
    assert requests[..i + 1] == requests[..i] + [r];
    assert r in requests[..i + 1];
  }

  ghost predicate StateIs(states: map<string, ParentState>, requests: seq<RequestEvent>, id: string)
  {
    && (id in states <==> Named(requests, id))
    && (id in states ==>
          states[id] == if ValidCount(requests, id) > 1 then AmbiguousRetained
                        else if ValidCount(requests, id) == 1 then UniqueRetained(ParentInterval(requests, id))
                        else ExcludedOnly)
  }

  method RetainRequests(requests: seq<RequestEvent>, counts: map<string, nat>) returns (kept: seq<RequestEvent>)
    requires Counted(counts, requests)
    ensures kept == Requests(requests)
  {
    hide ValidRequest, ClearRequest, Slicing.Retain, ValidCount, Counted;
    kept := [];
    assert requests[..0] == [];
    RetainNothing(KeepRequest(requests));
    for i := 0 to |requests|
      invariant kept == Map(Slicing.Retain(requests[..i], KeepRequest(requests)), ClearRequest)
    {
      var r := requests[i];
      CountOf(counts, requests, r.requestId);
      Slicing.RetainNext(requests, i, KeepRequest(requests));
      MapNext(Slicing.Retain(requests[..i], KeepRequest(requests)), r, ClearRequest);
      if ValidRequest(r) && CountIn(counts, r.requestId) == 1 {
        kept := kept + [ClearRequest(r)];
      }
    }
    assert requests[..|requests|] == requests;
  }

  /** A later request of an id never demotes a retained one. */
  method BuildParentStates(requests: seq<RequestEvent>, counts: map<string, nat>)
    returns (states: map<string, ParentState>)
    requires Counted(counts, requests)
    ensures States(states, requests)
  {
    hide ValidRequest, ClearRequest, Precise, ValidCount, Counted, StatesSoFar;
    states := map[];
    NoStates(requests);
    for i := 0 to |requests|
      invariant StatesSoFar(states, requests, i)
    {
      var r := requests[i];
      CountOf(counts, requests, r.requestId);
      StatesNext(states, requests, i);
      if CountIn(counts, r.requestId) > 1 {
        states := states[r.requestId := AmbiguousRetained];
      } else if ValidRequest(r) {
        var p := ClearRequest(r);
        states := states[r.requestId := UniqueRetained(Precise(p.startedRunUs, p.finishedRunUs))];
      } else if r.requestId !in states {
        states := states[r.requestId := ExcludedOnly];
      }
    }
    StatesDone(states, requests);
  }

  lemma CountOf(counts: map<string, nat>, requests: seq<RequestEvent>, id: string)
    requires Counted(counts, requests)
    ensures CountIn(counts, id) == ValidCount(requests, id)
  {}

  lemma MapNext<A, B>(s: seq<A>, x: A, f: A -> B)
    ensures Map(s + [x], f) == Map(s, f) + [f(x)]
    ensures Map(s + [], f) == Map(s, f)
  {
    assert (s + [x])[..|s|] == s && s + [] == s;
  }

  /** The state of an id after the first `i` requests, of which one has that id. */
  ghost predicate StateSoFar(state: ParentState, requests: seq<RequestEvent>, i: nat, id: string)
    requires i <= |requests|
  {
    state == if ValidCount(requests, id) > 1 then AmbiguousRetained
             else if ValidCount(requests[..i], id) == 1 then UniqueRetained(ParentInterval(requests[..i], id))
             else ExcludedOnly
  }

  lemma {:induction false} CountGrows(requests: seq<RequestEvent>, i: nat, id: string)
    requires i <= |requests|
    ensures ValidCount(requests[..i], id) <= ValidCount(requests, id)
    decreases |requests|
  {
    if i < |requests| {
      CountGrows(requests[..|requests| - 1], i, id);
      assert requests[..|requests| - 1][..i] == requests[..i];
    } else {
      assert requests[..i] == requests;
    }
  }

  ghost predicate StatesSoFar(states: map<string, ParentState>, requests: seq<RequestEvent>, i: nat)
    requires i <= |requests|
  {
    && (forall id :: id in states <==> Named(requests[..i], id))
    && (forall id :: id in states ==> StateSoFar(states[id], requests, i, id))
  }

  lemma NoStates(requests: seq<RequestEvent>)
    ensures StatesSoFar(map[], requests, 0)
  {}

  function NextStates(states: map<string, ParentState>, r: RequestEvent, ambiguous: bool): map<string, ParentState>
  {
    if ambiguous then states[r.requestId := AmbiguousRetained]
    else if ValidRequest(r) then
      states[r.requestId := UniqueRetained(Precise(ClearRequest(r).startedRunUs, ClearRequest(r).finishedRunUs))]
    else if r.requestId !in states then states[r.requestId := ExcludedOnly]
    else states
  }

  lemma StatesNext(states: map<string, ParentState>, requests: seq<RequestEvent>, i: nat)
    requires i < |requests| && StatesSoFar(states, requests, i)
    ensures StatesSoFar(NextStates(states, requests[i], ValidCount(requests, requests[i].requestId) > 1),
                        requests, i + 1)
  {
    hide ValidRequest, ClearRequest, Precise, StateSoFar, ValidCount, Named;
    var r := requests[i];
    var next := NextStates(states, r, ValidCount(requests, r.requestId) > 1);
    NamedNext(requests, i);
    forall id | id in next ensures StateSoFar(next[id], requests, i + 1, id) {
      if id == r.requestId {
        StateMade(states, requests, i);
      } else {
        StateKept(states[id], requests, i, id);
      }
    }
  }

  lemma StateKept(state: ParentState, requests: seq<RequestEvent>, i: nat, id: string)
    requires i < |requests| && requests[i].requestId != id && StateSoFar(state, requests, i, id)
    ensures StateSoFar(state, requests, i + 1, id)
  {
    hide ValidRequest, ClearRequest, Precise;
    assert requests[..i + 1][..i] == requests[..i];
  }

  lemma StateMade(states: map<string, ParentState>, requests: seq<RequestEvent>, i: nat)
    requires i < |requests| && StatesSoFar(states, requests, i)
    ensures var id := requests[i].requestId;
            var next := NextStates(states, requests[i], ValidCount(requests, id) > 1);
            id in next && StateSoFar(next[id], requests, i + 1, id)
  {
    hide ValidRequest, ClearRequest, Precise;
    var r, upto := requests[i], requests[..i + 1];
    assert upto[..i] == requests[..i] && upto[i] == r;
    CountGrows(requests, i + 1, r.requestId);
    if r.requestId !in states {
      NoRequestNoCount(requests[..i], r.requestId);
    }
  }

  lemma StatesDone(states: map<string, ParentState>, requests: seq<RequestEvent>)
    requires StatesSoFar(states, requests, |requests|)
    ensures States(states, requests)
  {
    hide ValidCount, ParentInterval;
    assert requests[..|requests|] == requests;
    forall id ensures StateIs(states, requests, id) {}
  }

  method ChildPolicy(states: map<string, ParentState>, id: string, child: Option<Attribution.Interval>,
                     ghost requests: seq<RequestEvent>)
    returns (keep: bool)
    requires States(states, requests)
    ensures keep == ChildKept(requests, id, child)
  {
    hide States, ParentInterval, ValidCount;
    StateOf(states, requests, id);
    if id !in states {
      NoRequestNoCount(requests, id);
      return false;
    }
    match states[id] {
      case AmbiguousRetained => return false;
      case ExcludedOnly => return false;
      case UniqueRetained(interval) =>
        return !(child.Some? && interval.Some? &&
                 (child.value.start < interval.value.start || child.value.end > interval.value.end));
    }
  }

  lemma StateOf(states: map<string, ParentState>, requests: seq<RequestEvent>, id: string)
    requires States(states, requests)
    ensures StateIs(states, requests, id)
  {}

  lemma {:induction false} NoRequestNoCount(requests: seq<RequestEvent>, id: string)
    requires forall r :: r in requests ==> r.requestId != id
    ensures ValidCount(requests, id) == 0
  {
    if requests != [] {
      NoRequestNoCount(requests[..|requests| - 1], id);
    }
  }

  method NormalizeRunPermissive(run: Run) returns (normalized: Run)
    ensures normalized == Normalize(run)
  {
    hide ValidStage, ValidQueue, ClearStage, ClearQueue, ChildKept, Slicing.Retain, KeepGauge, ClearWorkers, Requests,
      States, Counted;
    normalized := run;
    var counts := CountValid(run.requests);
    var requests := RetainRequests(run.requests, counts);
    var states := BuildParentStates(run.requests, counts);
    normalized := normalized.(requests := requests);
    var stages := NormalizeStages(run.stages, states, run.requests);
    normalized := normalized.(stages := stages);
    var queues := NormalizeQueues(run.queues, states, run.requests);
    normalized := normalized.(queues := queues);
    normalized := normalized.(inflight := Slicing.Retain(run.inflight, KeepGauge));
    normalized := normalized.(runtime := Map(run.runtime, ClearWorkers));
  }

  method NormalizeStages(stages: seq<StageEvent>, states: map<string, ParentState>, ghost requests: seq<RequestEvent>)
    returns (kept: seq<StageEvent>)
    requires States(states, requests)
    ensures kept == Stages(requests, stages)
  {
    hide ValidStage, ClearStage, ChildKept, Slicing.Retain, States, Precise;
    kept := [];
    assert stages[..0] == [];
    RetainNothing(KeepStage(requests));
    for i := 0 to |stages|
      invariant kept == Map(Slicing.Retain(stages[..i], KeepStage(requests)), ClearStage)
    {
      var e := stages[i];
      var c := ClearStage(e);
      Slicing.RetainNext(stages, i, KeepStage(requests));
      MapNext(Slicing.Retain(stages[..i], KeepStage(requests)), e, ClearStage);
      var child := ChildPolicy(states, e.requestId, Precise(c.startedRunUs, c.finishedRunUs), requests);
      if ValidStage(e) && child {
        kept := kept + [c];
      }
    }
    assert stages[..|stages|] == stages;
  }

  method NormalizeQueues(queues: seq<QueueEvent>, states: map<string, ParentState>, ghost requests: seq<RequestEvent>)
    returns (kept: seq<QueueEvent>)
    requires States(states, requests)
    ensures kept == Queues(requests, queues)
  {
    hide ValidQueue, ClearQueue, ChildKept, Slicing.Retain, States, Precise;
    kept := [];
    assert queues[..0] == [];
    RetainNothing(KeepQueue(requests));
    for i := 0 to |queues|
      invariant kept == Map(Slicing.Retain(queues[..i], KeepQueue(requests)), ClearQueue)
    {
      var q := queues[i];
      var c := ClearQueue(q);
      Slicing.RetainNext(queues, i, KeepQueue(requests));
      MapNext(Slicing.Retain(queues[..i], KeepQueue(requests)), q, ClearQueue);
      var child := ChildPolicy(states, q.requestId, Precise(c.fromRunUs, c.untilRunUs), requests);
      if ValidQueue(q) && child {
        kept := kept + [c];
      }
    }
    assert queues[..|queues|] == queues;
  }

  lemma RetainNothing<T>(keep: T -> bool)
    ensures Slicing.Retain([], keep) == []
  {}

  // ----- laws

  lemma {:induction false} TwoValid(requests: seq<RequestEvent>, i: nat, j: nat)
    requires i < j < |requests| && requests[i].requestId == requests[j].requestId
    requires ValidRequest(requests[i]) && ValidRequest(requests[j])
    ensures ValidCount(requests, requests[i].requestId) >= 2
    decreases |requests|
  {
    hide ValidRequest;
    var n := |requests| - 1;
    if j < n {
      TwoValid(requests[..n], i, j);
    } else {
      OneValid(requests[..n], i);
    }
  }

  lemma {:induction false} OneValid(requests: seq<RequestEvent>, i: nat)
    requires i < |requests| && ValidRequest(requests[i])
    ensures ValidCount(requests, requests[i].requestId) >= 1
    decreases |requests|
  {
    hide ValidRequest;
    if i < |requests| - 1 {
      OneValid(requests[..|requests| - 1], i);
    }
  }

  lemma {:induction false} AtMostOneValid(requests: seq<RequestEvent>, id: string)
    requires Temporal.UniqueIds(requests)
    ensures ValidCount(requests, id) <= 1
  {
    hide ValidRequest;
    if requests != [] {
      var n := |requests| - 1;
      AtMostOneValid(requests[..n], id);
      if requests[n].requestId == id {
        forall r | r in requests[..n] ensures r.requestId != id {
          var i :| 0 <= i < n && requests[i] == r;
        }
        NoRequestNoCount(requests[..n], id);
      }
    }
  }

  /** A kept request, its offsets cleared or not. */
  lemma RequestsAre(requests: seq<RequestEvent>)
    ensures forall r :: r in requests && KeepRequest(requests)(r) ==> ClearRequest(r) in Requests(requests)
    ensures forall p :: p in Requests(requests) ==>
              exists r :: r in requests && KeepRequest(requests)(r) && p == ClearRequest(r)
  {
    hide ClearRequest, KeepRequest;
    var keep := KeepRequest(requests);
    var kept := Slicing.Retain(requests, keep);
    Slicing.RetainMembers(requests, keep);
    MapMembers(kept, ClearRequest);
  }

  lemma MapMembers<A, B>(s: seq<A>, f: A -> B)
    ensures forall x :: x in s ==> f(x) in Map(s, f)
    ensures forall y :: y in Map(s, f) ==> exists x :: x in s && y == f(x)
  {
    forall x | x in s ensures f(x) in Map(s, f) {
      var k :| 0 <= k < |s| && s[k] == x;
      assert Map(s, f)[k] == f(x);
    }
    forall y | y in Map(s, f) ensures exists x :: x in s && y == f(x) {
      var k :| 0 <= k < |s| && Map(s, f)[k] == y;
      assert s[k] in s && y == f(s[k]);
    }
  }

  lemma ClearKeeps(r: RequestEvent)
    ensures ClearRequest(r).requestId == r.requestId
    ensures ValidRequest(ClearRequest(r)) <==> ValidRequest(r)
    ensures ClearRequest(ClearRequest(r)) == ClearRequest(r)
  {}

  /** Retained request ids are unique. */
  lemma RequestIdsUnique(requests: seq<RequestEvent>)
    ensures Temporal.UniqueIds(Requests(requests))
  {
    hide ClearRequest, ValidRequest, ValidCount;
    var keep := KeepRequest(requests);
    var kept, ks := Slicing.Retain(requests, keep), Slicing.Kept(requests, keep);
    Slicing.RetainKeepsOrder(requests, keep);
    forall i, j | 0 <= i < j < |kept| ensures Requests(requests)[i].requestId != Requests(requests)[j].requestId {
      ClearKeeps(kept[i]);
      ClearKeeps(kept[j]);
      assert ks[i] in ks && ks[j] in ks;
      if kept[i].requestId == kept[j].requestId {
        TwoValid(requests, ks[i], ks[j]);
      }
    }
  }

  lemma RequestsValid(requests: seq<RequestEvent>)
    ensures forall p :: p in Requests(requests) ==> ValidRequest(p) && ClearRequest(p) == p
  {
    hide ClearRequest, ValidRequest, ValidCount, Requests;
    RequestsAre(requests);
    forall p | p in Requests(requests) ensures ValidRequest(p) && ClearRequest(p) == p {
      var r :| r in requests && KeepRequest(requests)(r) && p == ClearRequest(r);
      ClearKeeps(r);
    }
  }

  lemma {:induction false} RetainAll<T>(s: seq<T>, keep: T -> bool)
    requires forall x :: x in s ==> keep(x)
    ensures Slicing.Retain(s, keep) == s
  {
    if s != [] {
      RetainAll(s[..|s| - 1], keep);
      assert s == s[..|s| - 1] + [s[|s| - 1]];
    }
  }

  lemma MapSame<T>(s: seq<T>, f: T -> T)
    requires forall x :: x in s ==> f(x) == x
    ensures Map(s, f) == s
  {
    forall i | 0 <= i < |s| ensures Map(s, f)[i] == s[i] {
      assert s[i] in s;
    }
  }

  /** Valid requests with unique ids are left as they are. */
  lemma RequestsStay(requests: seq<RequestEvent>)
    requires Temporal.UniqueIds(requests) && forall p :: p in requests ==> ValidRequest(p) && ClearRequest(p) == p
    ensures Requests(requests) == requests
  {
    hide ClearRequest, ValidRequest, ValidCount;
    forall p | p in requests ensures KeepRequest(requests)(p) {
      var i :| 0 <= i < |requests| && requests[i] == p;
      OneValid(requests, i);
      AtMostOneValid(requests, p.requestId);
    }
    RetainAll(requests, KeepRequest(requests));
    MapSame(requests, ClearRequest);
  }

  /** One request with an id among valid requests with unique ids is the one found. */
  lemma FoundIs(requests: seq<RequestEvent>, p: RequestEvent)
    requires Temporal.UniqueIds(requests) && p in requests && ValidRequest(p)
    ensures ValidCount(requests, p.requestId) == 1 && FindValid(requests, p.requestId) == p
  {
    hide ValidRequest, ValidCount;
    var i :| 0 <= i < |requests| && requests[i] == p;
    OneValid(requests, i);
    AtMostOneValid(requests, p.requestId);
    Temporal.UniqueMeansDistinct(requests);
    hide FindValid;
    assert FindValid(requests, p.requestId) in requests;
  }

  /** Children find the same parent interval after normalization. */
  lemma ParentStays(requests: seq<RequestEvent>, id: string, child: Option<Attribution.Interval>)
    requires ChildKept(requests, id, child)
    ensures ChildKept(Requests(requests), id, child)
    ensures exists r :: r in Requests(requests) && r.requestId == id
  {
    hide ClearRequest, ValidRequest, ValidCount, Requests, FindValid, Precise;
    var r := FindValid(requests, id);
    var p := ClearRequest(r);
    RequestsAre(requests);
    ClearKeeps(r);
    assert p in Requests(requests);
    RequestIdsUnique(requests);
    FoundIs(Requests(requests), p);
  }

  lemma StagesAre(requests: seq<RequestEvent>, stages: seq<StageEvent>)
    ensures forall p :: p in Stages(requests, stages) ==>
              exists e :: e in stages && KeepStage(requests)(e) && p == ClearStage(e)
  {
    hide ClearStage, KeepStage;
    Slicing.RetainMembers(stages, KeepStage(requests));
    MapMembers(Slicing.Retain(stages, KeepStage(requests)), ClearStage);
  }

  lemma QueuesAre(requests: seq<RequestEvent>, queues: seq<QueueEvent>)
    ensures forall p :: p in Queues(requests, queues) ==>
              exists q :: q in queues && KeepQueue(requests)(q) && p == ClearQueue(q)
  {
    hide ClearQueue, KeepQueue;
    Slicing.RetainMembers(queues, KeepQueue(requests));
    MapMembers(Slicing.Retain(queues, KeepQueue(requests)), ClearQueue);
  }

  lemma ClearStageKeeps(e: StageEvent)
    ensures ClearStage(ClearStage(e)) == ClearStage(e) && ClearStage(e).requestId == e.requestId
    ensures ValidStage(ClearStage(e)) <==> ValidStage(e)
    ensures Attribution.NotInverted(StageAttribution.StageInput(ClearStage(e)))
  {}

  lemma ClearQueueKeeps(q: QueueEvent)
    ensures ClearQueue(ClearQueue(q)) == ClearQueue(q) && ClearQueue(q).requestId == q.requestId
    ensures ValidQueue(ClearQueue(q)) <==> ValidQueue(q)
    ensures Attribution.NotInverted(TimeShares.QueueInput(ClearQueue(q)))
  {}

  /** What is kept would be kept again, unchanged, among the requests that were kept. */
  lemma StagesStay(requests: seq<RequestEvent>, stages: seq<StageEvent>)
    ensures forall p :: p in Stages(requests, stages) ==>
              && ClearStage(p) == p && KeepStage(Requests(requests))(p)
              && Attribution.NotInverted(StageAttribution.StageInput(p))
              && exists r :: r in Requests(requests) && r.requestId == p.requestId
  {
    hide ClearStage, ValidStage, ChildKept, Requests, Stages, Precise, Attribution.NotInverted;
    StagesAre(requests, stages);
    forall p | p in Stages(requests, stages)
      ensures ClearStage(p) == p && KeepStage(Requests(requests))(p)
              && Attribution.NotInverted(StageAttribution.StageInput(p))
              && exists r :: r in Requests(requests) && r.requestId == p.requestId
    {
      var e :| e in stages && KeepStage(requests)(e) && p == ClearStage(e);
      ClearStageKeeps(e);
      ParentStays(requests, e.requestId, Precise(p.startedRunUs, p.finishedRunUs));
    }
  }

  lemma QueuesStay(requests: seq<RequestEvent>, queues: seq<QueueEvent>)
    ensures forall p :: p in Queues(requests, queues) ==>
              && ClearQueue(p) == p && KeepQueue(Requests(requests))(p)
              && Attribution.NotInverted(TimeShares.QueueInput(p))
              && exists r :: r in Requests(requests) && r.requestId == p.requestId
  {
    hide ClearQueue, ValidQueue, ChildKept, Requests, Queues, Precise, Attribution.NotInverted;
    QueuesAre(requests, queues);
    forall p | p in Queues(requests, queues)
      ensures ClearQueue(p) == p && KeepQueue(Requests(requests))(p)
              && Attribution.NotInverted(TimeShares.QueueInput(p))
              && exists r :: r in Requests(requests) && r.requestId == p.requestId
    {
      var q :| q in queues && KeepQueue(requests)(q) && p == ClearQueue(q);
      ClearQueueKeeps(q);
      ParentStays(requests, q.requestId, Precise(p.fromRunUs, p.untilRunUs));
    }
  }

  /** Normalizing a normalized run changes nothing. */
  lemma NormalizeIsIdempotent(run: Run)
    ensures Normalize(Normalize(run)) == Normalize(run)
  {
    hide Requests, KeepStage, KeepQueue, ClearStage, ClearQueue, ClearRequest, ValidRequest, KeepGauge;
    var requests := Requests(run.requests);
    RequestIdsUnique(run.requests);
    RequestsValid(run.requests);
    RequestsStay(requests);
    StagesStay(run.requests, run.stages);
    RetainAll(Stages(run.requests, run.stages), KeepStage(requests));
    MapSame(Stages(run.requests, run.stages), ClearStage);
    QueuesStay(run.requests, run.queues);
    RetainAll(Queues(run.requests, run.queues), KeepQueue(requests));
    MapSame(Queues(run.requests, run.queues), ClearQueue);
    Slicing.RetainMembers(run.inflight, KeepGauge);
    RetainAll(Slicing.Retain(run.inflight, KeepGauge), KeepGauge);
    MapMembers(run.runtime, ClearWorkers);
    MapSame(Map(run.runtime, ClearWorkers), ClearWorkers);
  }

  /** A run the analyzer can receive: normalization leaves it as it is. */
  ghost predicate NormalRun(run: Run) { Normalize(run) == run }

  ghost predicate KeptAsIs(run: Run)
  {
    && Temporal.UniqueIds(run.requests)
    && (forall r :: r in run.requests ==> ValidRequest(r) && ClearRequest(r) == r)
    && (forall e :: e in run.stages ==> KeepStage(run.requests)(e) && ClearStage(e) == e)
    && (forall q :: q in run.queues ==> KeepQueue(run.requests)(q) && ClearQueue(q) == q)
    && (forall x :: x in run.inflight ==> KeepGauge(x))
    && (forall x :: x in run.runtime ==> ClearWorkers(x) == x)
  }

  /** The analyzer can receive exactly the runs of which every event is kept as it is. */
  lemma NormalMeansKeptAsIs(run: Run)
    ensures NormalRun(run) <==> KeptAsIs(run)
  {
    hide KeepStage, KeepQueue, ClearStage, ClearQueue, ClearRequest, ValidRequest, KeepGauge, ClearWorkers;
    if KeptAsIs(run) {
      RequestsStay(run.requests);
      RetainAll(run.stages, KeepStage(run.requests));
      MapSame(run.stages, ClearStage);
      RetainAll(run.queues, KeepQueue(run.requests));
      MapSame(run.queues, ClearQueue);
      RetainAll(run.inflight, KeepGauge);
      MapSame(run.runtime, ClearWorkers);
    }
    if NormalRun(run) {
      RequestIdsUnique(run.requests);
      RequestsValid(run.requests);
      StagesStay(run.requests, run.stages);
      QueuesStay(run.requests, run.queues);
      Slicing.RetainMembers(run.inflight, KeepGauge);
      WorkersStay(run.runtime);
    }
  }

  lemma WorkersStay(runtime: seq<RuntimeSnapshot>)
    ensures forall x :: x in Map(runtime, ClearWorkers) ==> ClearWorkers(x) == x
  {
    MapMembers(runtime, ClearWorkers);
  }

  /** A normalized run meets every precondition of the analysis and of the temporal split. */
  lemma NormalizeMeetsPreconditions(run: Run)
    ensures var n := Normalize(run);
            && Analysis.RunNormalized(n)
            && Temporal.UniqueIds(n.requests)
            && (forall e :: e in n.stages ==> e.requestId in Temporal.IdSet(n.requests))
            && (forall q :: q in n.queues ==> q.requestId in Temporal.IdSet(n.requests))
            && (forall x :: x in n.runtime ==> x.workerCount != Some(0))
  {
    hide Requests, Stages, Queues, KeepStage, KeepQueue, ClearStage, ClearQueue, Attribution.NotInverted, KeepGauge;
    RequestIdsUnique(run.requests);
    StagesStay(run.requests, run.stages);
    QueuesStay(run.requests, run.queues);
    MapMembers(run.runtime, ClearWorkers);
  }

  /** The tolerance is all that observing partial waits can take from a request of a normalized run. */
  lemma ToleranceBoundsLoss(run: Run, r: RequestEvent)
    ensures var queues := Normalize(run).queues;
            TimeShares.Wait(queues, r, true)
            <= TimeShares.Wait(queues, r, false) + TOLERANCE_US * |TimeShares.Inputs(queues, r.requestId, true)|
  {
    hide Queues, KeepQueue, ClearQueue;
    QueuesAre(run.requests, run.queues);
    forall p | p in Normalize(run).queues ensures Attribution.LengthWithin(TimeShares.QueueInput(p), TOLERANCE_US) {
      var q :| q in run.queues && KeepQueue(run.requests)(q) && p == ClearQueue(q);
      ClearQueueTolerates(q);
    }
    TimeShares.WaitLossBounded(Normalize(run).queues, r, TOLERANCE_US);
  }

  lemma ClearQueueTolerates(q: QueueEvent)
    ensures Attribution.LengthWithin(TimeShares.QueueInput(ClearQueue(q)), TOLERANCE_US)
  {}

  /** Cutting a normalized run by request ids needs no further repair of requests and children. */
  lemma SliceStaysNormalized(run: Run, samples: Run, ids: set<string>, policy: Slicing.GlobalEvidencePolicy)
    ensures var sliced := Slicing.Sliced(Normalize(run), samples, ids, policy);
            && Normalize(sliced).requests == sliced.requests
            && Normalize(sliced).stages == sliced.stages
            && Normalize(sliced).queues == sliced.queues
  {
    hide Requests, Stages, Queues, KeepStage, KeepQueue, ClearStage, ClearQueue, ClearRequest, ValidRequest,
      Attribution.NotInverted, KeepGauge, ClearWorkers;
    var n := Normalize(run);
    var sliced := Slicing.Sliced(n, samples, ids, policy);
    RequestIdsUnique(run.requests);
    RequestsValid(run.requests);
    SliceIdsUnique(n.requests, ids);
    Slicing.RetainMembers(n.requests, Slicing.OfRequests(ids));
    RequestsStay(sliced.requests);
    StagesStay(run.requests, run.stages);
    QueuesStay(run.requests, run.queues);
    SlicedStagesStay(n, sliced.requests, ids);
    SlicedQueuesStay(n, sliced.requests, ids);
  }

  lemma SliceIdsUnique(requests: seq<RequestEvent>, ids: set<string>)
    requires Temporal.UniqueIds(requests)
    ensures Temporal.UniqueIds(Slicing.Retain(requests, Slicing.OfRequests(ids)))
  {
    var keep := Slicing.OfRequests(ids);
    Slicing.RetainKeepsOrder(requests, keep);
    var kept, ks := Slicing.Retain(requests, keep), Slicing.Kept(requests, keep);
    forall i, j | 0 <= i < j < |kept| ensures kept[i].requestId != kept[j].requestId {
      assert kept[i] == requests[ks[i]] && kept[j] == requests[ks[j]];
    }
  }

  lemma ChildStays(requests: seq<RequestEvent>, some: seq<RequestEvent>, ids: set<string>, id: string,
                   child: Option<Attribution.Interval>)
    requires some == Slicing.Retain(requests, Slicing.OfRequests(ids)) && Temporal.UniqueIds(requests) && id in ids
    requires ChildKept(requests, id, child)
    ensures ChildKept(some, id, child)
  {
    hide ClearRequest, ValidRequest, ValidCount, FindValid, Precise;
    var r := FindValid(requests, id);
    Slicing.RetainMembers(requests, Slicing.OfRequests(ids));
    SliceIdsUnique(requests, ids);
    FoundIs(some, r);
  }

  lemma SlicedStagesStay(n: Run, some: seq<RequestEvent>, ids: set<string>)
    requires some == Slicing.Retain(n.requests, Slicing.OfRequests(ids)) && Temporal.UniqueIds(n.requests)
    requires forall e :: e in n.stages ==> ClearStage(e) == e && KeepStage(n.requests)(e)
    ensures Stages(some, Slicing.Retain(n.stages, Slicing.StagesOf(ids))) ==
            Slicing.Retain(n.stages, Slicing.StagesOf(ids))
  {
    hide ClearStage, ValidStage, ChildKept, Precise;
    var kept := Slicing.Retain(n.stages, Slicing.StagesOf(ids));
    Slicing.RetainMembers(n.stages, Slicing.StagesOf(ids));
    forall e | e in kept ensures KeepStage(some)(e) {
      ChildStays(n.requests, some, ids, e.requestId, Precise(ClearStage(e).startedRunUs, ClearStage(e).finishedRunUs));
    }
    RetainAll(kept, KeepStage(some));
    MapSame(kept, ClearStage);
  }

  lemma SlicedQueuesStay(n: Run, some: seq<RequestEvent>, ids: set<string>)
    requires some == Slicing.Retain(n.requests, Slicing.OfRequests(ids)) && Temporal.UniqueIds(n.requests)
    requires forall q :: q in n.queues ==> ClearQueue(q) == q && KeepQueue(n.requests)(q)
    ensures Queues(some, Slicing.Retain(n.queues, Slicing.QueuesOf(ids))) ==
            Slicing.Retain(n.queues, Slicing.QueuesOf(ids))
  {
    hide ClearQueue, ValidQueue, ChildKept, Precise;
    var kept := Slicing.Retain(n.queues, Slicing.QueuesOf(ids));
    Slicing.RetainMembers(n.queues, Slicing.QueuesOf(ids));
    forall q | q in kept ensures KeepQueue(some)(q) {
      ChildStays(n.requests, some, ids, q.requestId, Precise(ClearQueue(q).fromRunUs, ClearQueue(q).untilRunUs));
    }
    RetainAll(kept, KeepQueue(some));
    MapSame(kept, ClearQueue);
  }
}
