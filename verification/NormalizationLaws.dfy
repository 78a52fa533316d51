/** Which events survive normalization and with which offsets, said event by event. */
module NormalizationLaws {
  import opened Machine
  import opened Sorting
  import opened Events
  import opened Normalization
  import Slicing
  import TimeShares

  /** A string with a character that is not white space. */
  predicate HasText(s: string)
  {
    exists c :: c in s && !WhiteSpace(c)
  }

  /** The white space of the Unicode standard. */
  lemma WhiteSpaceExactly(c: char)
    ensures WhiteSpace(c) <==>
              c in {'\U{9}', '\U{A}', '\U{B}', '\U{C}', '\U{D}', '\U{20}', '\U{85}', '\U{A0}', '\U{1680}', '\U{2000}',
                    '\U{2001}', '\U{2002}', '\U{2003}', '\U{2004}', '\U{2005}', '\U{2006}', '\U{2007}', '\U{2008}',
                    '\U{2009}', '\U{200A}', '\U{2028}', '\U{2029}', '\U{202F}', '\U{205F}', '\U{3000}'}
  {}

  // ----- offsets

  /** Both offsets are there, in order, and no more than 2000 us from the duration apart. */
  predicate Coherent(start: Option<u64>, end: Option<u64>, durationUs: u64)
  {
    && start.Some? && end.Some? && start.value <= end.value
    && end.value - start.value <= durationUs + 2_000 && durationUs <= end.value - start.value + 2_000
  }

  /** Coherent offsets stay, all others are cleared, and nothing else changes. */
  lemma OffsetsExactly(r: RequestEvent, e: StageEvent, q: QueueEvent)
    ensures ClearRequest(r) == if Coherent(r.startedRunUs, r.finishedRunUs, r.latencyUs) then r
                               else r.(startedRunUs := None, finishedRunUs := None)
    ensures ClearStage(e) == if Coherent(e.startedRunUs, e.finishedRunUs, e.latencyUs) then e
                             else e.(startedRunUs := None, finishedRunUs := None)
    ensures ClearQueue(q) == if Coherent(q.fromRunUs, q.untilRunUs, q.waitUs) then q
                             else q.(fromRunUs := None, untilRunUs := None)
  {}

  // ----- requests

  predicate Sound(r: RequestEvent)
  {
    HasText(r.requestId) && HasText(r.route) && HasText(r.outcome) && r.startedUnixMs <= r.finishedUnixMs
  }

  /** The one sound request under an id. */
  ghost predicate OnlyOne(requests: seq<RequestEvent>, id: string, i: int)
  {
    && 0 <= i < |requests| && Sound(requests[i]) && requests[i].requestId == id
    && forall j :: 0 <= j < |requests| && j != i && Sound(requests[j]) ==> requests[j].requestId != id
  }

  lemma {:induction false} CountsSound(requests: seq<RequestEvent>, id: string)
    ensures ValidCount(requests, id) == 0 <==>
              forall j :: 0 <= j < |requests| && Sound(requests[j]) ==> requests[j].requestId != id
    ensures ValidCount(requests, id) == 1 <==> exists i :: OnlyOne(requests, id, i)
    ensures ValidCount(requests, id) == 1 ==>
              exists i :: OnlyOne(requests, id, i) && FindValid(requests, id) == requests[i]
  {
    if requests != [] {
      var n := |requests| - 1;
      var prior, r := requests[..n], requests[n];
      CountsSound(prior, id);
      SoundIsValid(r);
      hide Sound, ValidRequest;
      if Sound(r) && r.requestId == id {
        if ValidCount(prior, id) == 0 {
          forall j | 0 <= j < n && Sound(requests[j]) ensures requests[j].requestId != id {
            assert prior[j] == requests[j];
          }
          assert OnlyOne(requests, id, n);
        } else {
          var j :| 0 <= j < n && Sound(prior[j]) && prior[j].requestId == id;
          assert requests[j] == prior[j] && Sound(requests[n]) && requests[n].requestId == id;
          forall i ensures !OnlyOne(requests, id, i) {}
        }
      } else {
        forall i ensures OnlyOne(requests, id, i) <==> OnlyOne(prior, id, i) {
          OnlyOneBefore(requests, id, i);
        }
        forall j | 0 <= j < |requests| && Sound(requests[j]) && requests[j].requestId == id
          ensures j < n && prior[j] == requests[j]
        {}
      }
    }
  }

  lemma OnlyOneBefore(requests: seq<RequestEvent>, id: string, i: int)
    requires requests != [] && !(Sound(requests[|requests| - 1]) && requests[|requests| - 1].requestId == id)
    ensures OnlyOne(requests, id, i) <==> OnlyOne(requests[..|requests| - 1], id, i)
  {
    hide Sound;
  }

  lemma SoundIsValid(r: RequestEvent)
    ensures ValidRequest(r) <==> Sound(r)
  {}

  /** A request survives exactly when it is sound and no other sound request has its id; the survivors
      keep their order, with their offsets repaired. */
  lemma RequestsExactly(requests: seq<RequestEvent>) returns (ks: seq<int>)
    ensures forall i, j :: 0 <= i < j < |ks| ==> ks[i] < ks[j]
    ensures forall k :: k in ks <==> 0 <= k < |requests| && OnlyOne(requests, requests[k].requestId, k)
    ensures |Requests(requests)| == |ks|
    ensures forall j :: 0 <= j < |ks| ==>
              0 <= ks[j] < |requests| && Requests(requests)[j] == ClearRequest(requests[ks[j]])
  {
    hide ValidRequest, Sound, ValidCount, ClearRequest;
    var keep := KeepRequest(requests);
    Slicing.RetainKeepsOrder(requests, keep);
    ks := Slicing.Kept(requests, keep);
    forall k | 0 <= k < |requests| ensures keep(requests[k]) <==> OnlyOne(requests, requests[k].requestId, k) {
      SoundIsValid(requests[k]);
      CountsSound(requests, requests[k].requestId);
      if i :| OnlyOne(requests, requests[k].requestId, i) {
        assert Sound(requests[k]) ==> k == i;
      }
    }
  }

  // ----- children

  predicate SoundStage(e: StageEvent)
  {
    HasText(e.requestId) && HasText(e.stage) && e.startedUnixMs <= e.finishedUnixMs
  }

  predicate SoundQueue(q: QueueEvent)
  {
    HasText(q.requestId) && HasText(q.queue) && q.fromUnixMs <= q.untilUnixMs
  }

  /** A parent contains a child unless both have coherent offsets and the child's reach outside. */
  predicate Contains(p: RequestEvent, start: Option<u64>, end: Option<u64>, durationUs: u64)
  {
    Coherent(p.startedRunUs, p.finishedRunUs, p.latencyUs) && Coherent(start, end, durationUs) ==>
      p.startedRunUs.value <= start.value && end.value <= p.finishedRunUs.value
  }

  /** A stage or queue event survives exactly when it is sound itself, exactly one sound request has its
      id, and that request contains it. */
  lemma ChildrenExactly(requests: seq<RequestEvent>, e: StageEvent, q: QueueEvent)
    ensures KeepStage(requests)(e) <==>
              && SoundStage(e)
              && exists i :: OnlyOne(requests, e.requestId, i)
                             && Contains(requests[i], e.startedRunUs, e.finishedRunUs, e.latencyUs)
    ensures KeepQueue(requests)(q) <==>
              && SoundQueue(q)
              && exists i :: OnlyOne(requests, q.requestId, i)
                             && Contains(requests[i], q.fromRunUs, q.untilRunUs, q.waitUs)
  {
    ChildSound(e, q);
    CountsSound(requests, e.requestId);
    CountsSound(requests, q.requestId);
    hide Sound, ValidCount, FindValid, ValidRequest, ValidStage, ValidQueue, SoundStage, SoundQueue;
    if ValidCount(requests, e.requestId) == 1 {
      var i :| OnlyOne(requests, e.requestId, i) && FindValid(requests, e.requestId) == requests[i];
      OffsetsExactly(requests[i], e, q);
      OneOnly(requests, e.requestId, i);
    }
    if ValidCount(requests, q.requestId) == 1 {
      var i :| OnlyOne(requests, q.requestId, i) && FindValid(requests, q.requestId) == requests[i];
      OffsetsExactly(requests[i], e, q);
      OneOnly(requests, q.requestId, i);
    }
  }

  lemma OneOnly(requests: seq<RequestEvent>, id: string, i: int)
    requires OnlyOne(requests, id, i)
    ensures forall j :: OnlyOne(requests, id, j) ==> j == i
  {
    hide Sound;
  }

  lemma ChildSound(e: StageEvent, q: QueueEvent)
    ensures (ValidStage(e) <==> SoundStage(e)) && (ValidQueue(q) <==> SoundQueue(q))
  {}

  /** The whole run: the surviving requests, stages and queues in order and repaired, the in-flight
      samples of named gauges, every runtime snapshot with a worker count of zero cleared; and nothing of
      the metadata or the truncation counters touched. */
  lemma NormalizeExactly(run: Run)
    ensures var n := Normalize(run);
            && n.metadata == run.metadata && n.truncation == run.truncation
            && n.requests == Requests(run.requests)
            && n.stages == Map(Slicing.Retain(run.stages, KeepStage(run.requests)), ClearStage)
            && n.queues == Map(Slicing.Retain(run.queues, KeepQueue(run.requests)), ClearQueue)
            && n.inflight == Slicing.Retain(run.inflight, (x: InFlightSnapshot) => HasText(x.gauge))
            && |n.runtime| == |run.runtime|
            && forall k :: 0 <= k < |run.runtime| ==>
                 n.runtime[k] == if run.runtime[k].workerCount == Some(0) then run.runtime[k].(workerCount := None)
                                 else run.runtime[k]
  {
    Slicing.RetainAlike(run.inflight, KeepGauge, (x: InFlightSnapshot) => HasText(x.gauge));
    hide KeepStage, KeepQueue, ClearStage, ClearQueue, Requests, Slicing.Retain;
  }
}
