/** Cutting a run down to some requests, their children, and the global samples of a window. */
module Slicing {
  import opened Machine
  import opened Sorting
  import opened Events

  datatype Window = Window(start: u64, finish: u64)

  datatype SampleWindow = SampleWindow(unixStart: u64, unixFinish: u64, runRelative: Option<Window>)

  datatype GlobalEvidencePolicy = Exclude | Within(window: SampleWindow)

  datatype SlicedRun = SlicedRun(run: Run, usedUnixFallback: bool)

  // ----- `Vec::retain`

  function Retain<T>(s: seq<T>, keep: T -> bool): seq<T>
  {
    if s == [] then []
    else
      var x := s[|s| - 1];
      Retain(s[..|s| - 1], keep) + if keep(x) then [x] else []
  }

  /** The positions that survive, in order. */
  ghost function Kept<T>(s: seq<T>, keep: T -> bool): (ks: seq<int>)
    ensures |ks| == |Retain(s, keep)|
    ensures forall k :: 0 <= k < |ks| ==> 0 <= ks[k] < |s|
    ensures forall i, j :: 0 <= i < j < |ks| ==> ks[i] < ks[j]
  {
    if s == [] then []
    else
      var n := |s| - 1;
      Kept(s[..n], keep) + if keep(s[n]) then [n] else []
  }

  lemma {:induction false} KeptExactly<T>(s: seq<T>, keep: T -> bool, i: int)
    ensures i in Kept(s, keep) <==> 0 <= i < |s| && keep(s[i])
  {
    if s != [] {
      var n := |s| - 1;
      KeptExactly(s[..n], keep, i);
      assert i in Kept(s, keep) <==> i in Kept(s[..n], keep) || (keep(s[n]) && i == n);
    }
  }

  lemma {:induction false} KeptValue<T>(s: seq<T>, keep: T -> bool, k: nat)
    requires k < |Kept(s, keep)|
    ensures Retain(s, keep)[k] == s[Kept(s, keep)[k]]
  {
    var n := |s| - 1;
    if k < |Kept(s[..n], keep)| {
      KeptValue(s[..n], keep, k);
    }
  }

  /** Exactly the elements asked for survive, each occurrence once, in their original order. */
  lemma RetainKeepsOrder<T>(s: seq<T>, keep: T -> bool)
    ensures forall i :: i in Kept(s, keep) <==> 0 <= i < |s| && keep(s[i])
    ensures forall k :: 0 <= k < |Kept(s, keep)| ==> Retain(s, keep)[k] == s[Kept(s, keep)[k]]
  {
    hide Retain, Kept;
    forall i ensures i in Kept(s, keep) <==> 0 <= i < |s| && keep(s[i]) {
      KeptExactly(s, keep, i);
    }
    forall k | 0 <= k < |Kept(s, keep)| ensures Retain(s, keep)[k] == s[Kept(s, keep)[k]] {
      KeptValue(s, keep, k);
    }
  }

  lemma RetainMembers<T>(s: seq<T>, keep: T -> bool)
    ensures forall x :: x in Retain(s, keep) <==> x in s && keep(x)
  {
    RetainKeepsOrder(s, keep);
    forall x ensures x in Retain(s, keep) <==> x in s && keep(x) {
      if x in Retain(s, keep) {
        var k :| 0 <= k < |Retain(s, keep)| && Retain(s, keep)[k] == x;
        assert Kept(s, keep)[k] in Kept(s, keep);
      }
      if x in s && keep(x) {
        var i :| 0 <= i < |s| && s[i] == x;
        assert i in Kept(s, keep);
        var k :| 0 <= k < |Kept(s, keep)| && Kept(s, keep)[k] == i;
        assert Retain(s, keep)[k] == x;
      }
    }
  }

  lemma {:induction false} RetainAlike<T>(s: seq<T>, f: T -> bool, g: T -> bool)
    requires forall x :: x in s ==> f(x) == g(x)
    ensures Retain(s, f) == Retain(s, g)
  {
    if s != [] {
      RetainAlike(s[..|s| - 1], f, g);
    }
  }

  lemma RetainDistinct<T>(s: seq<T>, keep: T -> bool)
    requires Distinct(s)
    ensures Distinct(Retain(s, keep))
  {
    RetainKeepsOrder(s, keep);
    var r, ks := Retain(s, keep), Kept(s, keep);
    forall i, j | 0 <= i < j < |r| ensures r[i] != r[j] {
      assert r[i] == s[ks[i]] && r[j] == s[ks[j]] && ks[i] < ks[j];
    }
  }

  /** Two filters of which each element passes exactly one split a list without loss. */
  lemma {:induction false} RetainSplits<T>(s: seq<T>, one: T -> bool, two: T -> bool)
    requires forall x :: x in s ==> one(x) != two(x)
    ensures multiset(Retain(s, one)) + multiset(Retain(s, two)) == multiset(s)
  {
    if s != [] {
      var prior, x := s[..|s| - 1], s[|s| - 1];
      assert s == prior + [x];
      RetainSplits(prior, one, two);
    }
  }

  // ----- samples

  /** The clock a sample is judged by: run-relative when both it and the window have that time. */
  predicate InWindow(atUnixMs: u64, atRunUs: Option<u64>, w: SampleWindow)
  {
    if w.runRelative.Some? && atRunUs.Some? then
      w.runRelative.value.start <= atRunUs.value <= w.runRelative.value.finish
    else w.unixStart <= atUnixMs <= w.unixFinish
  }

  /** Kept by wall clock although the window has a run-relative range. */
  predicate FellBack(atUnixMs: u64, atRunUs: Option<u64>, w: SampleWindow)
  {
    w.runRelative.Some? && atRunUs.None? && w.unixStart <= atUnixMs <= w.unixFinish
  }

  method RetainSample(atUnixMs: u64, atRunUs: Option<u64>, w: SampleWindow)
    returns (retained: bool, usedUnixFallback: bool)
    ensures retained == InWindow(atUnixMs, atRunUs, w) && usedUnixFallback == FellBack(atUnixMs, atRunUs, w)
  {
    if w.runRelative.Some? && atRunUs.Some? {
      return atRunUs.value >= w.runRelative.value.start && atRunUs.value <= w.runRelative.value.finish, false;
    }
    retained := atUnixMs >= w.unixStart && atUnixMs <= w.unixFinish;
    usedUnixFallback := retained && w.runRelative.Some? && atRunUs.None?;
  }

  function KeepRuntime(w: SampleWindow): RuntimeSnapshot -> bool
  {
    (x: RuntimeSnapshot) => InWindow(x.atUnixMs, x.atRunUs, w)
  }

  function KeepInflight(w: SampleWindow): InFlightSnapshot -> bool
  {
    (x: InFlightSnapshot) => InWindow(x.atUnixMs, x.atRunUs, w)
  }

  function OfRequests(ids: set<string>): RequestEvent -> bool { (r: RequestEvent) => r.requestId in ids }

  function StagesOf(ids: set<string>): StageEvent -> bool { (e: StageEvent) => e.requestId in ids }

  function QueuesOf(ids: set<string>): QueueEvent -> bool { (q: QueueEvent) => q.requestId in ids }

  function Sliced(source: Run, samples: Run, ids: set<string>, policy: GlobalEvidencePolicy): Run
  {
    source.(requests := Retain(source.requests, OfRequests(ids)),
            stages := Retain(source.stages, StagesOf(ids)),
            queues := Retain(source.queues, QueuesOf(ids)),
            runtime := if policy.Exclude? then [] else Retain(samples.runtime, KeepRuntime(policy.window)),
            inflight := if policy.Exclude? then [] else Retain(samples.inflight, KeepInflight(policy.window)))
  }

  ghost predicate RuntimeFellBack(samples: seq<RuntimeSnapshot>, w: SampleWindow)
  {
    exists x :: x in samples && FellBack(x.atUnixMs, x.atRunUs, w)
  }

  ghost predicate InflightFellBack(samples: seq<InFlightSnapshot>, w: SampleWindow)
  {
    exists x :: x in samples && FellBack(x.atUnixMs, x.atRunUs, w)
  }

  lemma RuntimeFellBackNext(s: seq<RuntimeSnapshot>, x: RuntimeSnapshot, w: SampleWindow)
    ensures RuntimeFellBack(s + [x], w) <==> RuntimeFellBack(s, w) || FellBack(x.atUnixMs, x.atRunUs, w)
  {
    hide FellBack;
    assert x in s + [x];
  }

  lemma InflightFellBackNext(s: seq<InFlightSnapshot>, x: InFlightSnapshot, w: SampleWindow)
    ensures InflightFellBack(s + [x], w) <==> InflightFellBack(s, w) || FellBack(x.atUnixMs, x.atRunUs, w)
  {
    hide FellBack;
    assert x in s + [x];
  }

  lemma RetainNext<T>(s: seq<T>, i: nat, keep: T -> bool)
    requires i < |s|
    ensures Retain(s[..i + 1], keep) == Retain(s[..i], keep) + if keep(s[i]) then [s[i]] else []
    ensures s[..i + 1] == s[..i] + [s[i]]
  {
    assert s[..i + 1][..i] == s[..i];
  }

  method RetainRuntime(samples: seq<RuntimeSnapshot>, w: SampleWindow)
    returns (kept: seq<RuntimeSnapshot>, fallback: bool)
    ensures kept == Retain(samples, KeepRuntime(w)) && (fallback <==> RuntimeFellBack(samples, w))
  {
    kept, fallback := [], false;
    for i := 0 to |samples|
      invariant kept == Retain(samples[..i], KeepRuntime(w)) && (fallback <==> RuntimeFellBack(samples[..i], w))
    {
      hide FellBack, InWindow, RuntimeFellBack, Retain;
      var retained, usedFallback := RetainSample(samples[i].atUnixMs, samples[i].atRunUs, w);
      RetainNext(samples, i, KeepRuntime(w));
      RuntimeFellBackNext(samples[..i], samples[i], w);
      fallback := fallback || usedFallback;
      if retained {
        kept := kept + [samples[i]];
      }
    }
    assert samples[..|samples|] == samples;
  }

  method RetainInflight(samples: seq<InFlightSnapshot>, w: SampleWindow)
    returns (kept: seq<InFlightSnapshot>, fallback: bool)
    ensures kept == Retain(samples, KeepInflight(w)) && (fallback <==> InflightFellBack(samples, w))
  {
    kept, fallback := [], false;
    for i := 0 to |samples|
      invariant kept == Retain(samples[..i], KeepInflight(w)) && (fallback <==> InflightFellBack(samples[..i], w))
    {
      hide FellBack, InWindow, InflightFellBack, Retain;
      var retained, usedFallback := RetainSample(samples[i].atUnixMs, samples[i].atRunUs, w);
      RetainNext(samples, i, KeepInflight(w));
      InflightFellBackNext(samples[..i], samples[i], w);
      fallback := fallback || usedFallback;
      if retained {
        kept := kept + [samples[i]];
      }
    }
    assert samples[..|samples|] == samples;
  }

  method SliceRun(source: Run, samples: Run, requestIds: seq<string>, policy: GlobalEvidencePolicy)
    returns (sliced: SlicedRun)
    ensures sliced.run == Sliced(source, samples, (set id | id in requestIds), policy)
    ensures sliced.usedUnixFallback <==>
              && policy.Within?
              && (RuntimeFellBack(samples.runtime, policy.window) || InflightFellBack(samples.inflight, policy.window))
  {
    hide Retain, RuntimeFellBack, InflightFellBack;
    var ids := set id | id in requestIds;
    var run := source;
    run := run.(requests := Retain(run.requests, OfRequests(ids)));
    run := run.(stages := Retain(run.stages, StagesOf(ids)));
    run := run.(queues := Retain(run.queues, QueuesOf(ids)));
    var usedUnixFallback := false;
    match policy {
      case Exclude =>
        run := run.(runtime := [], inflight := []);
      case Within(window) =>
        var runtime, runtimeFellBack := RetainRuntime(samples.runtime, window);
        var inflight, inflightFellBack := RetainInflight(samples.inflight, window);
        run := run.(runtime := runtime, inflight := inflight);
        usedUnixFallback := runtimeFellBack || inflightFellBack;
    }
    sliced := SlicedRun(run, usedUnixFallback);
  }
}
