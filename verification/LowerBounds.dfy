/** When observed evidence falls below completed evidence on runs the analyzer can receive: the exact
    condition for queue waits and for stages, and a run on which it happens. */
module LowerBounds {
  import opened Machine
  import opened Sorting
  import opened Events
  import opened Attribution
  import opened Percentiles
  import TimeShares
  import StageAttribution
  import Scoring
  import opened Suspects
  import Normalization
  import Temporal

  // ----- queue waits

  function WithQueues(run: Run, more: seq<QueueEvent>): Run
  {
    run.(queues := run.queues + more)
  }

  /** A partial wait without offsets, named and timed within its request, survives normalization. */
  lemma UntimedWaitIsKept(run: Run, r: RequestEvent)
    requires Normalization.NormalRun(run) && r in run.requests
    ensures Normalization.NormalRun(WithQueues(run, [TimeShares.UntimedWait(r)]))
  {
    hide Normalization.Normalize, Normalization.ValidCount, Normalization.FindValid;
    var q := TimeShares.UntimedWait(r);
    Normalization.NormalMeansKeptAsIs(run);
    Normalization.FoundIs(run.requests, r);
    assert Normalization.KeepQueue(run.requests)(q) && Normalization.ClearQueue(q) == q by { NameIsNotBlank(); }
    hide Normalization.KeepQueue, Normalization.ClearQueue, Normalization.KeepStage, Normalization.ClearStage;
    Normalization.NormalMeansKeptAsIs(WithQueues(run, [q]));
  }

  lemma NameIsNotBlank()
    ensures !Normalization.Blank("queue")
  {
    assert 'q' in "queue";
  }

  /** Over all runs the analyzer can receive that extend a completed one by partial waits: no observed wait
      falls below its completed wait, if and only if each request's completed durations add up to its
      union or already have a gap. */
  lemma WaitsDominatedInNormalRuns(run: Run)
    requires Normalization.NormalRun(run) && forall q :: q in run.queues ==> q.completed
    ensures (forall partial :: TimeShares.AllPartial(partial) && Normalization.NormalRun(WithQueues(run, partial)) ==>
               TimeShares.WaitsDominated(run.requests, run.queues + partial))
            <==> (forall r :: r in run.requests ==>
                    DurationsCoverUnion(TimeShares.Inputs(run.queues, r.requestId, true), r.latencyUs))
  {
    hide DurationsCoverUnion, Normalization.NormalRun, TimeShares.Inputs, TimeShares.WaitsDominated;
    TimeShares.WaitsDominatedExactly(run.requests, run.queues);
    if r :| r in run.requests
            && !DurationsCoverUnion(TimeShares.Inputs(run.queues, r.requestId, true), r.latencyUs)
    {
      var partial := [TimeShares.UntimedWait(r)];
      UntimedWaitIsKept(run, r);
      assert TimeShares.AllPartial(partial);
      TimeShares.SwitchLoses(run.queues, partial[0], r);
      NotDominated(run.requests, run.queues + partial, r);
    }
  }

  lemma NotDominated(requests: seq<RequestEvent>, queues: seq<QueueEvent>, r: RequestEvent)
    requires r in requests && TimeShares.Wait(queues, r, true) > TimeShares.Wait(queues, r, false)
    ensures !TimeShares.WaitsDominated(requests, queues)
  {
    hide TimeShares.Wait;
  }

  // ----- stages

  function WithStages(run: Run, more: seq<StageEvent>): Run
  {
    run.(stages := run.stages + more)
  }

  predicate AllPartialStages(stages: seq<StageEvent>)
  {
    forall e :: e in stages ==> !e.completed
  }

  function StageGroup(stages: seq<StageEvent>, contexts: StageAttribution.Contexts, name: string,
                      basis: StageAttribution.Basis): StageAttribution.Group
  {
    StageAttribution.Group(stages, contexts, name, basis)
  }

  ghost predicate PartsDominated(stages: seq<StageEvent>, contexts: StageAttribution.Contexts, name: string)
  {
    forall id :: id in contexts ==>
      StageAttribution.Part(StageGroup(stages, contexts, name, StageAttribution.Completed), false, id)
      <= StageAttribution.Part(StageGroup(stages, contexts, name, StageAttribution.ObservedLowerBound), false, id)
  }

  ghost function CompletedInputs(stages: seq<StageEvent>, contexts: StageAttribution.Contexts, name: string,
                                 id: string): seq<Input>
  {
    StageAttribution.Inputs(StageGroup(stages, contexts, name, StageAttribution.Completed), id)
  }

  ghost function ObservedInputs(stages: seq<StageEvent>, contexts: StageAttribution.Contexts, name: string,
                                id: string): seq<Input>
  {
    StageAttribution.Inputs(StageGroup(stages, contexts, name, StageAttribution.ObservedLowerBound), id)
  }

  lemma {:induction false} PartialStagesAddNothingCompleted(
      stages: seq<StageEvent>, partial: seq<StageEvent>, contexts: StageAttribution.Contexts, name: string, id: string)
    requires AllPartialStages(partial)
    ensures CompletedInputs(stages + partial, contexts, name, id) == CompletedInputs(stages, contexts, name, id)
    decreases |partial|
  {
    if partial == [] {
      assert stages + partial == stages;
    } else {
      assert (stages + partial)[..|stages + partial| - 1] == stages + partial[..|partial| - 1];
      PartialStagesAddNothingCompleted(stages, partial[..|partial| - 1], contexts, name, id);
    }
  }

  lemma {:induction false} CompletedStagesAreObserved(
      stages: seq<StageEvent>, contexts: StageAttribution.Contexts, name: string, id: string)
    requires forall e :: e in stages ==> e.completed
    ensures CompletedInputs(stages, contexts, name, id) == ObservedInputs(stages, contexts, name, id)
  {
    if stages != [] {
      CompletedStagesAreObserved(stages[..|stages| - 1], contexts, name, id);
    }
  }

  /** A partial event of a stage that measured no time and carries no offsets. */
  function UntimedStage(r: RequestEvent, name: string): StageEvent
  {
    StageEvent(r.requestId, name, r.startedUnixMs, None, r.finishedUnixMs, None, 0, false, false)
  }

  lemma UntimedStageIsKept(run: Run, r: RequestEvent, name: string)
    requires Normalization.NormalRun(run) && r in run.requests && !Normalization.Blank(name)
    ensures Normalization.NormalRun(WithStages(run, [UntimedStage(r, name)]))
  {
    hide Normalization.Normalize, Normalization.ValidCount, Normalization.FindValid;
    var e := UntimedStage(r, name);
    Normalization.NormalMeansKeptAsIs(run);
    Normalization.FoundIs(run.requests, r);
    assert Normalization.KeepStage(run.requests)(e) && Normalization.ClearStage(e) == e;
    hide Normalization.KeepQueue, Normalization.ClearQueue, Normalization.KeepStage, Normalization.ClearStage;
    Normalization.NormalMeansKeptAsIs(WithStages(run, [e]));
  }

  lemma StageSwitchLoses(stages: seq<StageEvent>, contexts: StageAttribution.Contexts, name: string, x: StageEvent)
    requires forall e :: e in stages ==> e.completed
    requires x.requestId in contexts && x.stage == name && !x.completed
    requires StageAttribution.StageInput(x) == Input(None, 0)
    requires !DurationsCoverUnion(CompletedInputs(stages, contexts, name, x.requestId), contexts[x.requestId].latencyUs)
    ensures !PartsDominated(stages + [x], contexts, name)
  {
    var id := x.requestId;
    var c := CompletedInputs(stages, contexts, name, id);
    PartialStagesAddNothingCompleted(stages, [x], contexts, name, id);
    CompletedStagesAreObserved(stages, contexts, name, id);
    assert (stages + [x])[..|stages|] == stages;
    assert ObservedInputs(stages + [x], contexts, name, id) == c + [Input(None, 0)];
    hide StageAttribution.Inputs, Attribute, DurationsCoverUnion;
    GapLoses(c, contexts[id].latencyUs);
  }

  /** A stage of which a request was attributed anything has a name. */
  lemma {:induction false} InputsNameStage(
      stages: seq<StageEvent>, contexts: StageAttribution.Contexts, name: string, id: string)
    requires CompletedInputs(stages, contexts, name, id) != []
    ensures exists e :: e in stages && e.stage == name
  {
    if stages != [] {
      var prior, e := stages[..|stages| - 1], stages[|stages| - 1];
      assert stages == prior + [e];
      if CompletedInputs(prior, contexts, name, id) != [] {
        InputsNameStage(prior, contexts, name, id);
      } else {
        assert e in stages && e.stage == name;
      }
    }
  }

  lemma {:induction false} ContextsNameRequests(requests: seq<RequestEvent>, p95: u64, id: string)
    requires id in StageAttribution.ContextsOf(requests, p95)
    ensures exists r :: r in requests && r.requestId == id
  {
    var prior, r := requests[..|requests| - 1], requests[|requests| - 1];
    assert requests == prior + [r];
    if r.requestId != id {
      ContextsNameRequests(prior, p95, id);
    } else {
      assert r in requests;
    }
  }

  lemma CoveredPartsDominated(stages: seq<StageEvent>, partial: seq<StageEvent>,
                              contexts: StageAttribution.Contexts, name: string)
    requires AllPartialStages(partial)
    requires forall id :: id in contexts ==>
               DurationsCoverUnion(CompletedInputs(stages, contexts, name, id), contexts[id].latencyUs)
    ensures PartsDominated(stages + partial, contexts, name)
  {
    hide StageAttribution.Inputs, Attribute, DurationsCoverUnion;
    var g := StageGroup(stages + partial, contexts, name, StageAttribution.ObservedLowerBound);
    forall id | id in contexts
      ensures StageAttribution.Part(g.(basis := StageAttribution.Completed), false, id) <=
              StageAttribution.Part(g, false, id)
    {
      PartialStagesAddNothingCompleted(stages, partial, contexts, name, id);
      StageAttribution.CompletedInputsAmongObserved(g, id);
      ObservedDominates(StageAttribution.Inputs(g.(basis := StageAttribution.Completed), id),
                        StageAttribution.Inputs(g, id), contexts[id].latencyUs);
    }
  }

  /** The same condition decides for a stage: over all runs the analyzer can receive that extend a
      completed one by partial stage events, no request is attributed less of the stage from observed
      than from completed events, if and only if its completed durations add up to their union or
      already have a gap. */
  lemma PartsDominatedInNormalRuns(run: Run, p95: u64, name: string)
    requires Normalization.NormalRun(run) && forall e :: e in run.stages ==> e.completed
    ensures var contexts := StageAttribution.ContextsOf(run.requests, p95);
            (forall partial :: AllPartialStages(partial) && Normalization.NormalRun(WithStages(run, partial)) ==>
               PartsDominated(run.stages + partial, contexts, name))
            <==> (forall id :: id in contexts ==>
                    DurationsCoverUnion(CompletedInputs(run.stages, contexts, name, id), contexts[id].latencyUs))
  {
    hide DurationsCoverUnion, PartsDominated, CompletedInputs, Normalization.NormalRun;
    var contexts := StageAttribution.ContextsOf(run.requests, p95);
    if id :| id in contexts
             && !DurationsCoverUnion(CompletedInputs(run.stages, contexts, name, id), contexts[id].latencyUs)
    {
      ContextsNameRequests(run.requests, p95, id);
      var r :| r in run.requests && r.requestId == id;
      UncoveredIsNotEmpty(CompletedInputs(run.stages, contexts, name, id), contexts[id].latencyUs);
      InputsNameStage(run.stages, contexts, name, id);
      var e :| e in run.stages && e.stage == name;
      StageIsNamed(run, e);
      UntimedStageIsKept(run, r, name);
      StageSwitchLoses(run.stages, contexts, name, UntimedStage(r, name));
      assert AllPartialStages([UntimedStage(r, name)]);
    } else {
      forall partial | AllPartialStages(partial) ensures PartsDominated(run.stages + partial, contexts, name) {
        CoveredPartsDominated(run.stages, partial, contexts, name);
      }
    }
  }

  lemma UncoveredIsNotEmpty(events: seq<Input>, cap: u64)
    requires !DurationsCoverUnion(events, cap)
    ensures events != []
  {
    EmptyUnion();
  }

  lemma StageIsNamed(run: Run, e: StageEvent)
    requires Normalization.NormalRun(run) && e in run.stages
    ensures !Normalization.Blank(e.stage)
  {
    hide Normalization.Normalize, Normalization.ChildKept;
    Normalization.NormalMeansKeptAsIs(run);
  }

  // ----- a run on which it happens

  const REQUEST := RequestEvent("a", "/", None, 0, Some(0), 1, Some(100), 100, "ok")

  /** Recorded as 0 us, within the tolerance of its 100 us interval. */
  const COMPLETED_WAIT := QueueEvent("a", "queue", 0, Some(0), 1, Some(100), 0, None, true)

  const PARTIAL_WAIT := QueueEvent("a", "queue", 0, None, 1, None, 0, None, false)

  const LOSING_RUN := EMPTY_RUN.(requests := [REQUEST], queues := [COMPLETED_WAIT, PARTIAL_WAIT])

  lemma RequestIsValid()
    ensures Normalization.ValidRequest(REQUEST) && Normalization.ClearRequest(REQUEST) == REQUEST
  {
    assert 'a' in "a" && '/' in "/" && 'o' in "ok";
  }

  lemma WaitsAreValid(q: QueueEvent)
    requires q == COMPLETED_WAIT || q == PARTIAL_WAIT
    ensures Normalization.ValidQueue(q) && Normalization.ClearQueue(q) == q
  {
    assert 'a' in "a";
    NameIsNotBlank();
  }

  lemma WaitsAreKept(q: QueueEvent)
    requires q == COMPLETED_WAIT || q == PARTIAL_WAIT
    ensures Normalization.KeepQueue([REQUEST])(q)
  {
    hide Normalization.ValidQueue, Normalization.ClearQueue, Normalization.ValidRequest, Normalization.ValidCount,
      Normalization.FindValid, Normalization.ClearRequest;
    RequestIsValid();
    WaitsAreValid(q);
    Normalization.FoundIs([REQUEST], REQUEST);
  }

  lemma LosingRunIsNormal()
    ensures Normalization.NormalRun(LOSING_RUN)
  {
    hide Normalization.ValidRequest, Normalization.ClearRequest, Normalization.KeepQueue, Normalization.ClearQueue,
      Normalization.KeepStage, Normalization.NormalRun;
    RequestIsValid();
    forall q | q in LOSING_RUN.queues
      ensures Normalization.KeepQueue([REQUEST])(q) && Normalization.ClearQueue(q) == q
    {
      WaitsAreValid(q);
      WaitsAreKept(q);
    }
    Normalization.NormalMeansKeptAsIs(LOSING_RUN);
  }

  lemma LosingWaits()
    ensures TimeShares.Wait(LOSING_RUN.queues, REQUEST, true) == 100
    ensures TimeShares.Wait(LOSING_RUN.queues, REQUEST, false) == 0
  {
    var queues := LOSING_RUN.queues;
    assert queues[..1] == [COMPLETED_WAIT] && queues[..1][..0] == [];
    var gap := Input(None, 0);
    var whole := Input(Some(Interval(0, 100)), 0);
    assert TimeShares.Inputs(queues[..1], "a", true) == [whole] == TimeShares.Inputs(queues[..1], "a", false);
    assert TimeShares.Inputs(queues, "a", true) == [whole];
    assert TimeShares.Inputs(queues, "a", false) == [whole] + [gap];
    hide TimeShares.Inputs, Attribute;
    DominationCanFail(100);
  }

  lemma OneShare(value: u64)
    ensures Percentile([value], 95, 100) == Some(value)
  {
    PercentileIsElement([value], 95, 100);
  }

  /** A run the analyzer can receive, with one request, one completed wait and one partial wait: the
      completed p95 share is the whole request, the observed one is nothing, and with any usual trigger
      the completed queue candidate exists while the observed one does not. */
  lemma ObservedFallsBelowCompleted(growth: bool, options: AnalyzeOptions)
    requires 0 < options.triggerPermille <= 1000
    ensures Normalization.NormalRun(LOSING_RUN)
    ensures Percentile(TimeShares.QueueShares(LOSING_RUN.requests, LOSING_RUN.queues, true), 95, 100) == Some(1000)
    ensures Percentile(TimeShares.QueueShares(LOSING_RUN.requests, LOSING_RUN.queues, false), 95, 100) == Some(0)
    ensures Scoring.Representation(LOSING_RUN.requests, LOSING_RUN.queues, true, growth, options).Some?
    ensures Scoring.Representation(LOSING_RUN.requests, LOSING_RUN.queues, false, growth, options).None?
  {
    LosingRunIsNormal();
    LosingWaits();
    var requests, queues := LOSING_RUN.requests, LOSING_RUN.queues;
    hide TimeShares.Wait, Percentile, Normalization.NormalRun, Scoring.QueueScore, FromScore;
    assert requests[..0] == [];
    assert TimeShares.QueueShares(requests, queues, true) == [1000];
    assert TimeShares.QueueShares(requests, queues, false) == [0];
    OneShare(1000);
    OneShare(0);
  }
}
