/** The confidence a suspect ends with and the notes it carries, said of its score, its family's evidence
    and the other suspects. */
module ConfidenceLaws {
  import opened Machine
  import opened Sorting
  import opened Events
  import opened StageAttribution
  import opened Suspects
  import opened Evidence
  import opened ConfidenceCaps
  import opened Analysis
  import Scoring

  /** Another real suspect is as strong: both score the minimum, and neither is further than the gap
      below any real suspect. */
  ghost predicate Rivalled(s: seq<Scored>, options: AnalyzeOptions, i: nat)
    requires i < |s|
  {
    && NearTop(s, options, i)
    && exists j :: 0 <= j < |s| && j != i && NearTop(s, options, j)
  }

  ghost predicate NearTop(s: seq<Scored>, options: AnalyzeOptions, i: nat)
    requires i < |s|
  {
    && s[i].kind != Insufficient && options.ambiguityMinScore <= s[i].score
    && forall k :: 0 <= k < |s| && s[k].kind != Insufficient ==> s[k].score - s[i].score <= options.ambiguityGap
  }

  lemma ClusterIsRivals(s: seq<Scored>, options: AnalyzeOptions)
    ensures forall i :: InCluster(s, options, i) <==> 0 <= i < |s| && Rivalled(s, options, i)
  {
    forall i ensures Close(s, options, i) <==> 0 <= i < |s| && NearTop(s, options, i) {}
    hide Close, NearTop;
  }

  /** Every depth of the runtime snapshots was sampled at least once, or there are no snapshots. */
  predicate DepthsSampled(snapshots: seq<RuntimeSnapshot>)
  {
    snapshots == []
    || ((exists x :: x in snapshots && x.blockingDepth.Some?) && (exists x :: x in snapshots && x.localDepth.Some?)
        && (exists x :: x in snapshots && x.globalDepth.Some?))
  }

  lemma PartialIsUnsampled(snapshots: seq<RuntimeSnapshot>)
    ensures RuntimePartial(snapshots) <==> !DepthsSampled(snapshots)
  {}

  /** The run cannot carry a high confidence for a suspect of this family. */
  predicate Undermined(kind: Kind, basis: Basis, run: Run)
  {
    || (kind == Queue && (basis == ObservedLowerBound || run.truncation.droppedQueues != 0 || run.queues == []))
    || (kind == Downstream && (basis == ObservedLowerBound || run.truncation.droppedStages != 0 || run.stages == []))
    || ((kind == Blocking || kind == Executor)
        && (run.truncation.droppedRuntime != 0 || run.runtime == [] || !DepthsSampled(run.runtime)))
  }

  /** The confidence a suspect ends with, exactly: what its score reaches, but at most Medium where the
      evidence is weak, requests are few or were dropped, another suspect is as strong, the workers limit
      it or its family is undermined; and Low for any real suspect of a run without requests. */
  lemma FinalConfidenceExactly(cands: seq<Scored>, run: Run, quality: Quality, options: AnalyzeOptions, i: nat)
    requires i < |cands|
    ensures var c, f := cands[i], Finals(cands, run, quality, options)[i];
            var genuine := c.kind != Insufficient;
            var held := || (genuine && (quality == WeakQuality || |run.requests| < options.lowRequestThreshold
                                     || run.truncation.droppedRequests != 0 || Rivalled(cands, options, i)))
                        || c.limitation != None || Undermined(c.kind, c.basis, run);
            && (f.confidence == High <==>
                  c.score >= options.highThreshold && !held && (genuine ==> run.requests != []))
            && (f.confidence == Low <==>
                  || (genuine && run.requests == [])
                  || (c.score < options.mediumThreshold && c.score < options.highThreshold))
  {
    hide Finals;
    FinalsAre(cands, run, quality, options, i);
    ClusterIsRivals(cands, options);
    PartialIsUnsampled(run.runtime);
    hide InCluster, Rivalled, RuntimePartial, DepthsSampled;
  }

  /** What each note says. */
  ghost predicate Speaks(n: Note, c: Scored, rivalled: bool, run: Run, options: AnalyzeOptions)
  {
    var genuine, t := c.kind != Insufficient, run.truncation;
    var runtime := c.kind == Blocking || c.kind == Executor;
    match n
    case LowRequestCount => genuine && (run.requests == [] || |run.requests| < options.lowRequestThreshold)
    case TruncationCaps =>
      || (genuine && t.droppedRequests != 0) || (c.kind == Queue && t.droppedQueues != 0)
      || (c.kind == Downstream && t.droppedStages != 0) || (runtime && t.droppedRuntime != 0)
    case PartialQueueEvidence => c.kind == Queue && c.basis == ObservedLowerBound
    case PartialStageEvidence => c.kind == Downstream && c.basis == ObservedLowerBound
    case MissingQueues => c.kind == Queue && run.queues == []
    case MissingStages => c.kind == Downstream && run.stages == []
    case MissingRuntime => runtime && run.runtime == []
    case PartialRuntime => runtime && !DepthsSampled(run.runtime)
    case ExecutorLimited(l) => c.limitation == Some(l)
    case Ambiguous => genuine && rivalled
  }

  /** A suspect carries every note that speaks, once, when its confidence was lowered or the note concerns
      the cluster, lower bounds or executor limits; otherwise it carries none. */
  lemma NotesExactly(cands: seq<Scored>, run: Run, quality: Quality, options: AnalyzeOptions, i: nat)
    requires i < |cands|
    ensures var c, f := cands[i], Finals(cands, run, quality, options)[i];
            var rivalled := Rivalled(cands, options, i);
            var said := || f.confidence != FromScore(c.score, options) || (c.kind != Insufficient && rivalled)
                        || Speaks(PartialQueueEvidence, c, rivalled, run, options)
                        || Speaks(PartialStageEvidence, c, rivalled, run, options) || c.limitation != None;
            Distinct(f.notes) && forall n :: n in f.notes <==> said && Speaks(n, c, rivalled, run, options)
  {
    hide Rivalled, Close, RuntimePartial, DepthsSampled, CapOf, FromScore, NotesOf, StableDedup, Finals,
      InCluster, Speaks;
    FinalNotes(cands, run, quality, options, i);
    ClusterIsRivals(cands, options);
    var inCluster := InCluster(cands, options, i);
    NotesSpeak(cands[i], inCluster, run, options);
    assert Speaks(PartialQueueEvidence, cands[i], inCluster, run, options)
           == (PartialQueueEvidence in NotesOf(cands[i], inCluster, run, options));
  }

  lemma FinalNotes(cands: seq<Scored>, run: Run, quality: Quality, options: AnalyzeOptions, i: nat)
    requires i < |cands|
    ensures var c, f := cands[i], Finals(cands, run, quality, options)[i];
            var inCluster := InCluster(cands, options, i);
            var notes := NotesOf(c, inCluster, run, options);
            var said := || f.confidence != FromScore(c.score, options) || (c.kind != Insufficient && inCluster)
                        || PartialQueueEvidence in notes || PartialStageEvidence in notes || c.limitation != None;
            f.notes == if said then StableDedup(notes) else []
  {
    SameCloseness(cands, Rescored(cands, options), options);
    var s := Rescored(cands, options)[i];
    var inCluster := InCluster(cands, options, i);
    hide InCluster, Close, CapOf, FromScore, StableDedup, FamilyNotes, NoteIf;
    assert Finals(cands, run, quality, options)[i] == Capped(s, inCluster, run, quality, options);
    assert NotesOf(s, inCluster, run, options) == NotesOf(cands[i], inCluster, run, options);
  }

  lemma NotesSpeak(s: Scored, inCluster: bool, run: Run, options: AnalyzeOptions)
    ensures forall n :: n in NotesOf(s, inCluster, run, options) <==> Speaks(n, s, inCluster, run, options)
  {
    hide RuntimePartial, DepthsSampled, FamilyNotes;
    forall n ensures n in NotesOf(s, inCluster, run, options) <==> Speaks(n, s, inCluster, run, options) {
      FamilyNoteSpeaks(n, s.kind, s.basis, run);
      NoteSpeaks(n, s, inCluster, run, options);
    }
  }

  lemma NoteSpeaks(n: Note, s: Scored, inCluster: bool, run: Run, options: AnalyzeOptions)
    ensures n in NotesOf(s, inCluster, run, options) <==>
            || (n == LowRequestCount && Real(s) && (run.requests == [] || |run.requests| < options.lowRequestThreshold))
            || (n == TruncationCaps && Real(s) && run.truncation.droppedRequests > 0)
            || n in FamilyNotes(s.kind, s.basis, run)
            || (s.limitation.Some? && n == ExecutorLimited(s.limitation.value))
            || (n == Ambiguous && Real(s) && inCluster)
  {
    hide FamilyNotes;
  }

  lemma FamilyNoteSpeaks(n: Note, kind: Kind, basis: Basis, run: Run)
    ensures var t := run.truncation; var runtime := kind == Blocking || kind == Executor;
            n in FamilyNotes(kind, basis, run) <==>
            || (n == PartialQueueEvidence && kind == Queue && basis == ObservedLowerBound)
            || (n == PartialStageEvidence && kind == Downstream && basis == ObservedLowerBound)
            || (n == MissingQueues && kind == Queue && run.queues == [])
            || (n == MissingStages && kind == Downstream && run.stages == [])
            || (n == MissingRuntime && runtime && run.runtime == [])
            || (n == PartialRuntime && runtime && !DepthsSampled(run.runtime))
            || (n == TruncationCaps && ((kind == Queue && t.droppedQueues != 0)
                                        || (kind == Downstream && t.droppedStages != 0)
                                        || (runtime && t.droppedRuntime != 0)))
  {
    PartialIsUnsampled(run.runtime);
    hide RuntimePartial, DepthsSampled;
  }

  /** The candidates are the suspects the four families have, in the order queue, blocking, executor,
      downstream; only when no family has one, insufficient evidence with a score of 50 and nothing to
      limit it. */
  lemma CandidatesExactly(run: Run, status: Option<WorkerEvidence>, growth: bool, options: AnalyzeOptions)
    requires Scoring.UsableStatus(status)
    ensures var q, b := QueueFamily(run, growth, options), Scoring.BlockingSuspect(run.runtime, options);
            var e := Scoring.ExecutorSuspect(run.runtime, status, growth, options);
            var d := Scoring.DownstreamSuspect(run.requests, run.stages, run.runtime, options);
            var cands := CandidatesOf(run, status, growth, options);
            if q.None? && b.None? && e.None? && d.None? then
              |cands| == 1 && cands[0].kind == Insufficient && cands[0].score == 50 && cands[0].limitation == None
            else
              cands == (if q.Some? then [q.value] else []) + (if b.Some? then [b.value] else [])
                       + (if e.Some? then [e.value] else []) + (if d.Some? then [d.value] else [])
  {
    hide QueueFamily, Scoring.BlockingSuspect, Scoring.ExecutorSuspect, Scoring.DownstreamSuspect;
  }
}
