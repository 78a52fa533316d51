/** Evidence-aware confidence caps and the ambiguity cluster. */
module ConfidenceCaps {
  import opened Machine
  import opened Sorting
  import opened Events
  import opened StageAttribution
  import opened Suspects
  import opened Evidence

  // ----- the ambiguity cluster

  predicate Real(s: Scored) { !s.kind.Insufficient? }

  /** A real suspect above the minimum score that no real suspect beats by more than the gap. */
  predicate Close(suspects: seq<Scored>, options: AnalyzeOptions, i: int)
  {
    && 0 <= i < |suspects| && Real(suspects[i]) && suspects[i].score >= options.ambiguityMinScore
    && forall j :: 0 <= j < |suspects| && Real(suspects[j]) ==>
         suspects[j].score <= suspects[i].score + options.ambiguityGap
  }

  /** One close suspect alone is not ambiguous. */
  ghost predicate InCluster(suspects: seq<Scored>, options: AnalyzeOptions, i: int)
  {
    Close(suspects, options, i) && exists j :: j != i && Close(suspects, options, j)
  }

  function ByScore(suspects: seq<Scored>): (int, int) -> bool
  {
    (i: int, j: int) =>
      if 0 <= i < |suspects| && 0 <= j < |suspects| then suspects[i].score >= suspects[j].score
      else if 0 <= j < |suspects| then false else true
  }

  lemma ByScoreOrder(suspects: seq<Scored>)
    ensures TotalPreorder(ByScore(suspects))
  {}

  function RealIndices(suspects: seq<Scored>): (r: seq<int>)
    ensures Distinct(r)
    ensures forall i :: i in r <==> 0 <= i < |suspects| && Real(suspects[i])
  {
    if suspects == [] then []
    else
      var n := |suspects| - 1;
      var r := RealIndices(suspects[..n]);
      assert forall k :: 0 <= k < |r| ==> r[k] in r;
      r + if Real(suspects[n]) then [n] else []
  }

  /** Real suspects by falling score, as the cluster is read from. */
  ghost predicate RankedReal(suspects: seq<Scored>, ranked: seq<int>)
  {
    && Distinct(ranked)
    && (forall i :: i in ranked <==> 0 <= i < |suspects| && Real(suspects[i]))
    && (forall a :: 0 <= a < |ranked| ==> 0 <= ranked[a] < |suspects|)
    && (forall a, b :: 0 <= a < b < |ranked| ==> suspects[ranked[a]].score >= suspects[ranked[b]].score)
  }

  method Rank(suspects: seq<Scored>) returns (ranked: seq<int>)
    ensures RankedReal(suspects, ranked)
  {
    var indices := RealIndices(suspects);
    ranked := Sort(indices, ByScore(suspects));
    ByScoreOrder(suspects);
    SortPermutes(indices, ByScore(suspects));
    SortSorts(indices, ByScore(suspects));
    PermutationDistinct(indices, ranked);
    forall a | 0 <= a < |ranked| ensures 0 <= ranked[a] < |suspects| {
      assert ranked[a] in ranked && ranked[a] in indices;
    }
    forall a, b | 0 <= a < b < |ranked| ensures suspects[ranked[a]].score >= suspects[ranked[b]].score {
      assert ByScore(suspects)(ranked[a], ranked[b]);
    }
  }

  /** In falling order, closeness to the top is what `Close` says of every real suspect. */
  lemma CloseToTop(suspects: seq<Scored>, options: AnalyzeOptions, ranked: seq<int>, a: nat)
    requires RankedReal(suspects, ranked) && a < |ranked|
    ensures 0 <= ranked[0] < |suspects| && 0 <= ranked[a] < |suspects|
    ensures Close(suspects, options, ranked[a]) <==>
              suspects[ranked[a]].score >= options.ambiguityMinScore
              && suspects[ranked[0]].score <= suspects[ranked[a]].score + options.ambiguityGap
  {
    assert ranked[0] in ranked && ranked[a] in ranked;
    forall j | 0 <= j < |suspects| && Real(suspects[j]) ensures suspects[j].score <= suspects[ranked[0]].score {
      assert j in ranked;
      var k :| 0 <= k < |ranked| && ranked[k] == j;
    }
  }

  method AmbiguityClusterIndices(suspects: seq<Scored>, options: AnalyzeOptions) returns (cluster: seq<int>)
    ensures forall i :: i in cluster <==> InCluster(suspects, options, i)
    ensures cluster == [] || |cluster| >= 2
  {
    hide Close;
    var ranked := Rank(suspects);
    if ranked == [] || suspects[ranked[0]].score < options.ambiguityMinScore {
      forall i ensures !Close(suspects, options, i) { NothingClose(suspects, options, ranked, i); }
      return [];
    }
    var n := 0;
    while n < |ranked| && suspects[ranked[n]].score >= options.ambiguityMinScore
          && suspects[ranked[0]].score - suspects[ranked[n]].score <= options.ambiguityGap
      invariant n <= |ranked|
      invariant forall a :: 0 <= a < n ==> Close(suspects, options, ranked[a])
    {
      CloseToTop(suspects, options, ranked, n);
      n := n + 1;
    }
    if n < |ranked| {
      CloseToTop(suspects, options, ranked, n);
    }
    TakenAreClose(suspects, options, ranked, n);
    cluster := ranked[..n];
    if |cluster| < 2 {
      assert forall i :: Close(suspects, options, i) ==> i == ranked[0];
      cluster := [];
    } else {
      assert Close(suspects, options, cluster[0]) && Close(suspects, options, cluster[1]);
    }
  }

  lemma NothingClose(suspects: seq<Scored>, options: AnalyzeOptions, ranked: seq<int>, i: int)
    requires RankedReal(suspects, ranked)
    requires ranked == [] || (0 <= ranked[0] < |suspects| && suspects[ranked[0]].score < options.ambiguityMinScore)
    ensures !Close(suspects, options, i)
  {
    if 0 <= i < |suspects| && Real(suspects[i]) {
      assert i in ranked;
      var a :| 0 <= a < |ranked| && ranked[a] == i;
    }
  }

  lemma TakenAreClose(suspects: seq<Scored>, options: AnalyzeOptions, ranked: seq<int>, n: nat)
    requires RankedReal(suspects, ranked) && n <= |ranked| && ranked != []
    requires forall a :: 0 <= a < n ==> Close(suspects, options, ranked[a])
    requires n < |ranked| ==> !Close(suspects, options, ranked[n])
    ensures forall i :: i in ranked[..n] <==> Close(suspects, options, i)
  {
    forall i ensures i in ranked[..n] <==> Close(suspects, options, i) {
      if Close(suspects, options, i) {
        assert i in ranked;
        var a :| 0 <= a < |ranked| && ranked[a] == i;
        if a >= n {
          CloseToTop(suspects, options, ranked, n);
          CloseToTop(suspects, options, ranked, a);
        }
        assert ranked[..n][a] == i;
      }
    }
  }

  /** The warning reads the two best of a ranked list; it fires exactly when the cluster is not empty. */
  method AmbiguityWarning(suspects: seq<Scored>, options: AnalyzeOptions) returns (warn: bool)
    ensures warn <==> exists i :: InCluster(suspects, options, i)
  {
    hide Close;
    var ranked := Rank(suspects);
    warn := |ranked| >= 2
            && suspects[ranked[0]].score >= options.ambiguityMinScore
            && suspects[ranked[1]].score >= options.ambiguityMinScore
            && suspects[ranked[0]].score - suspects[ranked[1]].score <= options.ambiguityGap;
    if warn {
      CloseToTop(suspects, options, ranked, 0);
      CloseToTop(suspects, options, ranked, 1);
      assert ranked[0] != ranked[1];
      assert InCluster(suspects, options, ranked[0]);
    } else if i :| InCluster(suspects, options, i) {
      var j :| j != i && Close(suspects, options, j);
      TwoCloseReachTop(suspects, options, ranked, i, j);
    }
  }

  lemma TwoCloseReachTop(suspects: seq<Scored>, options: AnalyzeOptions, ranked: seq<int>, i: int, j: int)
    requires RankedReal(suspects, ranked) && i != j && Close(suspects, options, i) && Close(suspects, options, j)
    ensures |ranked| >= 2 && 0 <= ranked[0] < |suspects| && 0 <= ranked[1] < |suspects|
    ensures suspects[ranked[0]].score >= suspects[ranked[1]].score >= options.ambiguityMinScore
    ensures suspects[ranked[0]].score - suspects[ranked[1]].score <= options.ambiguityGap
  {
    assert i in ranked && j in ranked;
    var a :| 0 <= a < |ranked| && ranked[a] == i;
    var b :| 0 <= b < |ranked| && ranked[b] == j;
    var m := if a < b then b else a;
    assert m >= 1;
    CloseToTop(suspects, options, ranked, m);
    if m > 1 {
      assert suspects[ranked[1]].score >= suspects[ranked[m]].score;
    }
  }

  // ----- what caps one suspect

  predicate FamilyReason(kind: Kind, basis: Basis, run: Run)
  {
    match kind
    case Queue => basis.ObservedLowerBound? || run.truncation.droppedQueues > 0 || run.queues == []
    case Downstream => basis.ObservedLowerBound? || run.truncation.droppedStages > 0 || run.stages == []
    case Blocking => run.truncation.droppedRuntime > 0 || run.runtime == [] || RuntimePartial(run.runtime)
    case Executor => run.truncation.droppedRuntime > 0 || run.runtime == [] || RuntimePartial(run.runtime)
    case Insufficient => false
  }

  /** Every reason that lowers the cap to Medium. */
  predicate MediumReason(s: Scored, inCluster: bool, run: Run, quality: Quality, options: AnalyzeOptions)
  {
    || (Real(s) && (quality.WeakQuality? || |run.requests| < options.lowRequestThreshold
                    || run.truncation.droppedRequests > 0 || inCluster))
    || s.limitation.Some?
    || FamilyReason(s.kind, s.basis, run)
  }

  function CapOf(s: Scored, inCluster: bool, run: Run, quality: Quality, options: AnalyzeOptions): Confidence
  {
    if Real(s) && run.requests == [] then Low
    else if MediumReason(s, inCluster, run, quality, options) then Medium
    else High
  }

  function NoteIf(c: bool, n: Note): seq<Note> { if c then [n] else [] }

  function FamilyNotes(kind: Kind, basis: Basis, run: Run): seq<Note>
  {
    match kind
    case Queue =>
      NoteIf(basis.ObservedLowerBound?, PartialQueueEvidence) + NoteIf(run.truncation.droppedQueues > 0, TruncationCaps)
      + NoteIf(run.queues == [], MissingQueues)
    case Downstream =>
      NoteIf(basis.ObservedLowerBound?, PartialStageEvidence) + NoteIf(run.truncation.droppedStages > 0, TruncationCaps)
      + NoteIf(run.stages == [], MissingStages)
    case Insufficient => []
    case _ =>
      NoteIf(run.truncation.droppedRuntime > 0, TruncationCaps)
      + NoteIf(run.runtime == [], MissingRuntime) + NoteIf(RuntimePartial(run.runtime), PartialRuntime)
  }

  function NotesOf(s: Scored, inCluster: bool, run: Run, options: AnalyzeOptions): seq<Note>
  {
    NoteIf(Real(s) && (run.requests == [] || |run.requests| < options.lowRequestThreshold), LowRequestCount)
    + NoteIf(Real(s) && run.truncation.droppedRequests > 0, TruncationCaps)
    + FamilyNotes(s.kind, s.basis, run)
    + (if s.limitation.Some? then [ExecutorLimited(s.limitation.value)] else [])
    + NoteIf(Real(s) && inCluster, Ambiguous)
  }

  function StableDedup(notes: seq<Note>): (d: seq<Note>)
    ensures Distinct(d) && forall n :: n in d <==> n in notes
  {
    if notes == [] then []
    else
      var prior, n := StableDedup(notes[..|notes| - 1]), notes[|notes| - 1];
      assert notes == notes[..|notes| - 1] + [n];
      if n in prior then prior else prior + [n]
  }

  /** Notes are kept when a cap took effect, or when the cluster, the executor or partial evidence
      is the subject whether or not it changed the bucket. */
  function Capped(s: Scored, inCluster: bool, run: Run, quality: Quality, options: AnalyzeOptions): Scored
  {
    var confidence := s.confidence.AtMost(CapOf(s, inCluster, run, quality, options));
    var notes := NotesOf(s, inCluster, run, options);
    var keep := confidence != s.confidence || (Real(s) && inCluster)
                || PartialQueueEvidence in notes || PartialStageEvidence in notes || s.limitation.Some?;
    s.(confidence := confidence, notes := if keep then StableDedup(notes) else [])
  }

  /** `cap = cap.min(Medium)` and a note, when the condition holds. */
  method LowerIf(c: bool, note: Note, cap0: Confidence, notes0: seq<Note>) returns (cap: Confidence, notes: seq<Note>)
    ensures cap == if c then cap0.AtMost(Medium) else cap0
    ensures notes == notes0 + NoteIf(c, note)
  {
    cap, notes := cap0, notes0;
    if c {
      cap, notes := cap.AtMost(Medium), notes + [note];
    }
  }

  lemma AppendThree<T>(x: seq<T>, a: seq<T>, b: seq<T>, c: seq<T>)
    ensures x + a + b + c == x + (a + b + c)
  {}

  method ApplyFamilyEvidenceCaps(kind: Kind, basis: Basis, run: Run, cap0: Confidence, notes0: seq<Note>)
    returns (cap: Confidence, notes: seq<Note>)
    ensures cap == if FamilyReason(kind, basis, run) then cap0.AtMost(Medium) else cap0
    ensures notes == notes0 + FamilyNotes(kind, basis, run)
  {
    hide NoteIf;
    var t := run.truncation;
    match kind {
      case Queue =>
        cap, notes := LowerIf(basis.ObservedLowerBound?, PartialQueueEvidence, cap0, notes0);
        cap, notes := LowerIf(t.droppedQueues > 0, TruncationCaps, cap, notes);
        cap, notes := LowerIf(run.queues == [], MissingQueues, cap, notes);
        AppendThree(notes0, NoteIf(basis.ObservedLowerBound?, PartialQueueEvidence),
                    NoteIf(t.droppedQueues > 0, TruncationCaps),
                    NoteIf(run.queues == [], MissingQueues));
      case Downstream =>
        cap, notes := LowerIf(basis.ObservedLowerBound?, PartialStageEvidence, cap0, notes0);
        cap, notes := LowerIf(t.droppedStages > 0, TruncationCaps, cap, notes);
        cap, notes := LowerIf(run.stages == [], MissingStages, cap, notes);
        AppendThree(notes0, NoteIf(basis.ObservedLowerBound?, PartialStageEvidence),
                    NoteIf(t.droppedStages > 0, TruncationCaps),
                    NoteIf(run.stages == [], MissingStages));
      case Insufficient =>
        cap, notes := cap0, notes0;
      case _ =>
        cap, notes := LowerIf(t.droppedRuntime > 0, TruncationCaps, cap0, notes0);
        cap, notes := LowerIf(run.runtime == [], MissingRuntime, cap, notes);
        cap, notes := LowerIf(RuntimePartial(run.runtime), PartialRuntime, cap, notes);
        AppendThree(notes0, NoteIf(t.droppedRuntime > 0, TruncationCaps), NoteIf(run.runtime == [], MissingRuntime),
                    NoteIf(RuntimePartial(run.runtime), PartialRuntime));
    }
  }

  method CapOne(s: Scored, inCluster: bool, run: Run, quality: Quality, options: AnalyzeOptions) returns (r: Scored)
    ensures r == Capped(s, inCluster, run, quality, options)
  {
    hide FamilyReason, FamilyNotes, StableDedup, NoteIf;
    var cap, notes: seq<Note> := High, [];
    var isInsufficient := s.kind.Insufficient?;
    if !isInsufficient && quality.WeakQuality? {
      cap := cap.AtMost(Medium);
    }
    var few := run.requests == [] || |run.requests| < options.lowRequestThreshold;
    cap, notes := LowerIf(!isInsufficient && few, LowRequestCount, cap, notes);
    if !isInsufficient && run.requests == [] {
      cap := Low;
    }
    assert [] + NoteIf(!isInsufficient && few, LowRequestCount) == NoteIf(!isInsufficient && few, LowRequestCount);
    cap, notes := LowerIf(run.truncation.droppedRequests > 0 && !isInsufficient, TruncationCaps, cap, notes);
    cap, notes := ApplyFamilyEvidenceCaps(s.kind, s.basis, run, cap, notes);
    if s.limitation.Some? {
      cap, notes := cap.AtMost(Medium), notes + [ExecutorLimited(s.limitation.value)];
    } else {
      notes := notes + [];
    }
    var ambiguityCapped := inCluster && !isInsufficient;
    cap, notes := LowerIf(ambiguityCapped, Ambiguous, cap, notes);
    assert cap == CapOf(s, inCluster, run, quality, options);
    assert notes == NotesOf(s, inCluster, run, options);
    var confidence := s.confidence.AtMost(cap);
    var keep := confidence != s.confidence || ambiguityCapped || PartialQueueEvidence in notes
                || PartialStageEvidence in notes || s.limitation.Some?;
    r := s.(confidence := confidence, notes := if keep then StableDedup(notes) else []);
  }

  ghost function CappedAll(suspects: seq<Scored>, run: Run, quality: Quality, options: AnalyzeOptions): (r: seq<Scored>)
    ensures |r| == |suspects|
    ensures forall i :: 0 <= i < |r| ==>
              r[i] == Capped(suspects[i], InCluster(suspects, options, i), run, quality, options)
  {
    seq(|suspects|, i requires 0 <= i < |suspects| =>
      Capped(suspects[i], InCluster(suspects, options, i), run, quality, options))
  }

  method ApplyEvidenceAwareConfidenceCaps(suspects: array<Scored>, run: Run, quality: Quality, options: AnalyzeOptions)
    modifies suspects
    ensures suspects[..] == CappedAll(old(suspects[..]), run, quality, options)
  {
    hide Capped, InCluster;
    ghost var before := suspects[..];
    var cluster := AmbiguityClusterIndices(suspects[..], options);
    for i := 0 to suspects.Length
      invariant forall j :: 0 <= j < i ==>
                  suspects[j] == Capped(before[j], InCluster(before, options, j), run, quality, options)
      invariant forall j :: i <= j < suspects.Length ==> suspects[j] == before[j]
    {
      var capped := CapOne(suspects[i], i in cluster, run, quality, options);
      suspects[i] := capped;
    }
  }
}
