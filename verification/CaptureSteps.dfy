/** The capture collector among its threads, step by step.

    A `World` is the locked collector state together with everything threads hold outside the
    lock: drawn pending keys, completion tokens, in-flight guards, timers, owed listener calls
    and shutdown callers. An `Action` is one atomic step of one thread; a critical section is a
    single action, and what a thread does before or after it is an action of its own. Any
    interleaving of any number of threads is a sequence of enabled actions. */
module CaptureSteps {
  import opened Machine
  import opened Events
  import opened Collector
  import opened Sorting

  type GuardId = nat
  type TimerId = nat
  type CallerId = nat

  /** `norm` is the permissive normalization the sink input goes through. */
  datatype Config = Config(limits: Limits, strict: bool, norm: Run -> Run)

  datatype Subject =
    | OfStage(requestId: string, stage: string)
    | OfQueue(requestId: string, queue: string, depth: Option<u64>)

  /** A measured interval whose future became ready (completed) or was dropped (partial). */
  datatype Ended = Ended(subject: Subject, start: IntervalStart, end: IntervalEnd, completed: bool, success: bool)

  /** A timer helper: refused, not yet polled, polled, about to record, dropped before its first poll,
      or done recording while capture was open (`offered`) or no longer. */
  datatype Timer =
    | Inert(subject: Subject)
    | Unpolled(subject: Subject)
    | Armed(subject: Subject, start: IntervalStart)
    | Recording(work: Ended)
    | Abandoned(subject: Subject, end: IntervalEnd)
    | Spent(work: Ended, offered: bool)

  datatype Caller =
    | Waiting
    | Writing(candidate: Run)
    | Written(terminal: Terminal)
    | Returned(result: ShutdownResult)

  /** A completion token whose armed state was taken by finish or by drop. */
  datatype Taken = Taken(start: IntervalStart, end: IntervalEnd, outcome: Outcome)

  /** One recorded completion: the key and what the event was built from. */
  datatype Record = Record(key: Key, pending: Pending, taken: Taken)

  /** Admission and completion: the sequence counter, starts between their key draw and the lock,
      completion tokens, and the history of starts and recorded completions. */
  datatype Tokens = Tokens(
    nextKey: Key, drawn: map<Key, Pending>, armed: map<Key, IntervalStart>, taken: map<Key, Taken>,
    offered: nat, refused: nat, records: seq<Record>)

  /** Live enabled guards, and the history of transitions and of refused new gauges. */
  datatype Gauges = Gauges(guards: map<GuardId, string>, offered: seq<InFlightSnapshot>, refused: nat)

  /** One event offered to the collector: the timer it came from and what the timer measured. */
  datatype Offer = Offer(timer: TimerId, work: Ended)

  /** Timer helpers, and the history of the events they offered while capture was open. */
  datatype Helpers = Helpers(timers: map<TimerId, Timer>, log: seq<Offer>)

  /** Threads that still owe the listener a call, and the calls made. */
  datatype Notices = Notices(owed: nat, made: nat)

  /** Shutdown callers, and the history: who won finalization, and the runs given to the sink. */
  datatype Closing = Closing(callers: map<CallerId, Caller>, winner: Option<CallerId>, writes: seq<Run>)

  datatype World = World(
    core: Core, tokens: Tokens, gauges: Gauges, helpers: Helpers,
    samples: seq<RuntimeSnapshot>, notices: Notices, closing: Closing)

  datatype TokenAction =
    | DrawStart(pending: Pending)
    | AdmitStart(key: Key)
    | TakeToken(key: Key, end: IntervalEnd, outcome: Outcome)
    | ResolveToken(key: Key)

  datatype GaugeAction =
    | Acquire(guard: GuardId, gauge: string, at: ClockSample)
    | Release(guard: GuardId, at: ClockSample)

  datatype HelperAction =
    | NewTimer(timer: TimerId, subject: Subject, admitted: bool)
    | PollTimer(timer: TimerId, start: IntervalStart)
    | ReadyTimer(timer: TimerId, end: IntervalEnd, success: bool)
    | DropTimer(timer: TimerId, end: IntervalEnd)
    | RecordTimer(timer: TimerId)

  datatype RunAction =
    | Sample(snapshot: RuntimeSnapshot)
    | EndReason(reason: RunEndReason)
    | CallListener

  datatype ClosingAction =
    | CallShutdown(caller: CallerId, now: u64)
    | WakeShutdown(caller: CallerId)
    | WriteSink(caller: CallerId, terminal: Terminal)
    | CloseShutdown(caller: CallerId)

  datatype Action =
    | OnToken(t: TokenAction)
    | OnGauge(g: GaugeAction)
    | OnHelper(h: HelperAction)
    | OnRun(r: RunAction)
    | OnClosing(c: ClosingAction)

  const START := World(
    INITIAL, Tokens(0, map[], map[], map[], 0, 0, []), Gauges(map[], [], 0), Helpers(map[], []),
    [], Notices(0, 0), Closing(map[], None, []))

  // ----- which steps the threads can take

  /** A drawn key is used once, by the thread that drew it; a token exists once. */
  predicate TokenEnabled(t: Tokens, a: TokenAction)
  {
    match a
    case DrawStart(_) => true
    case AdmitStart(k) => k in t.drawn
    case TakeToken(k, _, _) => k in t.armed
    case ResolveToken(k) => k in t.taken
  }

  /** Identifiers of new guards are fresh; a process cannot hold 2^64 guards at once. */
  predicate GaugeEnabled(g: Gauges, a: GaugeAction)
  {
    match a
    case Acquire(id, _, _) => id !in g.guards && |g.guards| < U64_MAX
    case Release(id, _) => id in g.guards
  }

  predicate HelperEnabled(h: Helpers, a: HelperAction)
  {
    match a
    case NewTimer(id, _, _) => id !in h.timers
    case PollTimer(id, _) => id in h.timers && h.timers[id].Unpolled?
    case ReadyTimer(id, _, _) => id in h.timers && h.timers[id].Armed?
    case DropTimer(id, _) => id in h.timers && (h.timers[id].Armed? || h.timers[id].Unpolled?)
    case RecordTimer(id) => id in h.timers && h.timers[id].Recording?
  }

  predicate ClosingEnabled(cl: Closing, a: ClosingAction)
  {
    match a
    case CallShutdown(c, _) => c !in cl.callers
    case WakeShutdown(c) => c in cl.callers && cl.callers[c].Waiting?
    case WriteSink(c, _) => c in cl.callers && cl.callers[c].Writing?
    case CloseShutdown(c) => c in cl.callers && cl.callers[c].Written?
  }

  predicate Enabled(w: World, a: Action)
  {
    match a
    case OnToken(t) => TokenEnabled(w.tokens, t)
    case OnGauge(g) => GaugeEnabled(w.gauges, g)
    case OnHelper(h) => HelperEnabled(w.helpers, h)
    case OnRun(r) => r.CallListener? ==> w.notices.owed > 0
    case OnClosing(c) => ClosingEnabled(w.closing, c)
  }

  // ----- the effect of each step

  function TokenSection(lim: Limits, c: Core, t: Tokens, a: TokenAction): Stepped
    requires TokenEnabled(t, a)
    ensures var s := TokenSection(lim, c, t, a); OnlyRequests(c, s.core) && Owes(c, s)
  {
    match a
    case AdmitStart(k) => StartRequest(c, lim, k, t.drawn[k])
    case ResolveToken(k) => ResolveRequest(c, lim, k, t.taken[k].start, t.taken[k].end, t.taken[k].outcome)
    case _ => Stepped(c, false, false)
  }

  function TokenStep(lim: Limits, c: Core, t: Tokens, a: TokenAction): Tokens
    requires TokenEnabled(t, a)
  {
    match a
    case DrawStart(p) => t.(drawn := t.drawn[t.nextKey := p], nextKey := t.nextKey + 1)
    case AdmitStart(k) =>
      var t' := t.(drawn := t.drawn - {k});
      if TokenSection(lim, c, t, a).admitted then
        t'.(armed := t.armed[k := t.drawn[k].start], offered := t.offered + 1)
      else if c.phase.Open? then t'.(offered := t.offered + 1, refused := t.refused + 1)
      else t'
    case TakeToken(k, end, o) => t.(armed := t.armed - {k}, taken := t.taken[k := Taken(t.armed[k], end, o)])
    case ResolveToken(k) =>
      t.(taken := t.taken - {k},
         records := if c.phase.Open? && k in c.pending then t.records + [Record(k, c.pending[k], t.taken[k])]
                    else t.records)
  }

  function GaugeSection(lim: Limits, c: Core, g: Gauges, a: GaugeAction): Stepped
    requires GaugeEnabled(g, a)
    ensures var s := GaugeSection(lim, c, g, a); OnlyInflight(c, s.core) && Owes(c, s)
  {
    match a
    case Acquire(_, gauge, at) => OpenGuard(c, lim, gauge, at)
    case Release(id, at) => DropGuard(c, lim, g.guards[id], at)
  }

  function GaugeStep(lim: Limits, c: Core, g: Gauges, a: GaugeAction): Gauges
    requires GaugeEnabled(g, a)
  {
    var s := GaugeSection(lim, c, g, a);
    match a
    case Acquire(id, gauge, at) =>
      if s.admitted then
        g.(guards := g.guards[id := gauge], offered := g.offered + [Transition(gauge, at, s.core.counts[gauge])])
      else if c.phase.Open? then g.(refused := g.refused + 1)
      else g
    case Release(id, at) =>
      var g' := g.(guards := g.guards - {id});
      if s.admitted then g'.(offered := g.offered + [Transition(g.guards[id], at, c.counts[g.guards[id]] - 1)])
      else g'
  }

  function Transition(gauge: string, at: ClockSample, count: u64): InFlightSnapshot
  {
    InFlightSnapshot(gauge, at.unixMs, Some(at.runUs), count)
  }

  function StageEventOf(e: Ended): StageEvent
    requires e.subject.OfStage?
  {
    StageEvent(e.subject.requestId, e.subject.stage, e.start.unixMs, e.start.runUs, e.end.at.unixMs,
               Some(e.end.at.runUs), e.end.durationUs, e.completed && e.success, e.completed)
  }

  function QueueEventOf(e: Ended): QueueEvent
    requires e.subject.OfQueue?
  {
    QueueEvent(e.subject.requestId, e.subject.queue, e.start.unixMs, e.start.runUs, e.end.at.unixMs,
               Some(e.end.at.runUs), e.end.durationUs, e.subject.depth, e.completed)
  }

  /** The stage events offered, in the order they were offered. */
  function StagesIn(log: seq<Offer>): seq<StageEvent>
  {
    if log == [] then []
    else
      var e := log[|log| - 1].work;
      StagesIn(log[..|log| - 1]) + if e.subject.OfStage? then [StageEventOf(e)] else []
  }

  function QueuesIn(log: seq<Offer>): seq<QueueEvent>
  {
    if log == [] then []
    else
      var e := log[|log| - 1].work;
      QueuesIn(log[..|log| - 1]) + if e.subject.OfQueue? then [QueueEventOf(e)] else []
  }

  function HelperSection(lim: Limits, c: Core, h: Helpers, a: HelperAction): Stepped
    requires HelperEnabled(h, a)
    ensures var s := HelperSection(lim, c, h, a); OnlyTimed(c, s.core) && Owes(c, s)
  {
    match a
    case RecordTimer(id) =>
      var e := h.timers[id].work;
      if e.subject.OfStage? then RecordStage(c, lim, StageEventOf(e)) else RecordQueue(c, lim, QueueEventOf(e))
    case _ => Stepped(c, false, false)
  }

  function HelperStep(c: Core, h: Helpers, a: HelperAction): Helpers
    requires HelperEnabled(h, a)
  {
    match a
    case NewTimer(id, s, admitted) => h.(timers := h.timers[id := if admitted then Unpolled(s) else Inert(s)])
    case PollTimer(id, start) => h.(timers := h.timers[id := Armed(h.timers[id].subject, start)])
    case ReadyTimer(id, end, success) =>
      h.(timers := h.timers[id := Recording(Ended(h.timers[id].subject, h.timers[id].start, end, true, success))])
    case DropTimer(id, end) =>
      var t := h.timers[id];
      h.(timers := h.timers[id := if t.Unpolled? then Abandoned(t.subject, end)
                                  else Recording(Ended(t.subject, t.start, end, false, false))])
    case RecordTimer(id) =>
      var e := h.timers[id].work;
      Helpers(h.timers[id := Spent(e, c.phase.Open?)], if c.phase.Open? then h.log + [Offer(id, e)] else h.log)
  }

  /** The shutdown steps change the phase, and only the winning call touches the run. */
  ghost function ClosingCore(cfg: Config, c: Core, cl: Closing, a: ClosingAction): Core
    requires ClosingEnabled(cl, a)
  {
    match a
    case CallShutdown(_, now) => if AttemptOf(c, cfg.strict).Won? then Finalize(c, now) else c
    case CloseShutdown(x) => c.(phase := Closed(cl.callers[x].terminal))
    case _ => c
  }

  ghost function ClosingStep(cfg: Config, c: Core, cl: Closing, a: ClosingAction): Closing
    requires ClosingEnabled(cl, a)
  {
    match a
    case CallShutdown(x, now) =>
      var attempt := AttemptOf(c, cfg.strict);
      var x' :=
        match attempt
        case Wait => Waiting
        case Replay(r) => Returned(r)
        case Refused(n) => Returned(UnfinishedRequests(n))
        case Won => Writing(Finalize(c, now).run);
      cl.(callers := cl.callers[x := x'], winner := if attempt.Won? then Some(x) else cl.winner)
    case WakeShutdown(x) =>
      // a woken caller looks at the phase again and waits on unless the collector is closed
      if AttemptOf(c, cfg.strict).Replay?
      then cl.(callers := cl.callers[x := Returned(AttemptOf(c, cfg.strict).result)])
      else cl
    case WriteSink(x, t) =>
      cl.(callers := cl.callers[x := Written(t)], writes := cl.writes + [cfg.norm(cl.callers[x].candidate)])
    case CloseShutdown(x) => cl.(callers := cl.callers[x := Returned(OwnResult(cl.callers[x].terminal))])
  }

  /** Installs the state a critical section left and the listener call it may owe. */
  function Locked(w: World, s: Stepped): World
  {
    w.(core := s.core, notices := w.notices.(owed := w.notices.owed + if s.notify then 1 else 0))
  }

  ghost function Next(cfg: Config, w: World, a: Action): World
    requires Enabled(w, a)
  {
    var lim, c := cfg.limits, w.core;
    match a
    case OnToken(t) =>
      Locked(w, TokenSection(lim, c, w.tokens, t)).(tokens := TokenStep(lim, c, w.tokens, t))
    case OnGauge(g) =>
      Locked(w, GaugeSection(lim, c, w.gauges, g)).(gauges := GaugeStep(lim, c, w.gauges, g))
    case OnHelper(h) =>
      Locked(w, HelperSection(lim, c, w.helpers, h)).(helpers := HelperStep(c, w.helpers, h))
    case OnRun(Sample(e)) =>
      Locked(w, RecordRuntime(c, lim, e)).(samples := if c.phase.Open? then w.samples + [e] else w.samples)
    case OnRun(EndReason(r)) => w.(core := SetEndReason(c, r))
    case OnRun(CallListener) => w.(notices := Notices(w.notices.owed - 1, w.notices.made + 1))
    case OnClosing(x) =>
      w.(core := ClosingCore(cfg, c, w.closing, x), closing := ClosingStep(cfg, c, w.closing, x))
  }

  /** The world after a run from the start, or nothing when some action was not enabled. */
  ghost function After(cfg: Config, run: seq<Action>): Option<World>
  {
    if run == [] then Some(START)
    else
      match After(cfg, run[..|run| - 1])
      case Some(w) => if Enabled(w, run[|run| - 1]) then Some(Next(cfg, w, run[|run| - 1])) else None
      case None => None
  }
}
