/**
  The asynchronous backend as a transition system: any number of producers in
  `log`, one worker in `worker_loop`, any number of flushers in `flush`, one
  stopper in `stop`. Every mutex region, every atomic access made outside one,
  every point "unlocked, about to notify" and every park or wake is a step of
  its own; spurious wake-ups are steps too. Steps interleave sequentially
  consistently, from a fully constructed backend.
 */
module AsyncProtocol {
  import opened Records
  import opened Memos
  import Q = QueueModel
  import Patterns

  // ----- where each thread is -----

  datatype Producer =
    | Outside                          // not inside log()
    | Entering(record: LogRecord)      // about to take the queue mutex in push
    | WaitingFull(record: LogRecord)   // parked on m_not_full
    | WokenFull(record: LogRecord)     // woken, about to retake the mutex
    | AboutToNotify                    // stored, mutex released, m_not_empty not yet notified
    | AboutToCount                     // push returned true, m_submitted not yet incremented

  datatype Phase = Main | Drain

  datatype Worker =
    | LoopTop                                        // about to load m_running
    | PopEntering(phase: Phase)                      // about to take the queue mutex in pop
    | PopWaiting(phase: Phase)                       // parked on m_not_empty
    | PopWoken(phase: Phase)                         // woken, about to retake the mutex
    | PopNotifying(phase: Phase, record: LogRecord)  // popped, m_not_full not yet notified
    | Handling(phase: Phase, record: LogRecord)      // about to clear, format and write
    | Bumping(phase: Phase)                          // about to increment m_processed
    | Comparing(count: nat)                          // about to load m_submitted
    | FlushNotifying                                 // about to notify_all under m_flush_mutex
    | FinalFlush                                     // drained, about to flush the sinks
    | Exited

  /** What a flush call remembers of its start, for the theorems only: how many
      records had been accepted, how many of them were not counted yet, and
      whether no log() was running then or has started since. */
  datatype FlushView = FlushView(began: nat, flightAtBegin: nat, calm: bool)

  datatype Flusher =
    | Resting
    | Locking(view: FlushView)                                    // about to take m_flush_mutex
    | Holding(view: FlushView)                                    // has it, predicate not begun
    | SawProcessed(view: FlushView, processed: nat)               // loaded m_processed first
    | SawSubmitted(view: FlushView, submitted: nat, flight: nat)  // loaded m_submitted first
    | WaitingFlush(view: FlushView)                               // parked on m_flush_cv
    | WokenFlush(view: FlushView)                                 // woken, about to retake the mutex
    | SinkFlushing(view: FlushView, count: nat, flight: nat)      // predicate held, about to flush sinks

  datatype Stopper = NotStopping | Closing | NotifyingEmpty | NotifyingFull | Joining | Joined

  /** What the worker writes with, and to. */
  datatype Output = Output(
    env: Patterns.Platform,
    pattern: string,
    stamped: bool,                 // the pattern uses a timestamp
    scratch: string,               // the worker's thread-local buffer
    memo: Memo,                    // and its timestamp cache
    sinks: seq<seq<string>>)       // buffers each sink received

  datatype State = State(
    out: Output,
    queue: Q.Model,
    running: bool,
    submitted: nat,
    processed: nat,
    mutex: Option<nat>,            // the flusher that holds m_flush_mutex
    producers: seq<Producer>,
    worker: Worker,
    flushers: seq<Flusher>,
    stopper: Stopper,
    // history
    handled: seq<LogRecord>,       // records the worker has formatted and written
    fates: seq<Fate>,              // what became of each of them
    drainedAt: nat)                // records accepted when the drain loop ended

  datatype Action =
    // producer i
    | LogBegin(i: nat, record: LogRecord) | PushSection(i: nat) | SpuriousFull(i: nat)
    | NotifyEmpty(i: nat) | CountSubmitted(i: nat)
    // worker
    | LoadRunning | PopSection | SpuriousEmpty | NotifyFull(woken: nat) | Handle(fate: Fate)
    | BumpProcessed | CompareSubmitted | NotifyFlush | FinishFlush
    // flusher j
    | FlushBegin(j: nat) | FlushLock(j: nat) | LoadProcessed(j: nat) | LoadSubmitted(j: nat)
    | SpuriousFlush(j: nat) | SinkFlush(j: nat)
    // stopper
    | StopBegin | StopClose | StopNotifyEmpty | StopNotifyFull | StopJoin

  predicate ByProducer(a: Action) {
    a.LogBegin? || a.PushSection? || a.SpuriousFull? || a.NotifyEmpty? || a.CountSubmitted?
  }

  predicate ByWorker(a: Action) {
    || a.LoadRunning? || a.PopSection? || a.SpuriousEmpty? || a.NotifyFull? || a.Handle?
    || a.BumpProcessed? || a.CompareSubmitted? || a.NotifyFlush? || a.FinishFlush?
  }

  predicate ByFlusher(a: Action) {
    a.FlushBegin? || a.FlushLock? || a.LoadProcessed? || a.LoadSubmitted? || a.SpuriousFlush? || a.SinkFlush?
  }

  predicate ByStopper(a: Action) {
    a.StopBegin? || a.StopClose? || a.StopNotifyEmpty? || a.StopNotifyFull? || a.StopJoin?
  }

  // ----- counting producers -----

  datatype Role = InFlight | Notifying | Waking | Parked

  predicate Plays(p: Producer, role: Role) {
    match role
    case InFlight => p.AboutToNotify? || p.AboutToCount?
    case Notifying => p.AboutToNotify?
    case Waking => p.WokenFull?
    case Parked => p.WaitingFull?
  }

  function One(p: Producer, role: Role): nat { if Plays(p, role) then 1 else 0 }

  function Count(ps: seq<Producer>, role: Role): nat {
    if ps == [] then 0 else One(ps[0], role) + Count(ps[1..], role)
  }

  predicate AllOutside(ps: seq<Producer>) {
    forall i | 0 <= i < |ps| :: ps[i].Outside?
  }

  // ----- one step -----

  function WakeWorker(w: Worker): Worker {
    if w.PopWaiting? then PopWoken(w.phase) else w
  }

  function WakeProducer(p: Producer): Producer {
    if p.WaitingFull? then WokenFull(p.record) else p
  }

  function WakeProducers(ps: seq<Producer>): (r: seq<Producer>)
    ensures |r| == |ps| && forall i | 0 <= i < |ps| :: r[i] == WakeProducer(ps[i])
  {
    seq(|ps|, i requires 0 <= i < |ps| => WakeProducer(ps[i]))
  }

  function WakeFlusher(f: Flusher): Flusher {
    if f.WaitingFlush? then WokenFlush(f.view) else f
  }

  function WakeFlushers(fs: seq<Flusher>): (r: seq<Flusher>)
    ensures |r| == |fs| && forall j | 0 <= j < |fs| :: r[j] == WakeFlusher(fs[j])
  {
    seq(|fs|, j requires 0 <= j < |fs| => WakeFlusher(fs[j]))
  }

  function Disturb(f: Flusher): Flusher {
    if f.Resting? then f else f.(view := f.view.(calm := false))
  }

  function DisturbAll(fs: seq<Flusher>): (r: seq<Flusher>)
    ensures |r| == |fs| && forall j | 0 <= j < |fs| :: r[j] == Disturb(fs[j])
  {
    seq(|fs|, j requires 0 <= j < |fs| => Disturb(fs[j]))
  }

  predicate HoldsMutex(f: Flusher) {
    f.Holding? || f.SawProcessed? || f.SawSubmitted? || f.SinkFlushing?
  }

  ghost predicate Enabled(s: State, a: Action) {
    match a
    case LogBegin(i, r) => i < |s.producers| && s.producers[i].Outside?
    case PushSection(i) =>
      && i < |s.producers| && (s.producers[i].Entering? || s.producers[i].WokenFull?)
      && Q.Oldest(s.queue) >= 0
      && Q.Push(s.queue, s.producers[i].record).0 != Q.Undefined
    case SpuriousFull(i) => i < |s.producers| && s.producers[i].WaitingFull?
    case NotifyEmpty(i) => i < |s.producers| && s.producers[i].AboutToNotify?
    case CountSubmitted(i) => i < |s.producers| && s.producers[i].AboutToCount?
    case LoadRunning => s.worker.LoopTop?
    case PopSection => (s.worker.PopEntering? || s.worker.PopWoken?) && Q.Oldest(s.queue) >= 0
    case SpuriousEmpty => s.worker.PopWaiting?
    case NotifyFull(k) =>
      && s.worker.PopNotifying?
      && (if k < |s.producers| && s.producers[k].WaitingFull? then true
          else forall i | 0 <= i < |s.producers| :: !s.producers[i].WaitingFull?)
    case Handle(fate) =>
      && s.worker.Handling? && (fate.Reaches? ==> fate.sinks <= |s.out.sinks|)
      && Possible(s.out.env, s.out.stamped, s.out.memo, s.worker.record, fate)
    case BumpProcessed => s.worker.Bumping?
    case CompareSubmitted => s.worker.Comparing?
    case NotifyFlush => s.worker.FlushNotifying? && s.mutex == None
    case FinishFlush => s.worker.FinalFlush?
    case FlushBegin(j) => j < |s.flushers| && s.flushers[j].Resting?
    case FlushLock(j) =>
      j < |s.flushers| && (s.flushers[j].Locking? || s.flushers[j].WokenFlush?) && s.mutex == None
    case LoadProcessed(j) => j < |s.flushers| && (s.flushers[j].Holding? || s.flushers[j].SawSubmitted?)
    case LoadSubmitted(j) => j < |s.flushers| && (s.flushers[j].Holding? || s.flushers[j].SawProcessed?)
    case SpuriousFlush(j) => j < |s.flushers| && s.flushers[j].WaitingFlush?
    case SinkFlush(j) => j < |s.flushers| && s.flushers[j].SinkFlushing?
    case StopBegin => s.stopper.NotStopping?
    case StopClose => s.stopper.Closing?
    case StopNotifyEmpty => s.stopper.NotifyingEmpty?
    case StopNotifyFull => s.stopper.NotifyingFull?
    case StopJoin => s.stopper.Joining? && s.worker.Exited?
  }

  function SetProducer(s: State, i: nat, p: Producer): State
    requires i < |s.producers|
  {
    s.(producers := s.producers[i := p])
  }

  function SetFlusher(s: State, j: nat, f: Flusher): State
    requires j < |s.flushers|
  {
    s.(flushers := s.flushers[j := f])
  }

  function DoPush(s: State, i: nat): State
    requires i < |s.producers| && (s.producers[i].Entering? || s.producers[i].WokenFull?)
    requires Q.Oldest(s.queue) >= 0
  {
    var r := s.producers[i].record;
    var (outcome, queue) := Q.Push(s.queue, r);
    var p := match outcome
      case Waits => WaitingFull(r)
      case Stored => AboutToNotify
      case _ => Outside;
    SetProducer(s, i, p).(queue := queue)
  }

  function DoPop(s: State): State
    requires (s.worker.PopEntering? || s.worker.PopWoken?) && Q.Oldest(s.queue) >= 0
  {
    var phase := s.worker.phase;
    var (outcome, queue) := Q.Pop(s.queue);
    match outcome
    case Starves => s.(worker := PopWaiting(phase))
    case Took(r) => s.(worker := PopNotifying(phase, r), queue := queue)
    case Ended =>
      if phase == Main then s.(worker := LoopTop)
      else s.(worker := FinalFlush, drainedAt := |s.queue.accepted|)
  }

  /** A line reaches the first few sinks. */
  function Deliver(sinks: seq<seq<string>>, line: string, reach: nat): (r: seq<seq<string>>)
    ensures |r| == |sinks|
  {
    seq(|sinks|, k requires 0 <= k < |sinks| => if k < reach then sinks[k] + [line] else sinks[k])
  }

  /** clear, format, write to the sinks in order; an exception ends it early. */
  function Write(o: Output, r: LogRecord, fate: Fate): Output {
    var cleared := o.(scratch := "", memo := MemoAfter(o.env, o.stamped, o.memo, r, fate));
    match fate
    case FormatThrows(partial, _) => cleared.(scratch := cleared.scratch + partial)
    case Reaches(n) =>
      var text := cleared.scratch + LineUnder(o.env, o.pattern, o.memo, r);
      cleared.(scratch := text, sinks := Deliver(o.sinks, text, n))
  }

  function DoHandle(s: State, fate: Fate): State
    requires s.worker.Handling?
  {
    var r := s.worker.record;
    s.(worker := Bumping(s.worker.phase), out := Write(s.out, r, fate),
       handled := s.handled + [r], fates := s.fates + [fate])
  }

  /** The predicate of flush has both values: pass, or park and give up the mutex. */
  function Decide(s: State, j: nat, processed: nat, submitted: nat, flight: nat): State
    requires j < |s.flushers| && !s.flushers[j].Resting?
  {
    var view := s.flushers[j].view;
    if processed == submitted then SetFlusher(s, j, SinkFlushing(view, processed, flight))
    else SetFlusher(s, j, WaitingFlush(view)).(mutex := None)
  }

  ghost function Apply(s: State, a: Action): State
    requires Enabled(s, a)
  {
    match a
    case LogBegin(i, r) => SetProducer(s, i, Entering(r)).(flushers := DisturbAll(s.flushers))
    case PushSection(i) => DoPush(s, i)
    case SpuriousFull(i) => SetProducer(s, i, WokenFull(s.producers[i].record))
    case NotifyEmpty(i) => SetProducer(s, i, AboutToCount).(worker := WakeWorker(s.worker))
    case CountSubmitted(i) => SetProducer(s, i, Outside).(submitted := s.submitted + 1)
    case LoadRunning => s.(worker := PopEntering(if s.running then Main else Drain))
    case PopSection => DoPop(s)
    case SpuriousEmpty => s.(worker := PopWoken(s.worker.phase))
    case NotifyFull(k) =>
      s.(worker := Handling(s.worker.phase, s.worker.record),
         producers := if k < |s.producers| && s.producers[k].WaitingFull?
                      then s.producers[k := WokenFull(s.producers[k].record)] else s.producers)
    case Handle(fate) => DoHandle(s, fate)
    case BumpProcessed =>
      s.(processed := s.processed + 1,
         worker := if s.worker.phase == Main then Comparing(s.processed + 1) else PopEntering(Drain))
    case CompareSubmitted =>
      s.(worker := if s.worker.count == s.submitted then FlushNotifying else LoopTop)
    case NotifyFlush => s.(worker := LoopTop, flushers := WakeFlushers(s.flushers))
    case FinishFlush => s.(worker := Exited)
    case FlushBegin(j) =>
      SetFlusher(s, j, Locking(FlushView(|s.queue.accepted|, Count(s.producers, InFlight), AllOutside(s.producers))))
    case FlushLock(j) => SetFlusher(s, j, Holding(s.flushers[j].view)).(mutex := Some(j))
    case LoadProcessed(j) =>
      if s.flushers[j].Holding? then SetFlusher(s, j, SawProcessed(s.flushers[j].view, s.processed))
      else Decide(s, j, s.processed, s.flushers[j].submitted, s.flushers[j].flight)
    case LoadSubmitted(j) =>
      var flight := Count(s.producers, InFlight);
      if s.flushers[j].Holding? then SetFlusher(s, j, SawSubmitted(s.flushers[j].view, s.submitted, flight))
      else Decide(s, j, s.flushers[j].processed, s.submitted, flight)
    case SpuriousFlush(j) => SetFlusher(s, j, WokenFlush(s.flushers[j].view))
    case SinkFlush(j) => SetFlusher(s, j, Resting).(mutex := None)
    case StopBegin => s.(stopper := Closing, running := false)
    case StopClose => s.(stopper := NotifyingEmpty, queue := Q.Close(s.queue))
    case StopNotifyEmpty => s.(stopper := NotifyingFull, worker := WakeWorker(s.worker))
    case StopNotifyFull => s.(stopper := Joining, producers := WakeProducers(s.producers))
    case StopJoin => s.(stopper := Joined)
  }

  // ----- runs -----

  ghost predicate Initial(s: State) {
    && s.out.stamped == UsesStamp(s.out.pattern)
    && s.queue == Q.Fresh(s.queue.capacity, s.queue.policy)
    && s.running && s.submitted == 0 && s.processed == 0 && s.mutex == None
    && AllOutside(s.producers) && s.worker == LoopTop && s.stopper == NotStopping
    && (forall j | 0 <= j < |s.flushers| :: s.flushers[j].Resting?)
    && (forall k | 0 <= k < |s.out.sinks| :: s.out.sinks[k] == [])
    && s.out.memo == EMPTY && s.handled == [] && s.fates == [] && s.drainedAt == 0
  }

  /** Every action of the list is enabled when its turn comes. */
  ghost predicate Runs(s: State, acts: seq<Action>)
    decreases |acts|
  {
    acts == [] || (Enabled(s, acts[0]) && Runs(Apply(s, acts[0]), acts[1..]))
  }

  ghost function After(s: State, acts: seq<Action>): State
    requires Runs(s, acts)
    decreases |acts|
  {
    if acts == [] then s else After(Apply(s, acts[0]), acts[1..])
  }

  ghost predicate Reachable(s: State) {
    exists init, acts :: Initial(init) && Runs(init, acts) && After(init, acts) == s
  }

  /** A step some thread takes by itself: not a new call, not a spurious wake-up. */
  predicate Progress(a: Action) {
    && !a.LogBegin? && !a.FlushBegin? && !a.StopBegin?
    && !a.SpuriousFull? && !a.SpuriousEmpty? && !a.SpuriousFlush?
  }

  /** What the steps of a stretch of a run are limited to: flusher j's call not
      returning; besides, no call to log or stop beginning; only no call to log. */
  datatype Limit = SameCall(j: nat) | Undisturbed(j: nat) | NoNewLog

  predicate Allows(l: Limit, a: Action) {
    match l
    case SameCall(j) => a != SinkFlush(j)
    case Undisturbed(j) => a != SinkFlush(j) && !a.LogBegin? && !a.StopBegin?
    case NoNewLog => !a.LogBegin?
  }

  ghost predicate Within(acts: seq<Action>, l: Limit) {
    forall k | 0 <= k < |acts| :: Allows(l, acts[k])
  }

  /** s' can follow s by steps within the limit. */
  ghost predicate Leads(s: State, s': State, l: Limit) {
    exists acts :: Runs(s, acts) && Within(acts, l) && After(s, acts) == s'
  }

  lemma {:induction false} RunsSnoc(s: State, acts: seq<Action>, a: Action)
    requires Runs(s, acts) && Enabled(After(s, acts), a)
    ensures Runs(s, acts + [a]) && After(s, acts + [a]) == Apply(After(s, acts), a)
    decreases |acts|
  {
    if acts == [] {
      assert acts + [a] == [a];
      assert Runs(Apply(s, a), []);
    } else {
      RunsSnoc(Apply(s, acts[0]), acts[1..], a);
      assert (acts + [a])[1..] == acts[1..] + [a];
    }
  }

  lemma InitialIsReachable(s: State)
    requires Initial(s)
    ensures Reachable(s)
  {
    assert Runs(s, []) && After(s, []) == s;
  }

  lemma ReachableStep(s: State, a: Action)
    requires Reachable(s) && Enabled(s, a)
    ensures Reachable(Apply(s, a))
  {
    var init, acts :| Initial(init) && Runs(init, acts) && After(init, acts) == s;
    RunsSnoc(init, acts, a);
  }

  lemma {:induction false} ReachableAfter(s: State, acts: seq<Action>)
    requires Reachable(s) && Runs(s, acts)
    ensures Reachable(After(s, acts))
    decreases |acts|
  {
    if acts != [] {
      ReachableStep(s, acts[0]);
      ReachableAfter(Apply(s, acts[0]), acts[1..]);
    }
  }

  lemma LeadsSelf(s: State, l: Limit)
    ensures Leads(s, s, l)
  {
    assert Runs(s, []) && After(s, []) == s && Within([], l);
  }

  lemma LeadsStep(s: State, s': State, l: Limit, a: Action)
    requires Leads(s, s', l) && Enabled(s', a) && Allows(l, a)
    ensures Leads(s, Apply(s', a), l)
  {
    var acts :| Runs(s, acts) && Within(acts, l) && After(s, acts) == s';
    RunsSnoc(s, acts, a);
    assert Within(acts + [a], l);
  }

  lemma LeadsReachable(s: State, s': State, l: Limit)
    requires Reachable(s) && Leads(s, s', l)
    ensures Reachable(s')
  {
    var acts :| Runs(s, acts) && Within(acts, l) && After(s, acts) == s';
    ReachableAfter(s, acts);
  }

  // ----- laws of counting -----

  lemma {:induction false} CountUpdate(ps: seq<Producer>, i: nat, p: Producer, role: Role)
    requires i < |ps|
    ensures Count(ps[i := p], role) + One(ps[i], role) == Count(ps, role) + One(p, role)
  {
    var ps' := ps[i := p];
    if i == 0 {
      assert ps'[1..] == ps[1..];
    } else {
      CountUpdate(ps[1..], i - 1, p, role);
      assert ps'[1..] == ps[1..][i - 1 := p];
    }
  }

  /** The same update seen by all four roles. */
  lemma CountsUpdate(ps: seq<Producer>, i: nat, p: Producer)
    requires i < |ps|
    ensures forall role :: Count(ps[i := p], role) + One(ps[i], role) == Count(ps, role) + One(p, role)
  {
    forall role ensures Count(ps[i := p], role) + One(ps[i], role) == Count(ps, role) + One(p, role) {
      CountUpdate(ps, i, p, role);
    }
  }

  lemma {:induction false} CountZero(ps: seq<Producer>, role: Role)
    ensures Count(ps, role) == 0 <==> forall i | 0 <= i < |ps| :: !Plays(ps[i], role)
  {
    if ps != [] {
      CountZero(ps[1..], role);
      assert forall i | 0 < i < |ps| :: ps[i] == ps[1..][i - 1];
    }
  }

  lemma {:induction false} CountWoken(ps: seq<Producer>)
    ensures Count(WakeProducers(ps), InFlight) == Count(ps, InFlight)
    ensures Count(WakeProducers(ps), Notifying) == Count(ps, Notifying)
    ensures Count(WakeProducers(ps), Parked) == 0
  {
    if ps != [] {
      CountWoken(ps[1..]);
      assert WakeProducers(ps)[1..] == WakeProducers(ps[1..]);
    }
  }
}
