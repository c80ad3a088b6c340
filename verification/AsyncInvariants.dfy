/** What every step of the asynchronous backend keeps. */
module AsyncInvariants {
  import opened Records
  import opened Memos
  import opened AsyncProtocol
  import Q = QueueModel

  // ----- the invariants -----

  function InHand(w: Worker): nat {
    if w.PopNotifying? || w.Handling? || w.Bumping? then 1 else 0
  }

  ghost predicate QueueInv(s: State) { Q.Consistent(s.queue) }

  /** Everything accepted is counted as submitted or about to be; everything
      delivered is counted as processed or in the worker's hand. */
  ghost predicate CounterInv(s: State) {
    && s.submitted + Count(s.producers, InFlight) == |s.queue.accepted|
    && s.processed + InHand(s.worker) == |s.queue.delivered|
    && (s.worker.Comparing? ==> s.worker.count == s.processed)
  }

  /** The worker handles delivered records in delivery order, each exactly once. */
  ghost predicate OrderInv(s: State) { Ordered(s.queue, s.worker, s.handled, s.fates, s.processed) }

  ghost predicate Ordered(q: Q.Model, w: Worker, handled: seq<LogRecord>, fates: seq<Fate>, processed: nat) {
    && |handled| == processed + (if w.Bumping? then 1 else 0)
    && |fates| == |handled|
    && |q.delivered| == processed + InHand(w)
    && (forall k | 0 <= k < |q.delivered| :: q.delivered[k] < |q.accepted|)
    && (forall k | 0 <= k < |handled| :: handled[k] == q.accepted[q.delivered[k]])
    && (w.PopNotifying? || w.Handling? ==> w.record == q.accepted[q.delivered[processed]])
  }

  predicate Draining(w: Worker) {
    match w
    case PopEntering(phase) => phase == Drain
    case PopWaiting(phase) => phase == Drain
    case PopWoken(phase) => phase == Drain
    case PopNotifying(phase, _) => phase == Drain
    case Handling(phase, _) => phase == Drain
    case Bumping(phase) => phase == Drain
    case _ => false
  }

  /** How many of the records accepted since the drain loop ended fit the queue. */
  function LeftOver(s: State): nat {
    var late: int := |s.queue.accepted| - s.drainedAt;
    if late <= 0 then 0 else if late <= s.queue.capacity then late else s.queue.capacity
  }

  /** The stop flags, the stopper and the worker's phases go together. */
  ghost predicate LifeInv(s: State) {
    && (s.running <==> s.stopper.NotStopping?)
    && (s.queue.closed <==> !s.stopper.NotStopping? && !s.stopper.Closing?)
    && (Draining(s.worker) ==> !s.running)
    && (s.worker.FinalFlush? || s.worker.Exited? ==>
          && s.queue.closed
          && s.drainedAt <= |s.queue.accepted|
          && |s.queue.items| == LeftOver(s)
          && (s.queue.policy == Block ==> s.drainedAt == |s.queue.accepted|))
    && (s.stopper.Joined? ==> s.worker.Exited?)
  }

  /** No wake-up of the queue's condition variables is ever lost. */
  ghost predicate WakeInv(s: State) {
    && |s.queue.items| <= s.queue.capacity
    && (!s.queue.closed && Count(s.producers, Parked) > 0 ==>
          s.queue.capacity - |s.queue.items| <=
            (if s.worker.PopNotifying? then 1 else 0) + Count(s.producers, Waking))
    && (!s.queue.closed && s.worker.PopWaiting? ==> |s.queue.items| <= Count(s.producers, Notifying))
    && (s.queue.closed && Count(s.producers, Parked) > 0 ==>
          s.stopper.NotifyingEmpty? || s.stopper.NotifyingFull?)
    && (s.queue.closed && s.worker.PopWaiting? ==> s.stopper.NotifyingEmpty?)
    && (s.queue.policy != Block ==> Count(s.producers, Parked) == 0)
  }

  /** m_flush_mutex has the one holder it says it has. */
  ghost predicate MutexInv(s: State) {
    && (forall j | 0 <= j < |s.flushers| :: HoldsMutex(s.flushers[j]) <==> s.mutex == Some(j))
    && (s.mutex.Some? ==> s.mutex.value < |s.flushers|)
  }

  /** One flush call: what its loads can have missed is bounded by the records
      that were pushed but not yet counted. */
  ghost predicate FlushBound(s: State, f: Flusher) {
    && (!f.Resting? ==>
          && f.view.began <= |s.queue.accepted|
          && f.view.began <= s.submitted + f.view.flightAtBegin)
    && (f.SawProcessed? ==> f.processed <= s.processed)
    && (f.SawSubmitted? ==>
          f.view.began <= f.submitted + f.flight && f.view.began <= f.submitted + f.view.flightAtBegin)
    && (f.SinkFlushing? ==>
          && f.count <= s.processed
          && f.view.began <= f.count + f.flight && f.view.began <= f.count + f.view.flightAtBegin)
  }

  ghost predicate FlushInv(s: State) {
    forall j | 0 <= j < |s.flushers| :: FlushBound(s, s.flushers[j])
  }

  /** The worker has made m_processed reach m_submitted and is on its way to notify. */
  predicate Announcing(s: State) {
    (s.worker.Comparing? && s.worker.count == s.submitted) || s.worker.FlushNotifying?
  }

  /** One undisturbed flush call while the backend runs: it cannot be parked, nor be
      about to park, after the counters have met unless a notification is coming. */
  ghost predicate CalmBound(s: State, f: Flusher) {
    !f.Resting? && f.view.calm ==>
      && AllOutside(s.producers)
      && (s.running && f.SawProcessed? && f.processed != s.submitted && s.processed == s.submitted ==> Announcing(s))
      && (f.SawSubmitted? ==> f.submitted == s.submitted)
      && (f.SinkFlushing? ==> f.count == s.submitted)
      && (s.running && f.WaitingFlush? && s.processed == s.submitted ==> Announcing(s))
  }

  ghost predicate CalmInv(s: State) {
    forall j | 0 <= j < |s.flushers| :: CalmBound(s, s.flushers[j])
  }

  /** Memo and sinks are what the handled records and their fates make of them. */
  ghost predicate SinkInv(s: State) {
    && |s.fates| == |s.handled| && s.out.stamped == UsesStamp(s.out.pattern)
    && s.out.memo == MemoOf(s.out.env, s.out.pattern, EMPTY, s.handled, s.fates)
    && forall k | 0 <= k < |s.out.sinks| ::
         s.out.sinks[k] == Received(s.out.env, s.out.pattern, EMPTY, s.handled, s.fates, k)
  }

  ghost predicate Inv(s: State) {
    && QueueInv(s) && CounterInv(s) && OrderInv(s) && LifeInv(s) && WakeInv(s)
    && MutexInv(s) && FlushInv(s) && CalmInv(s) && SinkInv(s)
  }

  // ----- the queue part of a step -----

  /** What one step can do to the queue. */
  lemma QueueStep(s: State, a: Action)
    requires QueueInv(s) && Enabled(s, a)
    ensures QueueInv(Apply(s, a))
  {
    match a {
      case PushSection(i) => Q.PushKeepsConsistent(s.queue, s.producers[i].record);
      case PopSection => Q.PopKeepsConsistent(s.queue);
      case _ =>
    }
  }

  /** The step's effect on how many producers play each role. */
  lemma RolesStep(s: State, a: Action)
    requires Enabled(s, a)
    ensures var ps, ps' := s.producers, Apply(s, a).producers;
      && |ps'| == |ps|
      && (ByProducer(a) ==>
            forall role :: Count(ps', role) + One(ps[a.i], role) == Count(ps, role) + One(ps'[a.i], role))
      && (a.NotifyFull? ==>
            if Count(ps, Parked) == 0 then ps' == ps
            else
              && Count(ps', InFlight) == Count(ps, InFlight) && Count(ps', Notifying) == Count(ps, Notifying)
              && Count(ps', Parked) == Count(ps, Parked) - 1 && Count(ps', Waking) == Count(ps, Waking) + 1)
      && (a.StopNotifyFull? ==>
            && Count(ps', InFlight) == Count(ps, InFlight) && Count(ps', Notifying) == Count(ps, Notifying)
            && Count(ps', Parked) == 0)
  {
    var ps, ps' := s.producers, Apply(s, a).producers;
    if ByProducer(a) {
      assert ps' == ps[a.i := ps'[a.i]];
      CountsUpdate(ps, a.i, ps'[a.i]);
    } else if a.NotifyFull? {
      CountZero(ps, Parked);
      if a.woken < |ps| && ps[a.woken].WaitingFull? { CountsUpdate(ps, a.woken, ps'[a.woken]); }
    } else if a.StopNotifyFull? {
      CountWoken(ps);
    }
  }

  // ----- preservation, one invariant at a time -----

  lemma CounterByProducer(s: State, a: Action)
    requires CounterInv(s) && Enabled(s, a) && ByProducer(a)
    ensures CounterInv(Apply(s, a))
  {
    RolesStep(s, a);
  }

  lemma CounterByWorker(s: State, a: Action)
    requires CounterInv(s) && Enabled(s, a) && ByWorker(a)
    ensures CounterInv(Apply(s, a))
  {
    RolesStep(s, a);
  }

  lemma CounterStep(s: State, a: Action)
    requires CounterInv(s) && Enabled(s, a)
    ensures CounterInv(Apply(s, a))
  {
    if ByProducer(a) { CounterByProducer(s, a); }
    else if ByWorker(a) { CounterByWorker(s, a); }
    else { RolesStep(s, a); }
  }

  lemma OrderPop(s: State)
    requires OrderInv(s) && QueueInv(s) && Enabled(s, PopSection)
    ensures OrderInv(Apply(s, PopSection))
  {
    if s.queue.items != [] {
      assert s.queue.items[0] == s.queue.accepted[Q.Oldest(s.queue)];
    }
  }

  lemma OrderPush(s: State, i: nat)
    requires OrderInv(s) && Enabled(s, PushSection(i))
    ensures OrderInv(Apply(s, PushSection(i)))
  {}

  lemma OrderByWorker(s: State, a: Action)
    requires OrderInv(s) && Enabled(s, a) && ByWorker(a) && !a.PopSection?
    ensures OrderInv(Apply(s, a))
  {}

  /** Flushers, the stopper and all producer steps but the push leave alone what the
      worker's order of work is about; so do they the worker, up to waking it. */
  lemma OrderFrame(s: State, a: Action)
    requires Enabled(s, a) && !ByWorker(a) && !a.PushSection?
    ensures var s' := Apply(s, a);
      && s'.handled == s.handled && s'.fates == s.fates && s'.processed == s.processed
      && (s'.queue == s.queue || s'.queue == Q.Close(s.queue))
      && (s'.worker == s.worker || s'.worker == WakeWorker(s.worker))
  {}

  /** A flusher's step changes only flushers and the mutex. */
  lemma FlusherFrame(s: State, a: Action)
    requires Enabled(s, a) && ByFlusher(a)
    ensures Apply(s, a) == s.(flushers := Apply(s, a).flushers, mutex := Apply(s, a).mutex)
  {}

  lemma OrderUntouched(s: State, a: Action)
    requires OrderInv(s) && Enabled(s, a) && !ByWorker(a) && !a.PushSection?
    ensures OrderInv(Apply(s, a))
  {
    OrderFrame(s, a);
  }

  lemma OrderStep(s: State, a: Action)
    requires OrderInv(s) && QueueInv(s) && Enabled(s, a)
    ensures OrderInv(Apply(s, a))
  {
    if a.PopSection? { OrderPop(s); }
    else if a.PushSection? { OrderPush(s, a.i); }
    else if ByWorker(a) { OrderByWorker(s, a); }
    else { OrderUntouched(s, a); }
  }

  lemma LifeByWorker(s: State, a: Action)
    requires LifeInv(s) && Enabled(s, a) && ByWorker(a)
    ensures LifeInv(Apply(s, a))
  {}

  lemma LifeByOthers(s: State, a: Action)
    requires LifeInv(s) && Enabled(s, a) && !ByWorker(a)
    ensures LifeInv(Apply(s, a))
  {}

  lemma LifeStep(s: State, a: Action)
    requires LifeInv(s) && Enabled(s, a)
    ensures LifeInv(Apply(s, a))
  {
    if ByWorker(a) { LifeByWorker(s, a); } else { LifeByOthers(s, a); }
  }

  lemma WakeByProducer(s: State, a: Action)
    requires WakeInv(s) && LifeInv(s) && Enabled(s, a) && ByProducer(a)
    ensures WakeInv(Apply(s, a))
  {
    RolesStep(s, a);
  }

  lemma WakeByWorker(s: State, a: Action)
    requires WakeInv(s) && LifeInv(s) && Enabled(s, a) && ByWorker(a)
    ensures WakeInv(Apply(s, a))
  {
    RolesStep(s, a);
  }

  lemma WakeStep(s: State, a: Action)
    requires WakeInv(s) && LifeInv(s) && Enabled(s, a)
    ensures WakeInv(Apply(s, a))
  {
    if ByProducer(a) { WakeByProducer(s, a); }
    else if ByWorker(a) { WakeByWorker(s, a); }
    else { RolesStep(s, a); }
  }

  lemma MutexByFlusher(s: State, a: Action)
    requires MutexInv(s) && Enabled(s, a) && ByFlusher(a)
    ensures MutexInv(Apply(s, a))
  {}

  lemma MutexByOthers(s: State, a: Action)
    requires MutexInv(s) && Enabled(s, a) && !ByFlusher(a)
    ensures MutexInv(Apply(s, a))
  {}

  lemma MutexStep(s: State, a: Action)
    requires MutexInv(s) && Enabled(s, a)
    ensures MutexInv(Apply(s, a))
  {
    if ByFlusher(a) { MutexByFlusher(s, a); } else { MutexByOthers(s, a); }
  }

  lemma FlushersFixed(s: State, a: Action)
    requires Enabled(s, a)
    ensures |Apply(s, a).flushers| == |s.flushers|
  {}

  lemma FlushByProducer(s: State, a: Action, j: nat)
    requires j < |s.flushers| && FlushBound(s, s.flushers[j]) && CounterInv(s)
    requires Enabled(s, a) && ByProducer(a)
    ensures FlushBound(Apply(s, a), Apply(s, a).flushers[j])
  {}

  lemma FlushByWorker(s: State, a: Action, j: nat)
    requires j < |s.flushers| && FlushBound(s, s.flushers[j]) && CounterInv(s)
    requires Enabled(s, a) && ByWorker(a)
    ensures FlushBound(Apply(s, a), Apply(s, a).flushers[j])
  {}

  /** The load that comes second decides; a passing flush has seen at least its own count. */
  lemma FlushLoadsProcessed(s: State, i: nat, j: nat)
    requires j < |s.flushers| && FlushBound(s, s.flushers[j]) && CounterInv(s)
    requires Enabled(s, LoadProcessed(i))
    ensures FlushBound(Apply(s, LoadProcessed(i)), Apply(s, LoadProcessed(i)).flushers[j])
  {}

  lemma FlushLoadsSubmitted(s: State, i: nat, j: nat)
    requires j < |s.flushers| && FlushBound(s, s.flushers[j]) && CounterInv(s)
    requires Enabled(s, LoadSubmitted(i))
    ensures FlushBound(Apply(s, LoadSubmitted(i)), Apply(s, LoadSubmitted(i)).flushers[j])
  {}

  lemma FlushByFlusher(s: State, a: Action, j: nat)
    requires j < |s.flushers| && FlushBound(s, s.flushers[j]) && CounterInv(s)
    requires Enabled(s, a) && ByFlusher(a)
    ensures FlushBound(Apply(s, a), Apply(s, a).flushers[j])
  {
    if a.LoadProcessed? { FlushLoadsProcessed(s, a.j, j); }
    else if a.LoadSubmitted? { FlushLoadsSubmitted(s, a.j, j); }
  }

  lemma FlushByStopper(s: State, a: Action, j: nat)
    requires j < |s.flushers| && FlushBound(s, s.flushers[j]) && CounterInv(s)
    requires Enabled(s, a) && ByStopper(a)
    ensures FlushBound(Apply(s, a), Apply(s, a).flushers[j])
  {}

  lemma FlushStep(s: State, a: Action)
    requires FlushInv(s) && CounterInv(s) && Enabled(s, a)
    ensures FlushInv(Apply(s, a))
  {
    var s' := Apply(s, a);
    forall j: nat | j < |s'.flushers| ensures FlushBound(s', s'.flushers[j]) {
      FlushersFixed(s, a);
      assert FlushBound(s, s.flushers[j]);
      if ByProducer(a) { FlushByProducer(s, a, j); }
      else if ByWorker(a) { FlushByWorker(s, a, j); }
      else if ByFlusher(a) { FlushByFlusher(s, a, j); }
      else { FlushByStopper(s, a, j); }
    }
  }

  lemma CalmByProducer(s: State, a: Action, j: nat)
    requires j < |s.flushers| && CalmBound(s, s.flushers[j])
    requires CounterInv(s) && LifeInv(s) && (HoldsMutex(s.flushers[j]) ==> s.mutex == Some(j))
    requires Enabled(s, a) && ByProducer(a)
    ensures CalmBound(Apply(s, a), Apply(s, a).flushers[j])
  {}

  lemma CalmByWorker(s: State, a: Action, j: nat)
    requires j < |s.flushers| && CalmBound(s, s.flushers[j])
    requires CounterInv(s) && LifeInv(s) && (HoldsMutex(s.flushers[j]) ==> s.mutex == Some(j))
    requires Enabled(s, a) && ByWorker(a)
    ensures CalmBound(Apply(s, a), Apply(s, a).flushers[j])
  {}

  lemma CalmLoadsProcessed(s: State, i: nat, j: nat)
    requires j < |s.flushers| && CalmBound(s, s.flushers[j])
    requires CounterInv(s) && (HoldsMutex(s.flushers[j]) ==> s.mutex == Some(j))
    requires Enabled(s, LoadProcessed(i))
    ensures CalmBound(Apply(s, LoadProcessed(i)), Apply(s, LoadProcessed(i)).flushers[j])
  {}

  lemma CalmLoadsSubmitted(s: State, i: nat, j: nat)
    requires j < |s.flushers| && CalmBound(s, s.flushers[j])
    requires CounterInv(s) && (HoldsMutex(s.flushers[j]) ==> s.mutex == Some(j))
    requires Enabled(s, LoadSubmitted(i))
    ensures CalmBound(Apply(s, LoadSubmitted(i)), Apply(s, LoadSubmitted(i)).flushers[j])
  {}

  lemma CalmByFlusher(s: State, a: Action, j: nat)
    requires j < |s.flushers| && CalmBound(s, s.flushers[j])
    requires CounterInv(s) && (HoldsMutex(s.flushers[j]) ==> s.mutex == Some(j))
    requires Enabled(s, a) && ByFlusher(a)
    ensures CalmBound(Apply(s, a), Apply(s, a).flushers[j])
  {
    if a.LoadProcessed? { CalmLoadsProcessed(s, a.j, j); }
    else if a.LoadSubmitted? { CalmLoadsSubmitted(s, a.j, j); }
  }

  lemma CalmByStopper(s: State, a: Action, j: nat)
    requires j < |s.flushers| && CalmBound(s, s.flushers[j])
    requires CounterInv(s) && LifeInv(s) && (HoldsMutex(s.flushers[j]) ==> s.mutex == Some(j))
    requires Enabled(s, a) && ByStopper(a)
    ensures CalmBound(Apply(s, a), Apply(s, a).flushers[j])
  {}

  lemma CalmStep(s: State, a: Action)
    requires CalmInv(s) && CounterInv(s) && MutexInv(s) && LifeInv(s) && Enabled(s, a)
    ensures CalmInv(Apply(s, a))
  {
    var s' := Apply(s, a);
    forall j: nat | j < |s'.flushers| ensures CalmBound(s', s'.flushers[j]) {
      FlushersFixed(s, a);
      assert CalmBound(s, s.flushers[j]) && (HoldsMutex(s.flushers[j]) ==> s.mutex == Some(j));
      if ByProducer(a) { CalmByProducer(s, a, j); }
      else if ByWorker(a) { CalmByWorker(s, a, j); }
      else if ByFlusher(a) { CalmByFlusher(s, a, j); }
      else { CalmByStopper(s, a, j); }
    }
  }

  /** A step that handles nothing. */
  lemma SinkFrame(s: State, a: Action)
    requires Enabled(s, a) && !a.Handle?
    ensures Apply(s, a).out == s.out && Apply(s, a).handled == s.handled && Apply(s, a).fates == s.fates
  {}

  /** Handling a record: the line reaches the sinks its fate lets it reach. */
  lemma WriteFacts(o: Output, r: LogRecord, fate: Fate)
    ensures var o' := Write(o, r, fate);
      && o'.env == o.env && o'.pattern == o.pattern && o'.stamped == o.stamped
      && o'.memo == MemoAfter(o.env, o.stamped, o.memo, r, fate)
      && o'.sinks == Deliver(o.sinks, LineUnder(o.env, o.pattern, o.memo, r), Reach(fate))
  {
    var line := LineUnder(o.env, o.pattern, o.memo, r);
    assert "" + line == line;
    if fate.FormatThrows? { assert Deliver(o.sinks, line, 0) == o.sinks; }
  }

  lemma SinkHandle(s: State, fate: Fate)
    requires SinkInv(s) && s.worker.Handling?
    ensures SinkInv(DoHandle(s, fate))
  {
    var s', o, r := DoHandle(s, fate), s.out, s.worker.record;
    WriteFacts(o, r, fate);
    MemoOfSnoc(o.env, o.pattern, EMPTY, s.handled, s.fates, r, fate);
    forall k: nat | k < |s'.out.sinks|
      ensures s'.out.sinks[k] == Received(o.env, o.pattern, EMPTY, s'.handled, s'.fates, k)
    {
      ReceivedSnoc(o.env, o.pattern, EMPTY, s.handled, s.fates, r, fate, k);
    }
  }

  lemma SinkStep(s: State, a: Action)
    requires SinkInv(s) && Enabled(s, a)
    ensures SinkInv(Apply(s, a))
  {
    if a.Handle? { SinkHandle(s, a.fate); } else { SinkFrame(s, a); }
  }

  lemma InvStep(s: State, a: Action)
    requires Inv(s) && Enabled(s, a)
    ensures Inv(Apply(s, a))
  {
    QueueStep(s, a);
    CounterStep(s, a);
    OrderStep(s, a);
    LifeStep(s, a);
    WakeStep(s, a);
    MutexStep(s, a);
    FlushStep(s, a);
    CalmStep(s, a);
    SinkStep(s, a);
  }

  lemma InitialInv(s: State)
    requires Initial(s)
    ensures Inv(s)
  {
    CountZero(s.producers, InFlight);
    CountZero(s.producers, Parked);
    assert Q.Consistent(s.queue);
  }

  lemma {:induction false} InvAfter(s: State, acts: seq<Action>)
    requires Inv(s) && Runs(s, acts)
    ensures Inv(After(s, acts))
    decreases |acts|
  {
    if acts != [] {
      InvStep(s, acts[0]);
      InvAfter(Apply(s, acts[0]), acts[1..]);
    }
  }

  /** Every invariant holds in every reachable state. */
  lemma ReachableInv(s: State)
    requires Reachable(s)
    ensures Inv(s)
  {
    var init, acts :| Initial(init) && Runs(init, acts) && After(init, acts) == s;
    InitialInv(init);
    InvAfter(init, acts);
  }
}
