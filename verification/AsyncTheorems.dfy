/** What the asynchronous backend guarantees in every reachable state. */
module AsyncTheorems {
  import opened Records
  import opened Memos
  import opened AsyncProtocol
  import opened AsyncInvariants
  import Q = QueueModel

  // ----- counters -----

  /** Under every policy, whatever throws: pushes counted or about to be counted
      are exactly the records processed, in hand, queued or evicted. */
  lemma CountersConserved(s: State)
    requires Reachable(s)
    ensures s.submitted + Count(s.producers, InFlight)
         == s.processed + InHand(s.worker) + |s.queue.items| + |s.queue.evicted|
  {
    ReachableInv(s);
  }

  lemma {:induction false} EvictionsStay(s: State, acts: seq<Action>)
    requires Inv(s) && Runs(s, acts)
    ensures |s.queue.evicted| <= |After(s, acts).queue.evicted|
    decreases |acts|
  {
    if acts != [] {
      InvStep(s, acts[0]);
      EvictionsStayStep(s, acts[0]);
      EvictionsStay(Apply(s, acts[0]), acts[1..]);
    }
  }

  lemma EvictionsStayStep(s: State, a: Action)
    requires Enabled(s, a)
    ensures |s.queue.evicted| <= |Apply(s, a).queue.evicted|
  {}

  /** Once a record has been evicted, at every later moment without a push between
      storing and counting the counters differ. A flush loads them at two moments,
      so this alone does not stop it. */
  lemma CountersApartAfterEviction(s: State, acts: seq<Action>)
    requires Reachable(s) && s.queue.evicted != [] && Runs(s, acts)
    requires Count(After(s, acts).producers, InFlight) == 0
    ensures After(s, acts).processed < After(s, acts).submitted
  {
    ReachableInv(s);
    EvictionsStay(s, acts);
    InvAfter(s, acts);
  }

  /** What does: no log() running when the call began and none started since. Such a
      call passes only if nothing was ever evicted. */
  lemma NoCalmPassAfterEviction(s: State, j: nat)
    requires Reachable(s) && j < |s.flushers| && !s.flushers[j].Resting? && s.flushers[j].view.calm
    requires s.queue.evicted != []
    ensures !s.flushers[j].SinkFlushing?
  {
    ReachableInv(s);
    assert CalmBound(s, s.flushers[j]) && FlushBound(s, s.flushers[j]);
    CountZero(s.producers, InFlight);
  }

  // ----- delivery -----

  /** The record the worker has popped but not handled yet. */
  function HandRecord(w: Worker): seq<LogRecord> {
    if w.PopNotifying? || w.Handling? then [w.record] else []
  }

  lemma {:induction false} IncreasingAtLeast(d: seq<nat>, k: nat)
    requires Q.Increasing(d) && k < |d|
    ensures d[k] >= k
  {
    if k > 0 { IncreasingAtLeast(d, k - 1); }
  }

  lemma {:induction false} IncreasingAtMost(d: seq<nat>, k: nat, n: nat)
    requires Q.Increasing(d) && k < |d| && forall x | x in d :: x < n
    ensures d[k] + (|d| - k) <= n
    decreases |d| - k
  {
    assert d[k] in d;
    if k + 1 < |d| { IncreasingAtMost(d, k + 1, n); }
  }

  /** With nothing evicted, the i-th delivery is the i-th accepted record. */
  lemma DeliveredIsPrefix(q: Q.Model, k: nat)
    requires Q.Consistent(q) && q.evicted == [] && k < |q.delivered|
    ensures q.delivered[k] == k
  {
    IncreasingAtLeast(q.delivered, k);
    IncreasingAtMost(q.delivered, k, Q.Oldest(q));
  }

  lemma HandledIsPrefix(s: State)
    requires QueueInv(s) && OrderInv(s) && s.queue.evicted == []
    ensures |s.handled| + |HandRecord(s.worker)| + |s.queue.items| == |s.queue.accepted|
    ensures s.handled + HandRecord(s.worker) == s.queue.accepted[..Q.Oldest(s.queue)]
  {
    forall k: nat | k < |s.queue.delivered| ensures s.queue.delivered[k] == k {
      DeliveredIsPrefix(s.queue, k);
    }
  }

  /** Exactly once, in acceptance order: in every reachable state, as long as
      nothing was evicted, what was handled, what is in hand and what is queued
      are together the accepted records. Only DropOldest ever evicts; under it the
      handled records are still accepted ones in increasing order. */
  lemma ExactlyOnceFifo(s: State)
    requires Reachable(s)
    ensures s.queue.policy != DropOldest ==> s.queue.evicted == []
    ensures s.queue.evicted == [] ==>
      s.handled + HandRecord(s.worker) + s.queue.items == s.queue.accepted
    ensures Q.Increasing(s.queue.delivered) && |s.handled| <= |s.queue.delivered|
    ensures forall k: nat | k < |s.handled| ::
      s.queue.delivered[k] < |s.queue.accepted| && s.handled[k] == s.queue.accepted[s.queue.delivered[k]]
  {
    ReachableInv(s);
    if s.queue.evicted == [] {
      HandledIsPrefix(s);
      assert s.queue.accepted == s.queue.accepted[..Q.Oldest(s.queue)] + s.queue.items;
    }
  }

  /** When the worker has exited: under Block everything accepted was handled.
      Under any policy, what is left in the queue are the newest records accepted
      after the drain loop ended, as many as it has room for, and unless something
      was evicted, everything before them was handled. */
  lemma AfterExit(s: State)
    requires Reachable(s) && s.worker.Exited?
    ensures s.queue.policy == Block ==> s.handled == s.queue.accepted && s.queue.items == []
    ensures LeftOver(s) <= |s.queue.accepted|
    ensures s.queue.items == s.queue.accepted[|s.queue.accepted| - LeftOver(s)..]
    ensures s.queue.evicted == [] ==> s.handled == s.queue.accepted[..|s.queue.accepted| - LeftOver(s)]
  {
    ReachableInv(s);
    if s.queue.evicted == [] {
      HandledIsPrefix(s);
      assert s.handled + [] == s.handled;
    }
    assert s.queue.accepted[..|s.queue.accepted|] == s.queue.accepted;
  }

  /** Block accepts nothing once the queue is closed. */
  lemma {:induction false} NothingAcceptedAfterClose(s: State, acts: seq<Action>)
    requires s.queue.closed && s.queue.policy == Block && Runs(s, acts)
    ensures After(s, acts).queue.accepted == s.queue.accepted && After(s, acts).queue.closed
    decreases |acts|
  {
    if acts != [] {
      ClosedBlockStep(s, acts[0]);
      NothingAcceptedAfterClose(Apply(s, acts[0]), acts[1..]);
    }
  }

  lemma ClosedBlockStep(s: State, a: Action)
    requires s.queue.closed && s.queue.policy == Block && Enabled(s, a)
    ensures Apply(s, a).queue.accepted == s.queue.accepted
    ensures Apply(s, a).queue.closed && Apply(s, a).queue.policy == Block
  {}

  // ----- no lost wake-up, no deadlock -----

  /** Free room never exceeds the not-full notifications still owed plus the
      producers already woken while anyone is parked; queued records never exceed
      the not-empty notifications still owed while the worker is parked; and after
      shutdown whoever is parked has a notify_all still coming. */
  lemma NoLostWakeup(s: State)
    requires Reachable(s)
    ensures !s.queue.closed && Count(s.producers, Parked) > 0 ==>
      s.queue.capacity - |s.queue.items| <=
        (if s.worker.PopNotifying? then 1 else 0) + Count(s.producers, Waking)
    ensures !s.queue.closed && s.worker.PopWaiting? ==> |s.queue.items| <= Count(s.producers, Notifying)
    ensures s.queue.closed && Count(s.producers, Parked) > 0 ==>
      s.stopper.NotifyingEmpty? || s.stopper.NotifyingFull?
    ensures s.queue.closed && s.worker.PopWaiting? ==> s.stopper.NotifyingEmpty?
    // so worker and producers are never parked together with nothing on its way
    ensures s.queue.capacity > 0 && s.worker.PopWaiting? && Count(s.producers, Parked) > 0 ==>
      Count(s.producers, Notifying) > 0 || Count(s.producers, Waking) > 0 || s.stopper.NotifyingEmpty?
  {
    ReachableInv(s);
  }

  /** At rest: no call to log in progress, the worker parked on an empty open queue
      or gone, every flush absent or parked, and no stop half done. */
  ghost predicate Quiescent(s: State) {
    && AllOutside(s.producers)
    && (s.worker.Exited? || (s.worker.PopWaiting? && s.queue.items == [] && !s.queue.closed))
    && (forall j | 0 <= j < |s.flushers| :: s.flushers[j].Resting? || s.flushers[j].WaitingFlush?)
    && (s.stopper.NotStopping? || s.stopper.Joined?)
  }

  ghost predicate CanMove(s: State) {
    exists a :: Progress(a) && Enabled(s, a)
  }

  lemma Moves(s: State, a: Action)
    requires Progress(a) && Enabled(s, a)
    ensures CanMove(s)
  {}

  /** Whoever holds m_flush_mutex can go on. */
  lemma HolderMoves(s: State)
    requires MutexInv(s) && s.mutex.Some?
    ensures CanMove(s)
  {
    var j := s.mutex.value;
    assert HoldsMutex(s.flushers[j]);
    if s.flushers[j].SinkFlushing? { Moves(s, SinkFlush(j)); }
    else if s.flushers[j].SawProcessed? { Moves(s, LoadSubmitted(j)); }
    else { Moves(s, LoadProcessed(j)); }
  }

  lemma FlusherMoves(s: State, j: nat)
    requires MutexInv(s) && j < |s.flushers|
    requires !s.flushers[j].Resting? && !s.flushers[j].WaitingFlush?
    ensures CanMove(s)
  {
    if s.mutex.Some? { HolderMoves(s); }
    else { assert !HoldsMutex(s.flushers[j]); Moves(s, FlushLock(j)); }
  }

  /** The queue can take or refuse every push: it has room for a record, or drops
      what it has no room for. */
  predicate Usable(capacity: nat, policy: OverflowPolicy) {
    capacity > 0 || policy == DropNewest || policy == Discard
  }

  /** No push is under way that the queue could not take or refuse. */
  ghost predicate Served(s: State) {
    Usable(s.queue.capacity, s.queue.policy) || AllOutside(s.producers)
  }

  /** The invariants that progress rests on; they do not mention the counters. */
  ghost predicate Sound(s: State) {
    QueueInv(s) && LifeInv(s) && WakeInv(s) && MutexInv(s)
  }

  /** A producer that is not parked can go on. */
  lemma ProducerMoves(s: State, i: nat)
    requires QueueInv(s) && Served(s) && i < |s.producers|
    requires !s.producers[i].Outside? && !s.producers[i].WaitingFull?
    ensures CanMove(s)
  {
    match s.producers[i] {
      case AboutToNotify => Moves(s, NotifyEmpty(i));
      case AboutToCount => Moves(s, CountSubmitted(i));
      case Entering(r) => Q.PushOutcomes(s.queue, r); Moves(s, PushSection(i));
      case WokenFull(r) => Q.PushOutcomes(s.queue, r); Moves(s, PushSection(i));
    }
  }

  lemma RoleMoves(s: State, role: Role)
    requires QueueInv(s) && Served(s) && role != Parked && Count(s.producers, role) > 0
    ensures CanMove(s)
  {
    CountZero(s.producers, role);
    var i: nat :| i < |s.producers| && Plays(s.producers[i], role);
    ProducerMoves(s, i);
  }

  /** A worker that is neither parked nor gone can go on, or the mutex holder can. */
  lemma WorkerMoves(s: State)
    requires QueueInv(s) && MutexInv(s)
    requires !s.worker.PopWaiting? && !s.worker.Exited? && !s.worker.PopNotifying?
    ensures CanMove(s)
  {
    match s.worker {
      case LoopTop => Moves(s, LoadRunning);
      case PopEntering(_) => Moves(s, PopSection);
      case PopWoken(_) => Moves(s, PopSection);
      case Handling(_, _) => Moves(s, Handle(Reaches(0)));
      case Bumping(_) => Moves(s, BumpProcessed);
      case Comparing(_) => Moves(s, CompareSubmitted);
      case FlushNotifying => if s.mutex.Some? { HolderMoves(s); } else { Moves(s, NotifyFlush); }
      case FinalFlush => Moves(s, FinishFlush);
    }
  }

  lemma NotifierMoves(s: State)
    requires s.worker.PopNotifying?
    ensures CanMove(s)
  {
    if k: nat :| k < |s.producers| && s.producers[k].WaitingFull? {
      Moves(s, NotifyFull(k));
    } else {
      Moves(s, NotifyFull(0));
    }
  }

  lemma StopperMoves(s: State)
    requires s.stopper.Closing? || s.stopper.NotifyingEmpty? || s.stopper.NotifyingFull?
    ensures CanMove(s)
  {
    match s.stopper {
      case Closing => Moves(s, StopClose);
      case NotifyingEmpty => Moves(s, StopNotifyEmpty);
      case NotifyingFull => Moves(s, StopNotifyFull);
    }
  }

  lemma WorkerNotAtRestMoves(s: State)
    requires Sound(s) && Served(s)
    requires !s.worker.Exited? && !(s.worker.PopWaiting? && s.queue.items == [] && !s.queue.closed)
    ensures CanMove(s)
  {
    if s.worker.PopNotifying? { NotifierMoves(s); }
    else if !s.worker.PopWaiting? { WorkerMoves(s); }
    else if s.queue.closed { StopperMoves(s); }
    else { RoleMoves(s, Notifying); }
  }

  lemma ParkedProducerMoves(s: State)
    requires Sound(s) && Served(s) && Count(s.producers, Parked) > 0
    ensures CanMove(s)
  {
    CountZero(s.producers, Parked);
    if s.queue.closed { StopperMoves(s); }
    else if s.worker.PopNotifying? { NotifierMoves(s); }
    else if Count(s.producers, Waking) > 0 { RoleMoves(s, Waking); }
    else { WorkerNotAtRestMoves(s); }
  }

  /** If no thread can move, everything is at rest, and the other way round. */
  lemma SoundOnlyRestIsStuck(s: State)
    requires Sound(s) && Served(s)
    ensures CanMove(s) <==> !Quiescent(s)
  {
    if !AllOutside(s.producers) {
      var i: nat :| i < |s.producers| && !s.producers[i].Outside?;
      if s.producers[i].WaitingFull? {
        CountZero(s.producers, Parked);
        ParkedProducerMoves(s);
      } else {
        ProducerMoves(s, i);
      }
    } else if !(s.worker.Exited? || (s.worker.PopWaiting? && s.queue.items == [] && !s.queue.closed)) {
      WorkerNotAtRestMoves(s);
    } else if j: nat :| j < |s.flushers| && !s.flushers[j].Resting? && !s.flushers[j].WaitingFlush? {
      FlusherMoves(s, j);
    } else if s.stopper.Joining? {
      JoinerMoves(s);
    } else if !s.stopper.NotStopping? && !s.stopper.Joined? {
      StopperMoves(s);
    } else {
      RestIsStuck(s);
    }
  }

  lemma JoinerMoves(s: State)
    requires LifeInv(s) && s.stopper.Joining?
    requires s.worker.Exited? || (s.worker.PopWaiting? && s.queue.items == [] && !s.queue.closed)
    ensures CanMove(s)
  {
    Moves(s, StopJoin);
  }

  lemma RestIsStuck(s: State)
    requires Quiescent(s) && MutexInv(s)
    ensures !CanMove(s)
  {}

  /** With a usable queue the only reachable states in which no thread can move are
      those at rest: no call to log, no worker and no stop is ever stuck; a flush
      may be. */
  lemma OnlyRestIsStuck(s: State)
    requires Reachable(s) && Usable(s.queue.capacity, s.queue.policy)
    ensures CanMove(s) <==> !Quiescent(s)
  {
    ReachableInv(s);
    SoundOnlyRestIsStuck(s);
  }

  // ----- flush -----

  /** When flush passes, at most as many records accepted before it began are
      unprocessed as were stored but uncounted, both when it began and when it
      loaded m_submitted. With none at either moment and no eviction, every record
      accepted before the call has been handled. */
  lemma FlushComplete(s: State, j: nat)
    requires Reachable(s) && j < |s.flushers| && s.flushers[j].SinkFlushing?
    ensures var f := s.flushers[j];
      && f.view.began <= s.processed + f.flight
      && f.view.began <= s.processed + f.view.flightAtBegin
      && (s.queue.evicted == [] && (f.flight == 0 || f.view.flightAtBegin == 0) ==>
            && f.view.began <= |s.handled| <= |s.queue.accepted|
            && s.handled[..f.view.began] == s.queue.accepted[..f.view.began])
  {
    ReachableInv(s);
    assert FlushBound(s, s.flushers[j]);
    if s.queue.evicted == [] {
      HandledIsPrefix(s);
      assert s.handled <= s.handled + HandRecord(s.worker);
    }
  }

  /** A flush nobody disturbs (no log in progress when it begins, none started
      since) in a running backend: parked with equal counters, its notification is
      already on the way. */
  lemma FlushWakes(s: State, j: nat)
    requires Reachable(s) && s.running && j < |s.flushers|
    requires s.flushers[j].WaitingFlush? && s.flushers[j].view.calm
    ensures s.processed == s.submitted ==> Announcing(s)
  {
    ReachableInv(s);
    assert CalmBound(s, s.flushers[j]);
  }

  /** What stands between a parked undisturbed flush and its notification, in
      worker steps. */
  function FlushRank(s: State): nat {
    8 * |s.queue.items| + match s.worker
      case FlushNotifying => 0
      case PopEntering(_) => 1
      case PopWoken(_) => 1
      case LoopTop => 2
      case Comparing(_) => 3
      case Bumping(_) => 4
      case Handling(_, _) => 5
      case PopNotifying(_, _) => 6
      case _ => 0
  }

  ghost predicate CalmlyParked(s: State, j: nat) {
    && s.running && s.queue.evicted == []
    && j < |s.flushers| && s.flushers[j].WaitingFlush? && s.flushers[j].view.calm
  }

  lemma UndisturbedWorker(s: State, j: nat)
    requires Inv(s) && CalmlyParked(s, j)
    ensures s.submitted == |s.queue.accepted| && AllOutside(s.producers)
    ensures !s.worker.PopWaiting? && !s.worker.FinalFlush? && !s.worker.Exited?
    ensures s.queue.items == [] ==>
      s.worker.PopNotifying? || s.worker.Handling? || s.worker.Bumping? || Announcing(s)
  {
    assert CalmBound(s, s.flushers[j]);
    CountZero(s.producers, InFlight);
    CountZero(s.producers, Notifying);
  }

  /** Such a flush is always woken: while it stays parked and undisturbed, the
      worker is never blocked except by another flusher inside the mutex, every
      worker step brings the notification strictly nearer, and no other step takes
      it further away. */
  lemma FlushProgress(s: State, j: nat, a: Action)
    requires Reachable(s) && CalmlyParked(s, j) && Enabled(s, a) && CalmlyParked(Apply(s, a), j)
    ensures (exists w :: ByWorker(w) && Enabled(s, w)) || (s.worker.FlushNotifying? && s.mutex.Some?)
    ensures FlushRank(Apply(s, a)) <= FlushRank(s)
    ensures ByWorker(a) ==> FlushRank(Apply(s, a)) < FlushRank(s)
  {
    ReachableInv(s);
    InvStep(s, a);
    UndisturbedWorker(s, j);
    UndisturbedWorker(Apply(s, a), j);
    FlushRankStep(s, j, a);
    WorkerEnabled(s);
  }

  ghost predicate StaysCalmlyParked(s: State, acts: seq<Action>, j: nat)
    requires Runs(s, acts)
    decreases |acts|
  {
    CalmlyParked(s, j) && (acts != [] ==> StaysCalmlyParked(Apply(s, acts[0]), acts[1..], j))
  }

  /** Over a whole run: an undisturbed flush stays parked for at most FlushRank
      worker steps. */
  lemma {:induction false} FlushParksBriefly(s: State, acts: seq<Action>, j: nat)
    requires Reachable(s) && Runs(s, acts) && StaysCalmlyParked(s, acts, j)
    ensures WorkerSteps(acts) + FlushRank(After(s, acts)) <= FlushRank(s)
    decreases |acts|
  {
    if acts != [] {
      assert CalmlyParked(Apply(s, acts[0]), j);
      FlushProgress(s, j, acts[0]);
      ReachableStep(s, acts[0]);
      FlushParksBriefly(Apply(s, acts[0]), acts[1..], j);
    }
  }

  lemma WorkerEnabled(s: State)
    requires QueueInv(s) && !s.worker.PopWaiting? && !s.worker.Exited?
    ensures (exists w :: ByWorker(w) && Enabled(s, w)) || (s.worker.FlushNotifying? && s.mutex.Some?)
  {
    match s.worker {
      case LoopTop => assert Enabled(s, LoadRunning);
      case PopEntering(_) => assert Enabled(s, PopSection);
      case PopWoken(_) => assert Enabled(s, PopSection);
      case PopNotifying(_, _) =>
        if k: nat :| k < |s.producers| && s.producers[k].WaitingFull? { assert Enabled(s, NotifyFull(k)); }
        else { assert Enabled(s, NotifyFull(0)); }
      case Handling(_, _) => assert Enabled(s, Handle(Reaches(0)));
      case Bumping(_) => assert Enabled(s, BumpProcessed);
      case Comparing(_) => assert Enabled(s, CompareSubmitted);
      case FlushNotifying => assert s.mutex == None ==> Enabled(s, NotifyFlush);
      case FinalFlush => assert Enabled(s, FinishFlush);
    }
  }

  lemma FlushRankStep(s: State, j: nat, a: Action)
    requires LifeInv(s) && CalmlyParked(s, j) && Enabled(s, a) && CalmlyParked(Apply(s, a), j)
    requires AllOutside(s.producers) && !s.worker.PopWaiting? && !Apply(s, a).worker.PopWaiting?
    requires !s.worker.FinalFlush? && !s.worker.Exited?
    requires s.queue.items == [] ==>
      s.worker.PopNotifying? || s.worker.Handling? || s.worker.Bumping? || Announcing(s)
    ensures FlushRank(Apply(s, a)) <= FlushRank(s)
    ensures ByWorker(a) ==> FlushRank(Apply(s, a)) < FlushRank(s)
  {}

  // ----- shutdown -----

  /** What is left of the worker's life once the queue is closed. */
  function DrainRank(s: State): nat {
    8 * |s.queue.items| + match s.worker
      case Exited => 0
      case FinalFlush => 1
      case PopEntering(phase) => if phase == Drain then 2 else 10
      case PopWoken(phase) => if phase == Drain then 2 else 10
      case PopWaiting(phase) => if phase == Drain then 3 else 11
      case LoopTop => 4
      case Bumping(phase) => if phase == Drain then 3 else 7
      case Handling(phase, _) => if phase == Drain then 4 else 8
      case PopNotifying(phase, _) => if phase == Drain then 5 else 9
      case FlushNotifying => 5
      case Comparing(_) => 6
  }

  /** The push this action makes, if it makes one. */
  ghost predicate StoresRecord(s: State, a: Action)
    requires Enabled(s, a)
  {
    a.PushSection? && Q.Push(s.queue, s.producers[a.i].record).0 == Q.Stored
  }

  lemma DrainWorkerStep(s: State, a: Action)
    requires LifeInv(s) && s.queue.closed && Enabled(s, a) && ByWorker(a)
    ensures Apply(s, a).queue.closed
    ensures DrainRank(Apply(s, a)) < DrainRank(s)
  {}

  lemma DrainProducerStep(s: State, a: Action)
    requires s.queue.closed && Enabled(s, a) && ByProducer(a) && !StoresRecord(s, a)
    ensures Apply(s, a).queue.closed
    ensures DrainRank(Apply(s, a)) <= DrainRank(s)
  {}

  lemma DrainStopperStep(s: State, a: Action)
    requires s.queue.closed && Enabled(s, a) && ByStopper(a)
    ensures Apply(s, a).queue.closed
    ensures DrainRank(Apply(s, a)) <= DrainRank(s)
  {}

  lemma DrainFlusherStep(s: State, a: Action)
    requires s.queue.closed && Enabled(s, a) && ByFlusher(a)
    ensures Apply(s, a).queue.closed
    ensures DrainRank(Apply(s, a)) <= DrainRank(s)
  {
    FlusherFrame(s, a);
  }

  lemma DrainStep(s: State, a: Action)
    requires LifeInv(s) && s.queue.closed && Enabled(s, a) && !StoresRecord(s, a)
    ensures Apply(s, a).queue.closed
    ensures DrainRank(Apply(s, a)) <= DrainRank(s)
    ensures ByWorker(a) ==> DrainRank(Apply(s, a)) < DrainRank(s)
  {
    if ByWorker(a) { DrainWorkerStep(s, a); }
    else if ByProducer(a) { DrainProducerStep(s, a); }
    else if ByFlusher(a) { DrainFlusherStep(s, a); }
    else { DrainStopperStep(s, a); }
  }

  function WorkerSteps(acts: seq<Action>): nat {
    if acts == [] then 0 else (if ByWorker(acts[0]) then 1 else 0) + WorkerSteps(acts[1..])
  }

  ghost predicate StoresNothing(s: State, acts: seq<Action>)
    requires Runs(s, acts)
    decreases |acts|
  {
    acts != [] ==> !StoresRecord(s, acts[0]) && StoresNothing(Apply(s, acts[0]), acts[1..])
  }

  /** After shutdown the worker never spins: if nothing more is stored, the steps
      it still takes plus what is then left of its life never exceed what was left
      when the queue closed. */
  lemma {:induction false} DrainBound(s: State, acts: seq<Action>)
    requires Inv(s) && s.queue.closed && Runs(s, acts) && StoresNothing(s, acts)
    ensures WorkerSteps(acts) + DrainRank(After(s, acts)) <= DrainRank(s)
    decreases |acts|
  {
    if acts != [] {
      InvStep(s, acts[0]);
      DrainStep(s, acts[0]);
      DrainBound(Apply(s, acts[0]), acts[1..]);
    }
  }

  lemma {:induction false} ClosedBlockStoresNothing(s: State, acts: seq<Action>)
    requires s.queue.closed && s.queue.policy == Block && Runs(s, acts)
    ensures StoresNothing(s, acts)
    decreases |acts|
  {
    if acts != [] {
      ClosedBlockStep(s, acts[0]);
      ClosedBlockStoresNothing(Apply(s, acts[0]), acts[1..]);
    }
  }

  /** Under any policy nothing is stored while no call to log is in progress or begins. */
  lemma {:induction false} QuietStoresNothing(s: State, acts: seq<Action>)
    requires AllOutside(s.producers) && Runs(s, acts)
    requires forall i | 0 <= i < |acts| :: !acts[i].LogBegin?
    ensures StoresNothing(s, acts)
    decreases |acts|
  {
    if acts != [] {
      assert !acts[0].LogBegin?;
      QuietStep(s, acts[0]);
      QuietStoresNothing(Apply(s, acts[0]), acts[1..]);
    }
  }

  lemma QuietStep(s: State, a: Action)
    requires AllOutside(s.producers) && Enabled(s, a) && !a.LogBegin?
    ensures AllOutside(Apply(s, a).producers) && !StoresRecord(s, a)
  {}

  /** So a stop that no log() overlaps is bounded under every policy. */
  lemma QuietDrainTerminates(s: State, acts: seq<Action>)
    requires Reachable(s) && s.queue.closed && AllOutside(s.producers) && Runs(s, acts)
    requires forall i | 0 <= i < |acts| :: !acts[i].LogBegin?
    ensures WorkerSteps(acts) <= 8 * |s.queue.items| + 11
  {
    ReachableInv(s);
    QuietStoresNothing(s, acts);
    DrainBound(s, acts);
  }

  /** Under Block, from the moment the queue is closed, every continuation has at
      most 8 worker steps per queued record and 11 more; and as long as the worker
      has not exited, it, the mutex holder or the stopper can move. */
  lemma DrainTerminates(s: State, acts: seq<Action>)
    requires Reachable(s) && s.queue.closed && s.queue.policy == Block && Runs(s, acts)
    ensures WorkerSteps(acts) <= 8 * |s.queue.items| + 11
    ensures var s' := After(s, acts);
      s'.worker.Exited? || (exists w :: ByWorker(w) && Enabled(s', w))
      || s'.mutex.Some? || s'.stopper.NotifyingEmpty?
  {
    ReachableInv(s);
    ClosedBlockStoresNothing(s, acts);
    DrainBound(s, acts);
    InvAfter(s, acts);
    NothingAcceptedAfterClose(s, acts);
    var s' := After(s, acts);
    if !s'.worker.Exited? && !s'.worker.PopWaiting? { WorkerEnabled(s'); }
  }

  // ----- sinks -----

  /** Every sink holds exactly the lines of the handled records that reached it, in
      order, each of its own record: the worker's buffer, reused for every record and left
      dirty by exceptions, leaks nothing. Whatever was thrown, only a torn refill of the
      timestamp cache shows, in the lines `TornOrOwn` says. */
  lemma SinksGetOwnLines(s: State, k: nat)
    requires Reachable(s) && k < |s.out.sinks|
    ensures |s.fates| == |s.handled|
    ensures s.out.sinks[k] == Received(s.out.env, s.out.pattern, EMPTY, s.handled, s.fates, k)
    ensures forall i: nat | i < |s.handled| :: TornOrOwn(s.out.env, s.out.pattern, s.handled, s.fates, i)
  {
    ReachableInv(s);
    forall i: nat | i < |s.handled| ensures TornOrOwn(s.out.env, s.out.pattern, s.handled, s.fates, i) {
      TornLines(s.out.env, s.out.pattern, s.handled, s.fates, i);
    }
  }
}
