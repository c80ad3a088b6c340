/** Exactly when a call to flush is sure to be complete, under every policy. */
module AsyncFlushExact {
  import opened Records
  import opened Memos
  import opened AsyncProtocol
  import opened AsyncInvariants
  import opened AsyncTheorems
  import opened AsyncProgress
  import Q = QueueModel

  /** The state just after flusher j called flush, in a running backend. */
  ghost predicate JustBegun(s: State, j: nat) {
    && Reachable(s) && s.running && j < |s.flushers|
    && s.flushers[j]
       == Locking(FlushView(|s.queue.accepted|, Count(s.producers, InFlight), AllOutside(s.producers)))
  }

  /** The i-th accepted record has been formatted and written, not evicted. */
  ghost predicate Handled(s: State, i: nat) {
    |s.handled| <= |s.queue.delivered| && i in s.queue.delivered[..|s.handled|]
  }

  ghost predicate Passes(s: State, j: nat) {
    j < |s.flushers| && s.flushers[j].SinkFlushing?
  }

  /** Whatever happens, if the call gets past its wait, every record accepted before it
      began has been handled. */
  ghost predicate SureToBeComplete(s: State, j: nat)
    requires j < |s.flushers| && !s.flushers[j].Resting?
  {
    forall s', i: nat | Leads(s, s', SameCall(j)) && Passes(s', j) && i < s.flushers[j].view.began ::
      Handled(s', i)
  }

  /** What decides it: no accepted record is left to handle; or no record is stored but
      uncounted, none was evicted, and none is queued that could still be evicted. */
  predicate NothingToMiss(s: State) {
    || |s.handled| == |s.queue.accepted|
    || (&& Count(s.producers, InFlight) == 0 && s.queue.evicted == []
        && (s.queue.policy == DropOldest ==> s.queue.items == []))
  }

  // ----- enough -----

  /** During one call the view keeps its start. */
  ghost predicate CallGoesOn(s: State, s': State, j: nat) {
    && Grows(s, s') && j < |s.flushers|
    && !s.flushers[j].Resting? && !s'.flushers[j].Resting?
    && s'.flushers[j].view.began == s.flushers[j].view.began
    && s'.flushers[j].view.flightAtBegin == s.flushers[j].view.flightAtBegin
  }

  lemma CallStep(s: State, a: Action, j: nat)
    requires Enabled(s, a) && a != SinkFlush(j) && j < |s.flushers| && !s.flushers[j].Resting?
    ensures CallGoesOn(s, Apply(s, a), j)
  {
    GrowsStep(s, a);
  }

  lemma {:induction false} CallRun(s: State, acts: seq<Action>, j: nat)
    requires Runs(s, acts) && Within(acts, SameCall(j)) && j < |s.flushers| && !s.flushers[j].Resting?
    ensures CallGoesOn(s, After(s, acts), j)
    decreases |acts|
  {
    if acts != [] {
      CallStep(s, acts[0], j);
      CallRun(Apply(s, acts[0]), acts[1..], j);
    }
  }

  lemma SameCallGoesOn(s: State, s': State, j: nat)
    requires Leads(s, s', SameCall(j)) && j < |s.flushers| && !s.flushers[j].Resting?
    ensures CallGoesOn(s, s', j)
  {
    var acts :| Runs(s, acts) && Within(acts, SameCall(j)) && After(s, acts) == s';
    CallRun(s, acts, j);
  }

  /** With nothing queued and nothing evicted, every record was popped. */
  lemma AllDelivered(q: Q.Model, i: nat)
    requires Q.Consistent(q) && q.items == [] && q.evicted == [] && i < |q.accepted|
    ensures |q.delivered| == |q.accepted| && i in q.delivered
  {}

  lemma NothingUnhandled(s: State)
    requires Inv(s) && |s.handled| == |s.queue.accepted|
    ensures s.queue.items == [] && s.queue.evicted == []
  {}

  lemma NothingUnhandledStays(s: State, s': State, i: nat)
    requires Inv(s) && Grows(s, s') && Inv(s') && |s.handled| == |s.queue.accepted| && i < |s.queue.accepted|
    ensures Handled(s', i)
  {
    NothingUnhandled(s);
    AllDelivered(s.queue, i);
  }

  lemma PassHandlesCounted(s': State, j: nat)
    requires Reachable(s') && Passes(s', j) && s'.flushers[j].view.flightAtBegin == 0
    ensures s'.flushers[j].view.began <= |s'.handled| <= |s'.queue.delivered|
  {
    ReachableInv(s');
    FlushComplete(s', j);
  }

  lemma DeliveredStays(s: State, s': State, i: nat)
    requires Inv(s) && Grows(s, s') && s.queue.items == [] && s.queue.evicted == []
    requires i < |s.queue.accepted| <= |s'.handled| <= |s'.queue.delivered|
    ensures Handled(s', i)
  {
    AllDelivered(s.queue, i);
  }

  lemma HandledInOrder(s': State, i: nat)
    requires Inv(s') && s'.queue.evicted == [] && i < |s'.handled| <= |s'.queue.delivered|
    ensures Handled(s', i)
  {
    DeliveredIsPrefix(s'.queue, i);
  }

  /** If there is nothing to miss, every pass is complete. */
  lemma QuietFlushIsComplete(s: State, s': State, j: nat, i: nat)
    requires JustBegun(s, j) && NothingToMiss(s)
    requires Leads(s, s', SameCall(j)) && Passes(s', j) && i < |s.queue.accepted|
    ensures Handled(s', i)
  {
    ReachableInv(s);
    SameCallGoesOn(s, s', j);
    LeadsReachable(s, s', SameCall(j));
    ReachableInv(s');
    if |s.handled| == |s.queue.accepted| {
      NothingUnhandledStays(s, s', i);
    } else {
      PassHandlesCounted(s', j);
      if s.queue.policy == DropOldest { DeliveredStays(s, s', i); } else { HandledInOrder(s', i); }
    }
  }

  // ----- stretches of a run in which flusher l.j waits for the mutex -----

  /** One step of a stretch. */
  lemma Extend(s: State, s1: State, l: Limit, a: Action) returns (s2: State)
    requires Leads(s, s1, l) && Enabled(s1, a) && Allows(l, a)
    ensures s2 == Apply(s1, a) && Leads(s, s2, l)
  {
    LeadsStep(s, s1, l, a);
    s2 := Apply(s1, a);
  }

  lemma LeadsInv(s: State, s1: State, l: Limit)
    requires Inv(s) && Leads(s, s1, l)
    ensures Inv(s1)
  {
    var acts :| Runs(s, acts) && Within(acts, l) && After(s, acts) == s1;
    InvAfter(s, acts);
  }

  ghost predicate DuringCall(l: Limit) { l.SameCall? || l.Undisturbed? }

  /** A state reached while the flusher has not got the mutex yet; nothing was accepted
      since s. */
  ghost predicate Along(s: State, s1: State, l: Limit) {
    && DuringCall(l) && Leads(s, s1, l) && s1.running && s1.queue.evicted == []
    && l.j < |s.flushers| && |s1.flushers| == |s.flushers|
    && s1.flushers[l.j].Locking? && s1.flushers[l.j] == s.flushers[l.j]
    && s1.queue.accepted == s.queue.accepted && s1.queue.policy == s.queue.policy
    && s1.queue.capacity == s.queue.capacity
  }

  /** What the flusher inside the mutex does next. */
  lemma HolderNext(s: State, j: nat) returns (a: Action)
    requires MutexInv(s) && s.mutex.Some? && j < |s.flushers| && s.flushers[j].Locking?
    ensures a.LoadProcessed? || a.LoadSubmitted? || a.SinkFlush?
    ensures a.j != j && a.j < |s.flushers| && s.mutex == Some(a.j) && Enabled(s, a)
    ensures a.LoadSubmitted? ==> s.flushers[a.j].SawProcessed?
  {
    var i := s.mutex.value;
    assert HoldsMutex(s.flushers[i]);
    a := if s.flushers[i].SinkFlushing? then SinkFlush(i)
         else if s.flushers[i].SawProcessed? then LoadSubmitted(i) else LoadProcessed(i);
  }

  lemma HolderLoadsProcessed(s: State, s1: State, l: Limit, i: nat) returns (s2: State)
    requires Along(s, s1, l) && s1.mutex == Some(i) && i != l.j && Enabled(s1, LoadProcessed(i))
    ensures Along(s, s2, l) && s2 == s1.(flushers := s2.flushers, mutex := s2.mutex)
    ensures s2.mutex.Some? ==> s2.mutex == s1.mutex && HolderRank(s2) < HolderRank(s1)
  {
    s2 := Extend(s, s1, l, LoadProcessed(i));
  }

  lemma HolderLoadsSubmitted(s: State, s1: State, l: Limit, i: nat) returns (s2: State)
    requires Along(s, s1, l) && s1.mutex == Some(i) && i != l.j && Enabled(s1, LoadSubmitted(i))
    requires s1.flushers[i].SawProcessed?
    ensures Along(s, s2, l) && s2 == s1.(flushers := s2.flushers, mutex := s2.mutex)
    ensures s2.mutex.Some? ==> s2.mutex == s1.mutex && HolderRank(s2) < HolderRank(s1)
  {
    s2 := Extend(s, s1, l, LoadSubmitted(i));
  }

  /** One step of another flusher that holds the mutex, towards giving it up. */
  lemma HolderStep(s: State, s1: State, l: Limit) returns (s2: State)
    requires Inv(s) && Along(s, s1, l) && s1.mutex.Some?
    ensures Along(s, s2, l) && s2 == s1.(flushers := s2.flushers, mutex := s2.mutex)
    ensures s2.mutex.Some? ==> s2.mutex == s1.mutex && HolderRank(s2) < HolderRank(s1)
  {
    assert MutexInv(s1) by { LeadsInv(s, s1, l); }
    var a := HolderNext(s1, l.j);
    match a {
      case LoadProcessed(i) => s2 := HolderLoadsProcessed(s, s1, l, i);
      case LoadSubmitted(i) => s2 := HolderLoadsSubmitted(s, s1, l, i);
      case SinkFlush(i) => s2 := Extend(s, s1, l, a);
    }
  }

  function HolderRank(s: State): nat {
    if s.mutex.None? || s.mutex.value >= |s.flushers| then 0 else FlusherRank(s.flushers[s.mutex.value])
  }

  lemma {:induction false} FreeMutex(s: State, s1: State, l: Limit) returns (s2: State)
    requires Inv(s) && Along(s, s1, l)
    ensures Along(s, s2, l) && s2 == s1.(flushers := s2.flushers, mutex := None)
    decreases HolderRank(s1), s1.mutex.Some?
  {
    s2 := s1;
    if s1.mutex.Some? {
      s2 := HolderStep(s, s1, l);
      s2 := FreeMutex(s, s2, l);
    }
  }

  /** How far the worker is from having processed everything queued. */
  function WorkRank(s: State): nat {
    10 * |s.queue.items| + match s.worker
      case PopEntering(_) => 1
      case PopWoken(_) => 1
      case PopWaiting(_) => 2
      case LoopTop => 2
      case FlushNotifying => 3
      case Comparing(_) => 4
      case Bumping(_) => 5
      case Handling(_, _) => 6
      case PopNotifying(_, _) => 7
      case _ => 0
  }

  /** The worker's next step, spurious wake-ups included. */
  ghost function NextWork(s: State): Action
    requires LifeInv(s) && s.running
  {
    match s.worker
    case LoopTop => LoadRunning
    case PopWaiting(_) => SpuriousEmpty
    case PopNotifying(_, _) => NotifyFull(SomeParked(s.producers))
    case Handling(_, _) => Handle(Reaches(|s.out.sinks|))
    case Bumping(_) => BumpProcessed
    case Comparing(_) => CompareSubmitted
    case FlushNotifying => NotifyFlush
    case _ => PopSection
  }

  ghost function SomeParked(ps: seq<Producer>): nat {
    if k: nat :| k < |ps| && ps[k].WaitingFull? then k else 0
  }

  /** With the mutex free and work left, that step is possible, comes closer and
      leaves the counter of submitted records and the flusher's call alone. */
  lemma NextWorkStep(s: State, j: nat)
    requires Inv(s) && s.running && s.mutex == None && s.queue.evicted == []
    requires s.processed < |s.queue.accepted| && j < |s.flushers| && s.flushers[j].Locking?
    ensures Enabled(s, NextWork(s))
    ensures var s' := Apply(s, NextWork(s));
      && WorkRank(s') < WorkRank(s)
      && s'.running && s'.mutex == None && s'.submitted == s.submitted
      && s'.queue.accepted == s.queue.accepted && s'.queue.evicted == []
      && s.processed <= s'.processed <= s.processed + 1
      && (s'.processed > s.processed ==> !s'.worker.Bumping?)
      && s'.flushers[j] == s.flushers[j]
      && |s'.producers| == |s.producers|
      && (forall i | 0 <= i < |s.producers| :: s'.producers[i].Outside? <==> s.producers[i].Outside?)
  {
    CountersNow(s);
  }

  lemma CountersNow(s: State)
    requires Inv(s)
    ensures |s.queue.accepted| == s.processed + InHand(s.worker) + |s.queue.items| + |s.queue.evicted|
    ensures |s.queue.accepted| == s.submitted + Count(s.producers, InFlight)
    ensures |s.handled| <= |s.queue.delivered|
  {}

  /** The same as part of a stretch. */
  lemma Works(s: State, s1: State, l: Limit) returns (s2: State)
    requires Inv(s) && Along(s, s1, l) && s1.mutex == None && s1.processed < |s1.queue.accepted|
    ensures Along(s, s2, l) && s2.mutex == None && s2.submitted == s1.submitted
    ensures WorkRank(s2) < WorkRank(s1)
    ensures s1.processed <= s2.processed <= s1.processed + 1
    ensures s2.processed > s1.processed ==> !s2.worker.Bumping?
    ensures |s2.producers| == |s1.producers|
    ensures forall i | 0 <= i < |s1.producers| :: s2.producers[i].Outside? <==> s1.producers[i].Outside?
  {
    LeadsInv(s, s1, l);
    NextWorkStep(s1, l.j);
    s2 := Apply(s1, NextWork(s1));
    GrowsStep(s1, NextWork(s1));
    LeadsStep(s, s1, l, NextWork(s1));
  }

  /** The worker can bring m_processed to any number of accepted records not below
      what it already is, and stop there between two records. */
  lemma {:induction false} WorkUpTo(s: State, s1: State, l: Limit, target: nat) returns (s2: State)
    requires Inv(s) && Along(s, s1, l) && s1.mutex == None
    requires s1.processed <= target <= |s1.queue.accepted|
    requires s1.worker.Bumping? ==> s1.processed < target
    ensures Along(s, s2, l) && s2.mutex == None && s2.submitted == s1.submitted
    ensures s2.processed == target && !s2.worker.Bumping?
    decreases WorkRank(s1)
  {
    s2 := s1;
    if s1.processed < target {
      s2 := Works(s, s1, l);
      s2 := WorkUpTo(s, s2, l, target);
    }
  }

  /** One producer in flight finishes its call. */
  lemma CountOne(s: State, s1: State, l: Limit) returns (s2: State)
    requires Inv(s) && Along(s, s1, l) && s1.mutex == None && Count(s1.producers, InFlight) > 0
    ensures Along(s, s2, l) && s2.mutex == None
    ensures s2.submitted == s1.submitted + 1 && s2.processed == s1.processed && s2.handled == s1.handled
    ensures !s1.worker.Bumping? ==> !s2.worker.Bumping?
  {
    CountZero(s1.producers, InFlight);
    var i: nat :| i < |s1.producers| && Plays(s1.producers[i], InFlight);
    s2 := s1;
    if s1.producers[i].AboutToNotify? { s2 := Extend(s, s2, l, NotifyEmpty(i)); }
    s2 := Extend(s, s2, l, CountSubmitted(i));
  }

  lemma {:induction false} CountUpTo(s: State, s1: State, l: Limit) returns (s2: State)
    requires Inv(s) && Along(s, s1, l) && s1.mutex == None && !s1.worker.Bumping?
    requires s1.submitted <= s1.processed <= |s1.queue.accepted|
    ensures Along(s, s2, l) && s2.mutex == None && !s2.worker.Bumping?
    ensures s2.submitted == s2.processed == s1.processed
    decreases s1.processed - s1.submitted
  {
    s2 := s1;
    if s1.submitted < s1.processed {
      LeadsInv(s, s1, l);
      CountersNow(s1);
      s2 := CountOne(s, s1, l);
      s2 := CountUpTo(s, s2, l);
    }
  }

  /** With equal counters and a free mutex the call can pass at once. */
  lemma PassNow(s: State, s1: State, j: nat) returns (s2: State)
    requires Along(s, s1, SameCall(j)) && s1.mutex == None && s1.processed == s1.submitted
    ensures Leads(s, s2, SameCall(j)) && s2.handled == s1.handled && s2.queue == s1.queue && Passes(s2, j)
  {
    s2 := Extend(s, s1, SameCall(j), FlushLock(j));
    s2 := Extend(s, s2, SameCall(j), LoadProcessed(j));
    s2 := Extend(s, s2, SameCall(j), LoadSubmitted(j));
  }

  // ----- something in flight and something unhandled: a pass can miss it -----

  lemma UncountedPass(s: State, j: nat) returns (s2: State)
    requires JustBegun(s, j) && s.queue.evicted == []
    requires Count(s.producers, InFlight) > 0 && |s.handled| < |s.queue.accepted|
    ensures Leads(s, s2, SameCall(j)) && Passes(s2, j) && |s2.handled| < |s.queue.accepted|
    ensures s2.queue.evicted == []
  {
    var l := SameCall(j);
    ReachableInv(s);
    CountersNow(s);
    LeadsSelf(s, l);
    var h := |s.handled|;
    var sa := FreeMutex(s, s, l);
    var sb := WorkUpTo(s, sa, l, if h < s.submitted then s.submitted else h);
    LeadsInv(s, sb, l);
    CountersNow(sb);
    var sc := CountUpTo(s, sb, l);
    LeadsInv(s, sc, l);
    HandledCount(sc);
    s2 := PassNow(s, sc, j);
  }

  lemma HandledCount(s: State)
    requires OrderInv(s)
    ensures |s.handled| == s.processed + (if s.worker.Bumping? then 1 else 0)
  {}

  /** With nothing evicted, records are handled in order of acceptance. */
  lemma UnhandledIsMissed(s: State, i: nat)
    requires Inv(s) && s.queue.evicted == [] && |s.handled| <= i
    ensures !Handled(s, i)
  {
    if Handled(s, i) {
      var k: nat :| k < |s.handled| && s.queue.delivered[k] == i;
      DeliveredIsPrefix(s.queue, k);
    }
  }

  // ----- something evicted: a pass exists all the same -----

  /** Everybody waits; flusher j has loaded m_submitted and is about to load
      m_processed, which is behind because of evictions. */
  ghost predicate Poised(s: State, j: nat) {
    && s.running && s.queue.policy == DropOldest && s.queue.capacity > 0 && !s.queue.closed
    && s.producers != [] && AllOutside(s.producers)
    && s.worker == PopWaiting(Main) && s.queue.items == [] && s.queue.accepted != []
    && j < |s.flushers| && s.flushers[j].SawSubmitted? && s.processed <= s.flushers[j].submitted
  }

  /** The first half of a call to log that finds room. */
  lemma StoresOne(s: State, s1: State, j: nat, i: nat, r: LogRecord) returns (s2: State)
    requires Leads(s, s1, SameCall(j)) && i < |s1.producers| && s1.producers[i].Outside?
    requires Q.Oldest(s1.queue) >= 0 && Q.Push(s1.queue, r).0 == Q.Stored
    ensures Leads(s, s2, SameCall(j))
    ensures s2 == s1.(queue := Q.Push(s1.queue, r).1, producers := s1.producers[i := AboutToNotify],
                      flushers := DisturbAll(s1.flushers))
  {
    s2 := Extend(s, s1, SameCall(j), LogBegin(i, r));
    s2 := Extend(s, s2, SameCall(j), PushSection(i));
    assert s1.producers[i := Entering(r)][i := AboutToNotify] == s1.producers[i := AboutToNotify];
  }

  /** A whole call to log that finds room. */
  lemma LogsOne(s: State, s1: State, j: nat, i: nat, r: LogRecord) returns (s2: State)
    requires Leads(s, s1, SameCall(j)) && i < |s1.producers| && s1.producers[i].Outside?
    requires Q.Oldest(s1.queue) >= 0 && Q.Push(s1.queue, r).0 == Q.Stored
    ensures Leads(s, s2, SameCall(j))
    ensures s2 == s1.(queue := Q.Push(s1.queue, r).1, submitted := s1.submitted + 1,
                      worker := WakeWorker(s1.worker), flushers := DisturbAll(s1.flushers))
  {
    s2 := StoresOne(s, s1, j, i, r);
    s2 := Extend(s, s2, SameCall(j), NotifyEmpty(i));
    s2 := Extend(s, s2, SameCall(j), CountSubmitted(i));
    assert s1.producers[i := AboutToNotify][i := AboutToCount][i := Outside] == s1.producers;
  }

  /** The worker pops the only queued record ... */
  lemma PopsOne(s: State, s1: State, j: nat) returns (s2: State)
    requires Leads(s, s1, SameCall(j)) && AllOutside(s1.producers)
    requires s1.worker == PopWoken(Main) && |s1.queue.items| == 1 && Q.Oldest(s1.queue) >= 0
    ensures Leads(s, s2, SameCall(j))
    ensures s2 == s1.(queue := Q.Pop(s1.queue).1, worker := Handling(Main, s1.queue.items[0]))
  {
    s2 := Extend(s, s1, SameCall(j), PopSection);
    s2 := Extend(s, s2, SameCall(j), NotifyFull(0));
  }

  /** ... handles it ... */
  lemma HandlesOne(s: State, s1: State, j: nat) returns (s2: State)
    requires Leads(s, s1, SameCall(j)) && s1.worker.Handling?
    ensures Leads(s, s2, SameCall(j))
    ensures s2 == s1.(worker := Bumping(s1.worker.phase), handled := s2.handled, fates := s2.fates, out := s2.out)
  {
    s2 := Extend(s, s1, SameCall(j), Handle(Reaches(|s1.out.sinks|)));
  }

  /** ... and counts it. */
  lemma BumpsOne(s: State, s1: State, j: nat) returns (s2: State)
    requires Leads(s, s1, SameCall(j)) && s1.worker == Bumping(Main)
    ensures Leads(s, s2, SameCall(j))
    ensures s2 == s1.(processed := s1.processed + 1, worker := Comparing(s1.processed + 1))
  {
    s2 := Extend(s, s1, SameCall(j), BumpProcessed);
  }

  /** The comparison fails, the worker goes round and parks on the empty queue. */
  lemma ParksAgain(s: State, s1: State, j: nat) returns (s2: State)
    requires Leads(s, s1, SameCall(j)) && s1.running && s1.queue.items == [] && !s1.queue.closed
    requires s1.worker.Comparing? && s1.worker.count != s1.submitted && Q.Oldest(s1.queue) >= 0
    ensures Leads(s, s2, SameCall(j)) && s2 == s1.(worker := PopWaiting(Main))
  {
    var l := SameCall(j);
    s2 := Extend(s, s1, l, CompareSubmitted);
    s2 := Extend(s, s2, l, LoadRunning);
    s2 := Extend(s, s2, l, PopSection);
  }

  /** The worker's whole turn over the only queued record. */
  lemma WorksOne(s: State, s1: State, j: nat) returns (s2: State)
    requires Leads(s, s1, SameCall(j)) && AllOutside(s1.producers) && s1.running && !s1.queue.closed
    requires s1.worker == PopWoken(Main) && |s1.queue.items| == 1 && Q.Oldest(s1.queue) >= 0
    requires s1.processed + 1 != s1.submitted
    ensures Leads(s, s2, SameCall(j))
    ensures s2 == s1.(queue := Q.Pop(s1.queue).1, processed := s1.processed + 1, worker := PopWaiting(Main),
                      handled := s2.handled, fates := s2.fates, out := s2.out)
  {
    s2 := PopsOne(s, s1, j);
    s2 := HandlesOne(s, s2, j);
    s2 := BumpsOne(s, s2, j);
    s2 := ParksAgain(s, s2, j);
  }

  /** One more call to log, handled at once, brings m_processed one nearer to the
      value of m_submitted the flusher remembers. */
  lemma OneMore(s: State, s1: State, j: nat) returns (s2: State)
    requires Leads(s, s1, SameCall(j)) && Poised(s1, j) && s1.processed < s1.flushers[j].submitted
    requires s1.processed < s1.submitted
    ensures Leads(s, s2, SameCall(j)) && Poised(s2, j) && s1.queue.evicted == s2.queue.evicted
    ensures s2.flushers[j].submitted == s1.flushers[j].submitted && s2.processed == s1.processed + 1
    ensures s2.processed < s2.submitted
  {
    var sa := LogsOne(s, s1, j, 0, s1.queue.accepted[0]);
    s2 := WorksOne(s, sa, j);
  }

  lemma {:induction false} CatchUp(s: State, s1: State, j: nat) returns (s2: State)
    requires Leads(s, s1, SameCall(j)) && Poised(s1, j) && s1.processed < s1.submitted
    ensures Leads(s, s2, SameCall(j)) && Passes(s2, j) && s1.queue.evicted == s2.queue.evicted
    decreases s1.flushers[j].submitted - s1.processed
  {
    if s1.processed < s1.flushers[j].submitted {
      s2 := OneMore(s, s1, j);
      s2 := CatchUp(s, s2, j);
    } else {
      s2 := Extend(s, s1, SameCall(j), LoadProcessed(j));
    }
  }

  lemma OnlyFlusherWaits(s: State, j: nat)
    requires Inv(s) && s.running && Holdable(s, None, Some(j)) && Quiescent(Hide(s, None, Some(j)))
    ensures s.worker == PopWaiting(Main) && s.queue.items == [] && AllOutside(s.producers) && s.mutex == None
    ensures s.processed + |s.queue.evicted| == s.submitted == |s.queue.accepted|
    ensures Q.Oldest(s.queue) >= 0 && !s.queue.closed
  {
    CountersNow(s);
    CountZero(s.producers, InFlight);
    var e := Hide(s, None, Some(j));
    forall k | 0 <= k < |s.flushers| ensures !HoldsMutex(s.flushers[k]) {
      if k != j { assert e.flushers[k] == s.flushers[k]; }
    }
  }

  /** After an eviction the flusher loads m_submitted first, and calls to log that
      come before its second load make up for the evicted records. */
  lemma PassAfterEviction(s: State, s1: State, j: nat) returns (s2: State)
    requires Inv(s) && Leads(s, s1, SameCall(j)) && s1.running && s1.queue.evicted != []
    requires s1.producers != [] && s1.queue.capacity > 0
    requires j < |s1.flushers| && s1.flushers[j].Locking?
    ensures Leads(s, s2, SameCall(j)) && Passes(s2, j) && s1.queue.evicted <= s2.queue.evicted
  {
    var l := SameCall(j);
    LeadsInv(s, s1, l);
    var sa := Settle(s, s1, l, None, Some(j));
    OnlyFlusherWaits(sa, j);
    DropOldestEvicts(sa);
    s2 := PassWhenSettled(s, sa, j);
  }

  lemma DropOldestEvicts(s: State)
    requires QueueInv(s) && s.queue.evicted != []
    ensures s.queue.policy == DropOldest && s.queue.accepted != []
  {}

  lemma PassWhenSettled(s: State, s1: State, j: nat) returns (s2: State)
    requires Leads(s, s1, SameCall(j)) && s1.running && s1.mutex == None && !s1.queue.closed
    requires s1.queue.policy == DropOldest && s1.queue.capacity > 0
    requires s1.producers != [] && AllOutside(s1.producers)
    requires s1.worker == PopWaiting(Main) && s1.queue.items == [] && s1.queue.accepted != []
    requires s1.processed < s1.submitted
    requires j < |s1.flushers| && s1.flushers[j].Locking?
    ensures Leads(s, s2, SameCall(j)) && Passes(s2, j) && s1.queue.evicted == s2.queue.evicted
  {
    s2 := Extend(s, s1, SameCall(j), FlushLock(j));
    s2 := Extend(s, s2, SameCall(j), LoadSubmitted(j));
    s2 := CatchUp(s, s2, j);
  }

  /** An evicted record is never handled. */
  lemma EvictedIsMissed(s: State, i: nat)
    requires QueueInv(s) && i in s.queue.evicted
    ensures !Handled(s, i)
  {
    assert i !in s.queue.delivered;
  }

  // ----- something queued under DropOldest: it can be evicted during the call -----

  function CallRank(p: Producer): nat {
    match p
    case AboutToNotify => 5
    case AboutToCount => 4
    case Outside => 3
    case WaitingFull(_) => 2
    case Entering(_) => 1
    case WokenFull(_) => 1
  }

  /** Flusher j waits for the mutex while the worker stands still and producer 0 logs. */
  ghost predicate Filling(s: State, s1: State, j: nat) {
    && Leads(s, s1, SameCall(j)) && s1.running && j < |s1.flushers| && s1.flushers[j].Locking?
    && s1.queue.policy == DropOldest && s1.queue.capacity > 0 && s1.producers != []
    && Q.Consistent(s1.queue) && Q.Oldest(s1.queue) == Q.Oldest(s.queue)
    && s1.queue.items != [] && s1.queue.evicted == []
  }

  ghost predicate FirstEvicted(s: State, s1: State, j: nat) {
    && Leads(s, s1, SameCall(j)) && s1.running && j < |s1.flushers| && s1.flushers[j].Locking?
    && s1.queue.capacity > 0 && s1.producers != []
    && Q.Oldest(s.queue) >= 0 && s1.queue.evicted == [Q.Oldest(s.queue)]
  }

  /** Producer 0's next step in logging again and again. */
  function NextFill(p: Producer, r: LogRecord): Action {
    match p
    case Outside => LogBegin(0, r)
    case AboutToNotify => NotifyEmpty(0)
    case AboutToCount => CountSubmitted(0)
    case WaitingFull(_) => SpuriousFull(0)
    case Entering(_) => PushSection(0)
    case WokenFull(_) => PushSection(0)
  }

  lemma FillStep(s: State, s1: State, j: nat, r: LogRecord) returns (s2: State)
    requires Filling(s, s1, j)
    ensures FirstEvicted(s, s2, j) || Filling(s, s2, j)
    ensures Filling(s, s2, j) ==> |s1.queue.items| <= |s2.queue.items| <= s2.queue.capacity == s1.queue.capacity
    ensures Filling(s, s2, j) && |s2.queue.items| == |s1.queue.items| ==>
      CallRank(s2.producers[0]) < CallRank(s1.producers[0])
  {
    var a := NextFill(s1.producers[0], r);
    s2 := Extend(s, s1, SameCall(j), a);
    if a.PushSection? { Q.PushKeepsConsistent(s1.queue, s1.producers[0].record); }
  }

  lemma {:induction false} FillUntilEvicted(s: State, s1: State, j: nat, r: LogRecord) returns (s2: State)
    requires Filling(s, s1, j)
    ensures FirstEvicted(s, s2, j)
    decreases s1.queue.capacity - |s1.queue.items|, CallRank(s1.producers[0])
  {
    s2 := FillStep(s, s1, j, r);
    if !FirstEvicted(s, s2, j) { s2 := FillUntilEvicted(s, s2, j, r); }
  }

  // ----- exactly -----

  /** Records can only be accepted where there is room and somebody to log them. */
  lemma {:induction false} AcceptedNeedsRoom(s: State, acts: seq<Action>)
    requires Inv(s) && Runs(s, acts)
    requires s.queue.accepted != [] ==> s.producers != [] && s.queue.capacity > 0
    ensures After(s, acts).queue.accepted != [] ==>
      After(s, acts).producers != [] && After(s, acts).queue.capacity > 0
    decreases |acts|
  {
    if acts != [] {
      InvStep(s, acts[0]);
      GrowsStep(s, acts[0]);
      if s.queue.accepted == [] { AcceptedNeedsRoomStep(s, acts[0]); }
      AcceptedNeedsRoom(Apply(s, acts[0]), acts[1..]);
    }
  }

  lemma AcceptedNeedsRoomStep(s: State, a: Action)
    requires QueueInv(s) && Enabled(s, a) && s.queue.accepted == []
    ensures Apply(s, a).queue.accepted != [] ==> s.producers != [] && s.queue.capacity > 0
  {}

  lemma ReachableNeedsRoom(s: State)
    requires Reachable(s) && s.queue.accepted != []
    ensures s.producers != [] && s.queue.capacity > 0
  {
    var init, acts :| Initial(init) && Runs(init, acts) && After(init, acts) == s;
    InitialInv(init);
    AcceptedNeedsRoom(init, acts);
  }

  /** A queued record is evicted during the call, then the call passes. */
  lemma EvictedPass(s: State, j: nat) returns (s2: State)
    requires JustBegun(s, j) && s.queue.policy == DropOldest && s.queue.evicted == [] && s.queue.items != []
    ensures Leads(s, s2, SameCall(j)) && Passes(s2, j)
    ensures 0 <= Q.Oldest(s.queue) < |s.queue.accepted| && Q.Oldest(s.queue) in s2.queue.evicted
  {
    ReachableInv(s);
    ReachableNeedsRoom(s);
    LeadsSelf(s, SameCall(j));
    var s1 := FillUntilEvicted(s, s, j, s.queue.accepted[0]);
    s2 := PassAfterEviction(s, s1, j);
    assert s1.queue.evicted[0] == Q.Oldest(s.queue) && s2.queue.evicted[0] == s1.queue.evicted[0];
  }

  lemma EvictedBeforePass(s: State, j: nat) returns (s2: State)
    requires JustBegun(s, j) && s.queue.evicted != []
    ensures Leads(s, s2, SameCall(j)) && Passes(s2, j)
    ensures s.queue.evicted[0] < |s.queue.accepted| && s.queue.evicted[0] in s2.queue.evicted
  {
    ReachableInv(s);
    DropOldestEvicts(s);
    ReachableNeedsRoom(s);
    LeadsSelf(s, SameCall(j));
    s2 := PassAfterEviction(s, s, j);
    assert s2.queue.evicted[0] == s.queue.evicted[0];
    assert s.queue.evicted[0] in s.queue.evicted;
  }

  lemma WhatCanBeMissed(s: State)
    requires Inv(s) && !NothingToMiss(s)
    ensures |s.handled| < |s.queue.accepted|
    ensures s.queue.evicted != [] || Count(s.producers, InFlight) > 0
      || (s.queue.policy == DropOldest && s.queue.items != [])
  {
    CountersNow(s);
  }

  /** Where something can be missed, a run leads to a pass that misses it. */
  lemma IncompletePassExists(s: State, j: nat) returns (s2: State, i: nat)
    requires JustBegun(s, j) && !NothingToMiss(s)
    ensures Leads(s, s2, SameCall(j)) && Passes(s2, j) && i < |s.queue.accepted| && !Handled(s2, i)
  {
    ReachableInv(s);
    WhatCanBeMissed(s);
    if s.queue.evicted != [] {
      s2 := EvictedBeforePass(s, j);
      i := s.queue.evicted[0];
    } else if Count(s.producers, InFlight) > 0 {
      s2 := UncountedPass(s, j);
      i := |s.queue.accepted| - 1;
    } else {
      s2 := EvictedPass(s, j);
      i := Q.Oldest(s.queue);
    }
    LeadsInv(s, s2, SameCall(j));
    if i in s2.queue.evicted { EvictedIsMissed(s2, i); } else { UnhandledIsMissed(s2, i); }
  }

  /** A flush called while the backend runs is sure to be complete exactly when, at the
      call, there is nothing to miss. */
  lemma SureToBeCompleteIff(s: State, j: nat)
    requires JustBegun(s, j)
    ensures SureToBeComplete(s, j) <==> NothingToMiss(s)
  {
    if NothingToMiss(s) {
      forall s', i: nat | Leads(s, s', SameCall(j)) && Passes(s', j) && i < s.flushers[j].view.began
        ensures Handled(s', i)
      {
        QuietFlushIsComplete(s, s', j, i);
      }
    } else {
      var s2, i := IncompletePassExists(s, j);
    }
  }
}
