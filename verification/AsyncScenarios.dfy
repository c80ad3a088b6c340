/** Concrete runs in which the guarantees end, and what they mean for a whole
    configuration: a capacity, a policy, a number of producers and of flushers. */
module AsyncScenarios {
  import opened Records
  import opened Memos
  import opened AsyncProtocol
  import opened AsyncInvariants
  import opened AsyncTheorems
  import opened AsyncFlushExact
  import opened AsyncWakeExact
  import Q = QueueModel
  import Patterns

  /** A fresh backend without sinks. */
  lemma Start(env: Patterns.Platform, capacity: nat, policy: OverflowPolicy, producers: nat, flushers: nat)
    returns (s: State)
    ensures Reachable(s) && s.queue == Q.Fresh(capacity, policy)
    ensures s.producers == seq(producers, _ => Outside) && s.flushers == seq(flushers, _ => Resting)
    ensures s.worker == LoopTop && s.stopper == NotStopping && s.running && s.handled == []
    ensures s.submitted == s.processed == 0
  {
    s := State(Output(env, "", false, "", EMPTY, []), Q.Fresh(capacity, policy), true, 0, 0, None,
               seq(producers, _ => Outside), LoopTop, seq(flushers, _ => Resting), NotStopping, [], [], 0);
    EmptyPattern();
    InitialIsReachable(s);
  }

  lemma EmptyPattern()
    ensures !UsesStamp("")
  {}

  /** Taking a step inside a scenario. */
  lemma Go(s: State, a: Action) returns (s': State)
    requires Reachable(s) && Enabled(s, a)
    ensures Reachable(s') && s' == Apply(s, a)
  {
    ReachableStep(s, a);
    s' := Apply(s, a);
  }

  // ----- stretches of a run -----

  /** Producer i calls log and stores its record, but has not counted it. */
  lemma Stores(s: State, i: nat, r: LogRecord) returns (s': State)
    requires Reachable(s) && i < |s.producers| && s.producers[i].Outside? && Q.Oldest(s.queue) >= 0
    requires Q.Push(s.queue, r).0 == Q.Stored
    ensures Reachable(s')
    ensures s' == s.(producers := s.producers[i := AboutToNotify], queue := Q.Push(s.queue, r).1,
                     flushers := DisturbAll(s.flushers))
  {
    LeadsSelf(s, SameCall(0));
    s' := StoresOne(s, s, 0, i, r);
    LeadsReachable(s, s', SameCall(0));
  }

  /** A whole call to log that finds room. */
  lemma Logs(s: State, i: nat, r: LogRecord) returns (s': State)
    requires Reachable(s) && i < |s.producers| && s.producers[i].Outside? && Q.Oldest(s.queue) >= 0
    requires Q.Push(s.queue, r).0 == Q.Stored
    ensures Reachable(s')
    ensures s' == s.(queue := Q.Push(s.queue, r).1, submitted := s.submitted + 1,
                     worker := WakeWorker(s.worker), flushers := DisturbAll(s.flushers))
  {
    LeadsSelf(s, SameCall(0));
    s' := LogsOne(s, s, 0, i, r);
    LeadsReachable(s, s', SameCall(0));
  }

  lemma Stops(s: State) returns (s': State)
    requires Reachable(s) && s.stopper == NotStopping
    ensures Reachable(s')
    ensures s' == s.(stopper := NotifyingEmpty, running := false, queue := Q.Close(s.queue))
  {
    s' := Go(s, StopBegin);
    s' := Go(s', StopClose);
  }

  /** With the flag down and nothing queued the worker runs straight to its end. */
  lemma DrainsEmpty(s: State) returns (s': State)
    requires Reachable(s) && !s.running && s.worker == LoopTop
    requires s.queue.items == [] && s.queue.closed && Q.Oldest(s.queue) >= 0
    ensures Reachable(s') && s' == s.(worker := Exited, drainedAt := |s.queue.accepted|)
  {
    s' := Go(s, LoadRunning);
    s' := Go(s', PopSection);
    s' := Go(s', FinishFlush);
  }

  /** Flusher 0 calls flush. */
  lemma CallsFlush(s: State) returns (s': State)
    requires Reachable(s) && s.running && s.flushers != [] && s.flushers[0].Resting?
    ensures JustBegun(s', 0) && s'.producers == s.producers && s'.queue == s.queue && s'.handled == s.handled
  {
    s' := Go(s, FlushBegin(0));
  }

  // ----- exceptions -----

  /** From the loop top the worker pops the oldest record. */
  lemma Pops(s: State) returns (s': State)
    requires Reachable(s) && s.running && s.worker == LoopTop && AllOutside(s.producers)
    requires s.queue.items != [] && Q.Oldest(s.queue) >= 0
    ensures Reachable(s')
    ensures s' == s.(queue := Q.Pop(s.queue).1, worker := Handling(Main, s.queue.items[0]))
  {
    s' := Go(s, LoadRunning);
    s' := Go(s', PopSection);
    s' := Go(s', NotifyFull(0));
  }

  /** The handling throws while it refills the timestamp cache ... */
  lemma Throws(s: State, torn: string) returns (s': State)
    requires Reachable(s) && s.worker.Handling? && s.out.stamped && !s.out.memo.valid
    ensures Reachable(s')
    ensures s'.out == s.out.(memo := Memo(true, SecondOf(s.out.env, s.worker.record), torn), scratch := s'.out.scratch)
    ensures s' == s.(worker := Bumping(s.worker.phase), out := s'.out, handled := s'.handled, fates := s'.fates)
  {
    s' := Go(s, Handle(FormatThrows("", Torn(torn))));
  }

  /** ... and the loop goes on. */
  lemma Tears(s: State, torn: string) returns (s': State)
    requires Reachable(s) && s.worker.Handling? && s.worker.phase == Main && s.processed + 1 != s.submitted
    requires s.out.stamped && !s.out.memo.valid
    ensures Reachable(s') && s'.worker == LoopTop
    ensures s'.out == s.out.(memo := Memo(true, SecondOf(s.out.env, s.worker.record), torn), scratch := s'.out.scratch)
    ensures s' == s.(worker := LoopTop, processed := s.processed + 1, out := s'.out,
                     handled := s'.handled, fates := s'.fates)
  {
    s' := Throws(s, torn);
    s' := Go(s', BumpProcessed);
    s' := Go(s', CompareSubmitted);
  }

  lemma StampIsUsed()
    ensures UsesStamp(Patterns.STAMP_PATTERN)
  {
    var p := Patterns.STAMP_PATTERN;
    assert Patterns.Reading(p) == [Patterns.Hole(Patterns.Timestamp)] + Patterns.Reading(p[|p|..]);
  }

  /** One sink, the timestamp as the pattern, two records queued and counted. */
  lemma TwoLogged(env: Patterns.Platform, a: LogRecord, b: LogRecord) returns (s: State)
    ensures Reachable(s) && s.out.env == env && s.out.pattern == Patterns.STAMP_PATTERN && s.out.sinks == [[]]
    ensures s.out.stamped && s.out.memo == EMPTY && s.handled == [] && s.fates == []
    ensures s.queue == Q.Model(2, Block, [a, b], false, [a, b], [], []) && s.producers == [Outside]
    ensures s.worker == LoopTop && s.running && s.submitted == 2 && s.processed == 0
  {
    s := State(Output(env, Patterns.STAMP_PATTERN, true, "", EMPTY, [[]]), Q.Fresh(2, Block), true, 0, 0, None,
               [Outside], LoopTop, [], NotStopping, [], [], 0);
    StampIsUsed();
    InitialIsReachable(s);
    s := Logs(s, 0, a);
    assert s.queue.items == [a] && s.queue.accepted == [a];
    s := Logs(s, 0, b);
    assert s.queue.items == [a, b] && s.queue.accepted == [a, b];
  }

  ghost predicate TornWritten(s: State, env: Patterns.Platform, b: LogRecord, torn: string) {
    && Reachable(s) && s.out.env == env && s.out.pattern == Patterns.STAMP_PATTERN
    && s.out.sinks == [[Patterns.FormatLine(Stamped(env, torn), s.out.pattern, b)]]
  }

  /** An exception while the cache is refilled for one record puts its torn text into the
      line of the next record of the same second. */
  lemma TornLineIsWritten(env: Patterns.Platform, a: LogRecord, b: LogRecord, torn: string)
    requires SecondOf(env, a) == SecondOf(env, b)
    ensures exists s :: TornWritten(s, env, b, torn)
  {
    var s := TwoLogged(env, a, b);
    s := Pops(s);
    s := Tears(s, torn);
    s := Pops(s);
    s := Writes(s);
    LineIsStamped(env, s.out.pattern, Memo(true, SecondOf(env, a), torn), b);
    assert TornWritten(s, env, b, torn);
  }

  /** A handling that reaches the only sink, still empty. */
  lemma Writes(s: State) returns (s': State)
    requires Reachable(s) && s.worker.Handling? && s.out.sinks == [[]]
    ensures Reachable(s') && s'.out.env == s.out.env && s'.out.pattern == s.out.pattern
    ensures s'.out.sinks == [[LineUnder(s.out.env, s.out.pattern, s.out.memo, s.worker.record)]]
  {
    WriteFacts(s.out, s.worker.record, Reaches(1));
    s' := Go(s, Handle(Reaches(1)));
    var line := LineUnder(s.out.env, s.out.pattern, s.out.memo, s.worker.record);
    assert s.out.sinks[0] + [line] == [line];
  }

  // ----- flush -----

  /** Producer 0 has stored a and not counted it; producer 1's call for b has returned;
      then flush is called, and passes with b, accepted before the call, not handled. */
  ghost predicate MissesRecord(s: State, s': State, a: LogRecord, b: LogRecord) {
    && JustBegun(s, 0) && s.queue.policy == Block && s.queue.accepted == [a, b]
    && s.producers == [AboutToNotify, Outside]
    && Leads(s, s', SameCall(0)) && Passes(s', 0) && !Handled(s', 1)
  }

  lemma OneUncounted(env: Patterns.Platform, a: LogRecord) returns (s: State)
    ensures Reachable(s) && s.running && s.producers == [AboutToNotify, Outside] && s.flushers == [Resting]
    ensures s.queue == Q.Model(2, Block, [a], false, [a], [], []) && s.handled == []
  {
    s := Start(env, 2, Block, 2, 1);
    s := Stores(s, 0, a);
    assert s.queue.items == [a] && s.queue.accepted == [a];
  }

  lemma FlushWithOneUncounted(env: Patterns.Platform, a: LogRecord, b: LogRecord) returns (s: State)
    ensures JustBegun(s, 0) && s.queue == Q.Model(2, Block, [a, b], false, [a, b], [], []) && s.handled == []
    ensures s.producers == [AboutToNotify, Outside]
  {
    s := OneUncounted(env, a);
    s := Logs(s, 1, b);
    assert s.queue.items == [a, b] && s.queue.accepted == [a, b];
    s := CallsFlush(s);
  }

  lemma FlushCanMissARecord(env: Patterns.Platform, a: LogRecord, b: LogRecord)
    ensures exists s, s' :: MissesRecord(s, s', a, b)
  {
    var s := FlushWithOneUncounted(env, a, b);
    assert Plays(s.producers[0], InFlight);
    CountZero(s.producers, InFlight);
    var s', i := IncompletePassExists(s, 0);
    SameCallGoesOn(s, s', 0);
    LeadsReachable(s, s', SameCall(0));
    LastIsMissed(s', i, 1);
    assert MissesRecord(s, s', a, b);
  }

  lemma LastIsMissed(s: State, i: nat, last: nat)
    requires Reachable(s) && s.queue.policy == Block && i <= last && !Handled(s, i)
    ensures !Handled(s, last)
  {
    ReachableInv(s);
    CountersNow(s);
    if i < |s.handled| { DeliveredIsPrefix(s.queue, i); }
    UnhandledIsMissed(s, last);
  }

  /** A call to flush that nothing disturbs ends parked with equal counters. */
  ghost predicate MissesWakeup(s: State, s': State) {
    && JustBegun(s, 0) && s.queue.policy == Block
    && Leads(s, s', Undisturbed(0)) && Stranded(s', 0) && s'.processed == s'.submitted
  }

  /** Flush is called while producer 0 is about to push. */
  lemma FlushDuringLog(env: Patterns.Platform, a: LogRecord, capacity: nat, policy: OverflowPolicy,
                       producers: nat, flushers: nat) returns (s: State)
    requires producers > 0 && flushers > 0
    ensures JustBegun(s, 0) && !AllOutside(s.producers) && s.queue == Q.Fresh(capacity, policy)
    ensures |s.producers| == producers && |s.flushers| == flushers
  {
    s := Start(env, capacity, policy, producers, flushers);
    s := Go(s, LogBegin(0, a));
    s := Go(s, FlushBegin(0));
    assert s.producers[0] == Entering(a);
  }

  /** A call to log has begun before flush: the worker and the flusher both see unequal
      counters and park, then the producer makes them equal. */
  lemma WakeupCanBeMissed(env: Patterns.Platform, a: LogRecord)
    ensures exists s, s' :: MissesWakeup(s, s')
  {
    var s := FlushDuringLog(env, a, 1, Block, 1, 1);
    var s' := StrandingExists(s, 0);
    LeadsGrows(s, s', Undisturbed(0));
    LeadsReachable(s, s', Undisturbed(0));
    RestCounters(s');
    assert MissesWakeup(s, s');
  }

  lemma RestCounters(s: State)
    requires Reachable(s) && Usable(s.queue.capacity, s.queue.policy) && !CanMove(s) && s.queue.policy == Block
    ensures s.processed == s.submitted
  {
    OnlyRestIsStuck(s);
    CountZero(s.producers, InFlight);
    CountersInBlock(s);
    if s.worker.Exited? { AfterExit(s); }
  }

  lemma CountersInBlock(s: State)
    requires Reachable(s) && s.queue.policy == Block
    ensures s.submitted + Count(s.producers, InFlight) == s.processed + InHand(s.worker) + |s.queue.items|
  {
    CountersConserved(s);
    ExactlyOnceFifo(s);
  }

  /** a is queued and counted. */
  lemma OneLogged(env: Patterns.Platform, a: LogRecord) returns (s: State)
    ensures Reachable(s) && s.running && s.producers == [Outside] && s.flushers == [Resting]
    ensures s.queue == Q.Model(1, DropOldest, [a], false, [a], [], [])
  {
    s := Start(env, 1, DropOldest, 1, 1);
    s := Logs(s, 0, a);
    assert s.queue.items == [a] && s.queue.accepted == [a];
  }

  /** b has evicted a, both are counted, nobody is inside log(); then flush is called. */
  lemma FlushAfterEviction(env: Patterns.Platform, a: LogRecord, b: LogRecord) returns (s: State)
    ensures JustBegun(s, 0) && AllOutside(s.producers)
    ensures s.queue == Q.Model(1, DropOldest, [b], false, [a, b], [], [0])
  {
    s := OneLogged(env, a);
    s := Logs(s, 0, b);
    assert s.queue.items == [b] && s.queue.accepted == [a, b] && s.queue.evicted == [0];
    s := CallsFlush(s);
  }

  ghost predicate StrandedByEviction(s: State, s': State) {
    JustBegun(s, 0) && AllOutside(s.producers) && Leads(s, s', Undisturbed(0)) && Stranded(s', 0)
  }

  /** After an eviction a flush that nobody disturbs is left parked. */
  lemma EvictionStrandsFlush(env: Patterns.Platform, a: LogRecord, b: LogRecord)
    ensures exists s, s' :: StrandedByEviction(s, s')
  {
    var s := FlushAfterEviction(env, a, b);
    var s' := StrandingExists(s, 0);
    assert StrandedByEviction(s, s');
  }

  ghost predicate PassesOverEviction(s: State, s': State) {
    && JustBegun(s, 0) && AllOutside(s.producers) && s.queue.evicted == [0]
    && Leads(s, s', SameCall(0)) && Passes(s', 0) && !Handled(s', 0)
  }

  /** A flush that calls to log overlap can pass all the same, although record 0 was
      evicted and never handled. */
  lemma FlushCanPassAfterEviction(env: Patterns.Platform, a: LogRecord, b: LogRecord)
    ensures exists s, s' :: PassesOverEviction(s, s')
  {
    var s := FlushAfterEviction(env, a, b);
    var s' := EvictedBeforePass(s, 0);
    LeadsReachable(s, s', SameCall(0));
    ReachableInv(s');
    EvictedIsMissed(s', 0);
    assert PassesOverEviction(s, s');
  }

  // ----- which configurations can get stuck -----

  /** No call to log, no worker and no stop is ever stuck, whatever the run. A parked
      flush counts as at rest here. */
  ghost predicate DeadlockFree(capacity: nat, policy: OverflowPolicy) {
    forall s | Reachable(s) && s.queue.capacity == capacity && s.queue.policy == policy ::
      !CanMove(s) ==> Quiescent(s)
  }

  /** No thread at all is ever stuck inside a call, flushers included. */
  ghost predicate NobodyStuck(capacity: nat, policy: OverflowPolicy, producers: nat, flushers: nat) {
    forall s | Reachable(s) && s.queue.capacity == capacity && s.queue.policy == policy
        && |s.producers| == producers && |s.flushers| == flushers ::
      !CanMove(s) ==> Quiescent(s) && forall j | 0 <= j < flushers :: s.flushers[j].Resting?
  }

  /** Producer 0 cannot finish its push, everybody else waits. */
  ghost predicate Jammed(s: State) {
    && s.producers != [] && !s.producers[0].Outside?
    && (s.producers[0].WaitingFull?
        || (s.producers[0].Entering? && s.queue.policy == DropOldest && s.queue.capacity == 0 && s.queue.items == []))
    && (forall i | 0 < i < |s.producers| :: s.producers[i].Outside?)
    && (forall j | 0 <= j < |s.flushers| :: s.flushers[j].Resting?)
    && s.worker.PopWaiting? && s.stopper == NotStopping
  }

  lemma JammedIsStuck(s: State)
    requires Jammed(s)
    ensures !CanMove(s) && !Quiescent(s)
  {}

  /** Without capacity, Block parks the first push for ever and DropOldest has no
      defined next step. */
  lemma Jams(env: Patterns.Platform, a: LogRecord, policy: OverflowPolicy, producers: nat, flushers: nat)
    returns (s: State)
    requires !Usable(0, policy) && producers > 0
    ensures Reachable(s) && Jammed(s) && s.queue == Q.Fresh(0, policy)
    ensures |s.producers| == producers && |s.flushers| == flushers
  {
    s := Start(env, 0, policy, producers, flushers);
    s := Go(s, LoadRunning);
    s := Go(s, PopSection);
    s := Go(s, LogBegin(0, a));
    if policy == Block { s := Go(s, PushSection(0)); }
  }

  /** Exactly which queues are free of deadlock. */
  lemma DeadlockFreeIffUsable(env: Patterns.Platform, a: LogRecord, capacity: nat, policy: OverflowPolicy)
    ensures DeadlockFree(capacity, policy) <==> Usable(capacity, policy)
  {
    if Usable(capacity, policy) {
      forall s | Reachable(s) && s.queue.capacity == capacity && s.queue.policy == policy
        ensures !CanMove(s) ==> Quiescent(s)
      {
        OnlyRestIsStuck(s);
      }
    } else {
      var s := Jams(env, a, policy, 1, 0);
      JammedIsStuck(s);
    }
  }

  lemma NotStuck(s: State)
    requires Reachable(s) && !CanMove(s)
    requires s.producers == [] || Usable(s.queue.capacity, s.queue.policy)
    requires s.producers == [] || s.flushers == [] || s.queue.capacity == 0
    ensures Quiescent(s) && forall j | 0 <= j < |s.flushers| :: s.flushers[j].Resting?
  {
    ReachableInv(s);
    SoundOnlyRestIsStuck(s);
    forall j: nat | j < |s.flushers| ensures s.flushers[j].Resting? {
      NoRoomNoParking(s, j);
    }
  }

  lemma FlusherStuck(env: Patterns.Platform, a: LogRecord, capacity: nat, policy: OverflowPolicy,
                     producers: nat, flushers: nat) returns (s: State)
    requires capacity > 0 && producers > 0 && flushers > 0
    ensures Reachable(s) && s.queue.capacity == capacity && s.queue.policy == policy
    ensures |s.producers| == producers && |s.flushers| == flushers && Stranded(s, 0)
  {
    var s1 := FlushDuringLog(env, a, capacity, policy, producers, flushers);
    s := StrandingExists(s1, 0);
    LeadsGrows(s1, s, Undisturbed(0));
    LeadsReachable(s1, s, Undisturbed(0));
  }

  /** Exactly which configurations leave no thread stuck: those without producers; those
      without flushers whose queue is usable; of the others only those in which nothing
      is ever stored. */
  lemma NobodyStuckIff(env: Patterns.Platform, a: LogRecord, capacity: nat, policy: OverflowPolicy,
                       producers: nat, flushers: nat)
    ensures NobodyStuck(capacity, policy, producers, flushers) <==>
      producers == 0 || (Usable(capacity, policy) && (flushers == 0 || capacity == 0))
  {
    if producers == 0 || (Usable(capacity, policy) && (flushers == 0 || capacity == 0)) {
      forall s | Reachable(s) && s.queue.capacity == capacity && s.queue.policy == policy
          && |s.producers| == producers && |s.flushers| == flushers && !CanMove(s)
        ensures Quiescent(s) && forall j | 0 <= j < flushers :: s.flushers[j].Resting?
      {
        NotStuck(s);
      }
    } else if !Usable(capacity, policy) {
      var s := Jams(env, a, policy, producers, flushers);
      JammedIsStuck(s);
    } else {
      var s := FlusherStuck(env, a, capacity, policy, producers, flushers);
      assert !s.flushers[0].Resting?;
    }
  }

  // ----- which configurations can lose a record at the end -----

  ghost predicate LostAfterExit(s: State, a: LogRecord, capacity: nat, policy: OverflowPolicy) {
    && Reachable(s) && s.worker.Exited? && s.queue.capacity == capacity && s.queue.policy == policy
    && s.queue.accepted == s.queue.items == [a] && s.handled == []
  }

  /** Under a policy other than Block a record can be accepted after the worker has
      gone, and is never written. */
  lemma LateRecordIsLost(env: Patterns.Platform, a: LogRecord, capacity: nat, policy: OverflowPolicy)
    requires capacity > 0 && policy != Block
    ensures exists s :: LostAfterExit(s, a, capacity, policy)
  {
    var s := Start(env, capacity, policy, 1, 0);
    s := Stops(s);
    s := DrainsEmpty(s);
    s := Stores(s, 0, a);
    assert LostAfterExit(s, a, capacity, policy);
  }

  /** Whatever the run, an exited worker has handled everything that was accepted. */
  ghost predicate LosesNothing(capacity: nat, policy: OverflowPolicy) {
    forall s | Reachable(s) && s.worker.Exited? && s.queue.capacity == capacity && s.queue.policy == policy ::
      s.queue.items == [] && s.handled == s.queue.accepted
  }

  /** Exactly which queues lose nothing. */
  lemma LosesNothingIff(env: Patterns.Platform, a: LogRecord, capacity: nat, policy: OverflowPolicy)
    ensures LosesNothing(capacity, policy) <==> policy == Block || capacity == 0
  {
    if policy == Block || capacity == 0 {
      forall s | Reachable(s) && s.worker.Exited? && s.queue.capacity == capacity && s.queue.policy == policy
        ensures s.queue.items == [] && s.handled == s.queue.accepted
      {
        AfterExit(s);
        ReachableInv(s);
        CountersNow(s);
        if capacity == 0 && s.queue.accepted != [] { ReachableNeedsRoom(s); }
      }
    } else {
      LateRecordIsLost(env, a, capacity, policy);
    }
  }
}
