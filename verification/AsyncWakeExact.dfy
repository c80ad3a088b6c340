/** Exactly when a call to flush that nobody disturbs is sure not to be left parked. */
module AsyncWakeExact {
  import opened Records
  import opened AsyncProtocol
  import opened AsyncInvariants
  import opened AsyncTheorems
  import opened AsyncProgress
  import opened AsyncFlushExact
  import Q = QueueModel

  /** Flusher j is parked and no thread can move. */
  ghost predicate Stranded(s: State, j: nat) {
    j < |s.flushers| && s.flushers[j].WaitingFlush? && !CanMove(s)
  }

  /** No call to log and no stop begins during flusher j's call: whatever the calls
      already in progress do, it is never left parked. */
  ghost predicate NeverStranded(s: State, j: nat) {
    forall s' | Leads(s, s', Undisturbed(j)) :: !Stranded(s', j)
  }

  // ----- enough -----

  lemma {:induction false} CalmCallRun(s: State, acts: seq<Action>, j: nat)
    requires Inv(s) && CalmCall(s, j) && Runs(s, acts) && Within(acts, Undisturbed(j))
    ensures CalmCall(After(s, acts), j)
    decreases |acts|
  {
    if acts != [] {
      InvStep(s, acts[0]);
      CalmCallStep(s, acts[0], j);
      CalmCallRun(Apply(s, acts[0]), acts[1..], j);
    }
  }

  lemma CalmCallIsNeverStranded(s: State, s': State, j: nat)
    requires Inv(s) && CalmCall(s, j) && Leads(s, s', Undisturbed(j))
    ensures !Stranded(s', j)
  {
    var acts :| Runs(s, acts) && Within(acts, Undisturbed(j)) && After(s, acts) == s';
    InvAfter(s, acts);
    CalmCallRun(s, acts, j);
    CalmCallIsNotAtRest(s', j);
  }

  /** Where nothing can be accepted the counters stay 0 and no flush ever parks. */
  ghost predicate NothingParks(s: State) {
    s.queue.accepted == [] ==> forall j | 0 <= j < |s.flushers| :: NotParked(s.flushers[j])
  }

  predicate NotParked(f: Flusher) {
    && !f.WaitingFlush? && !f.WokenFlush?
    && (f.SawProcessed? ==> f.processed == 0) && (f.SawSubmitted? ==> f.submitted == 0)
  }

  lemma NothingParksLoad(s: State, a: Action, j: nat)
    requires Enabled(s, a) && ByFlusher(a) && s.submitted == s.processed == 0
    requires j < |s.flushers| && NotParked(s.flushers[j])
    ensures j < |Apply(s, a).flushers| && NotParked(Apply(s, a).flushers[j])
  {}

  lemma NothingParksOther(s: State, a: Action, j: nat)
    requires Enabled(s, a) && !ByFlusher(a)
    requires j < |s.flushers| && NotParked(s.flushers[j])
    ensures j < |Apply(s, a).flushers| && NotParked(Apply(s, a).flushers[j])
  {}

  lemma NothingParksStep(s: State, a: Action, j: nat)
    requires Inv(s) && s.queue.accepted == [] && Enabled(s, a)
    requires j < |s.flushers| && NotParked(s.flushers[j])
    ensures j < |Apply(s, a).flushers| && NotParked(Apply(s, a).flushers[j])
  {
    CountersNow(s);
    if ByFlusher(a) { NothingParksLoad(s, a, j); } else { NothingParksOther(s, a, j); }
  }

  lemma {:induction false} NothingParksRun(s: State, acts: seq<Action>)
    requires Inv(s) && NothingParks(s) && Runs(s, acts)
    ensures NothingParks(After(s, acts))
    decreases |acts|
  {
    if acts != [] {
      var s1 := Apply(s, acts[0]);
      InvStep(s, acts[0]);
      GrowsStep(s, acts[0]);
      if s1.queue.accepted == [] {
        forall j: nat | j < |s1.flushers| ensures NotParked(s1.flushers[j]) {
          NothingParksStep(s, acts[0], j);
        }
      }
      NothingParksRun(s1, acts[1..]);
    }
  }

  lemma ReachableNothingParks(s: State)
    requires Reachable(s) && s.queue.accepted == []
    ensures forall j | 0 <= j < |s.flushers| :: NotParked(s.flushers[j])
  {
    var init, acts :| Initial(init) && Runs(init, acts) && After(init, acts) == s;
    InitialInv(init);
    NothingParksRun(init, acts);
  }

  /** In particular not with a queue without capacity, nor without producers. */
  lemma NoRoomNoParking(s: State, j: nat)
    requires Reachable(s) && (s.queue.capacity == 0 || s.producers == [])
    ensures !Stranded(s, j)
  {
    if s.queue.accepted != [] { ReachableNeedsRoom(s); }
    ReachableNothingParks(s);
  }

  // ----- otherwise a run can be built that strands the call -----

  ghost predicate AwaitsMutex(s: State, j: nat) {
    Reachable(s) && s.running && j < |s.flushers| && s.flushers[j].Locking?
  }

  /** Everybody else waits, flusher j is about to take the mutex, and producer i, if
      there is one, about to count its record. */
  ghost predicate Ready(s: State, i: Option<nat>, j: nat) {
    && Inv(s) && s.running && Holdable(s, i, Some(j)) && Quiescent(Hide(s, i, Some(j)))
    && (i.Some? ==> s.producers[i.value].AboutToCount?)
  }

  lemma ReadyFacts(s: State, i: Option<nat>, j: nat)
    requires Ready(s, i, j)
    ensures s.worker.PopWaiting? && s.queue.items == [] && !s.queue.closed && s.mutex == None
    ensures s.stopper.NotStopping?
    ensures forall k | 0 <= k < |s.flushers| && k != j :: s.flushers[k].Resting? || s.flushers[k].WaitingFlush?
    ensures forall k | 0 <= k < |s.producers| && i != Some(k) :: s.producers[k].Outside?
    ensures s.processed + |s.queue.evicted| == s.submitted + (if i.Some? then 1 else 0)
  {
    var e := Hide(s, i, Some(j));
    forall k | 0 <= k < |s.flushers| && k != j
      ensures s.flushers[k].Resting? || s.flushers[k].WaitingFlush?
    {
      assert e.flushers[k] == s.flushers[k];
    }
    forall k | 0 <= k < |s.producers| && i != Some(k) ensures s.producers[k].Outside? {
      assert e.producers[k] == s.producers[k];
    }
    CountersNow(s);
    CountZero(e.producers, InFlight);
    if i.Some? { CountUpdate(s.producers, i.value, Outside, InFlight); }
    NobodyInside(s);
  }

  lemma NobodyInside(s: State)
    requires MutexInv(s) && forall k | 0 <= k < |s.flushers| :: !HoldsMutex(s.flushers[k])
    ensures s.mutex == None
  {}

  /** Flusher j evaluates its predicate while the counters differ. */
  lemma ParksNow(s: State, s1: State, j: nat) returns (s2: State)
    requires Leads(s, s1, Undisturbed(j)) && s1.mutex == None && s1.processed != s1.submitted
    requires j < |s1.flushers| && s1.flushers[j].Locking?
    ensures Leads(s, s2, Undisturbed(j))
    ensures s2 == s1.(flushers := s1.flushers[j := WaitingFlush(s1.flushers[j].view)])
  {
    var l, fs := Undisturbed(j), s1.flushers;
    s2 := Extend(s, s1, l, FlushLock(j));
    s2 := Extend(s, s2, l, LoadProcessed(j));
    s2 := Extend(s, s2, l, LoadSubmitted(j));
    var v := fs[j].view;
    assert fs[j := Holding(v)][j := SawProcessed(v, s1.processed)][j := WaitingFlush(v)] == fs[j := WaitingFlush(v)];
  }

  ghost predicate AllParked(s: State) {
    && AllOutside(s.producers) && s.worker.PopWaiting? && s.stopper.NotStopping?
    && forall k | 0 <= k < |s.flushers| :: s.flushers[k].Resting? || s.flushers[k].WaitingFlush?
  }

  lemma AllParkedIsStuck(s: State)
    requires AllParked(s)
    ensures !CanMove(s)
  {}

  /** After an eviction the counters stay apart: the flusher parks last. */
  lemma StrandsLast(s: State, s1: State, j: nat) returns (s2: State)
    requires Leads(s, s1, Undisturbed(j)) && Ready(s1, None, j) && s1.queue.evicted != []
    ensures Leads(s, s2, Undisturbed(j)) && Stranded(s2, j)
  {
    ReadyFacts(s1, None, j);
    s2 := ParksNow(s, s1, j);
    AllParkedIsStuck(s2);
  }

  /** Without one the flusher parks first, then the producer makes the counters equal. */
  lemma StrandsFirst(s: State, s1: State, i: nat, j: nat) returns (s2: State)
    requires Leads(s, s1, Undisturbed(j)) && Ready(s1, Some(i), j) && s1.queue.evicted == []
    ensures Leads(s, s2, Undisturbed(j)) && Stranded(s2, j)
  {
    ReadyFacts(s1, Some(i), j);
    s2 := ParksNow(s, s1, j);
    s2 := Extend(s, s2, Undisturbed(j), CountSubmitted(i));
    AllParkedIsStuck(s2);
  }

  lemma StrandsEvicted(s: State, s1: State, j: nat) returns (s2: State)
    requires Leads(s, s1, Undisturbed(j)) && Inv(s1) && s1.running && Holdable(s1, None, Some(j))
    requires s1.queue.evicted != [] && s1.queue.capacity > 0
    ensures Leads(s, s2, Undisturbed(j)) && Stranded(s2, j)
  {
    var sa := Settle(s, s1, Undisturbed(j), None, Some(j));
    s2 := StrandsLast(s, sa, j);
  }

  /** A producer about to count while the flusher waits for the mutex is enough. */
  lemma StrandsUncounted(s: State, s1: State, i: nat, j: nat) returns (s2: State)
    requires Leads(s, s1, Undisturbed(j)) && Inv(s1) && s1.running && s1.queue.capacity > 0
    requires i < |s1.producers| && s1.producers[i].AboutToCount?
    requires Holdable(s1, None, Some(j))
    ensures Leads(s, s2, Undisturbed(j)) && Stranded(s2, j)
  {
    var sa := Settle(s, s1, Undisturbed(j), Some(i), Some(j));
    if sa.queue.evicted == [] {
      s2 := StrandsFirst(s, sa, i, j);
    } else {
      s2 := StrandsEvicted(s, sa, j);
    }
  }

  /** Any other producer inside log() can be brought there: the worker empties the
      queue, then there is room for its record. */
  lemma GetsToCount(s: State, s1: State, i: nat, j: nat) returns (s2: State)
    requires Inv(s) && Along(s, s1, Undisturbed(j)) && s1.queue.items == [] && s1.queue.capacity > 0
    requires i < |s1.producers| && !s1.producers[i].Outside? && !s1.queue.closed && Q.Oldest(s1.queue) >= 0
    ensures Leads(s, s2, Undisturbed(j)) && s2.running && s2.queue.capacity > 0
    ensures i < |s2.producers| && s2.producers[i].AboutToCount?
    ensures j < |s2.flushers| && s2.flushers[j].Locking?
  {
    var l := Undisturbed(j);
    s2 := s1;
    if s2.producers[i].WaitingFull? { s2 := Extend(s, s2, l, SpuriousFull(i)); }
    if s2.producers[i].Entering? || s2.producers[i].WokenFull? { s2 := Extend(s, s2, l, PushSection(i)); }
    if s2.producers[i].AboutToNotify? { s2 := Extend(s, s2, l, NotifyEmpty(i)); }
  }

  /** Where the condition fails, a run strands the call. */
  lemma StrandingExists(s: State, j: nat) returns (s2: State)
    requires AwaitsMutex(s, j) && s.queue.capacity > 0
    requires !AllOutside(s.producers) || s.queue.evicted != []
    ensures Leads(s, s2, Undisturbed(j)) && Stranded(s2, j)
  {
    ReachableInv(s);
    LeadsSelf(s, Undisturbed(j));
    if s.queue.evicted != [] {
      s2 := StrandsEvicted(s, s, j);
    } else {
      var i: nat :| i < |s.producers| && !s.producers[i].Outside?;
      var s1 := BringsToCount(s, i, j);
      LeadsInv(s, s1, Undisturbed(j));
      s2 := StrandsUncounted(s, s1, i, j);
    }
  }

  lemma BringsToCount(s: State, i: nat, j: nat) returns (s2: State)
    requires AwaitsMutex(s, j) && s.queue.capacity > 0 && s.queue.evicted == []
    requires i < |s.producers| && !s.producers[i].Outside?
    ensures Leads(s, s2, Undisturbed(j)) && s2.running && s2.queue.capacity > 0
    ensures i < |s2.producers| && s2.producers[i].AboutToCount?
    ensures j < |s2.flushers| && s2.flushers[j].Locking?
  {
    ReachableInv(s);
    LeadsSelf(s, Undisturbed(j));
    s2 := FreeMutex(s, s, Undisturbed(j));
    s2 := EmptiesQueue(s, s2, i, j);
    LeadsInv(s, s2, Undisturbed(j));
    s2 := GetsToCount(s, s2, i, j);
  }

  /** The worker empties the queue; nobody leaves log() meanwhile. */
  lemma {:induction false} EmptiesQueue(s: State, s1: State, i: nat, j: nat) returns (s2: State)
    requires Inv(s) && Along(s, s1, Undisturbed(j)) && s1.mutex == None
    requires i < |s1.producers| && !s1.producers[i].Outside?
    ensures Along(s, s2, Undisturbed(j)) && s2.queue.items == []
    ensures i < |s2.producers| && !s2.producers[i].Outside?
    decreases WorkRank(s1)
  {
    s2 := s1;
    if s1.queue.items != [] {
      assert s1.processed < |s1.queue.accepted| by {
        LeadsInv(s, s1, Undisturbed(j));
        CountersNow(s1);
      }
      s2 := Works(s, s1, Undisturbed(j));
      s2 := EmptiesQueue(s, s2, i, j);
    }
  }

  // ----- exactly -----

  /** A call to flush in a running backend, with no call to log and no stop beginning
      while it lasts, is sure never to be left parked exactly when no call to log is in
      progress when it begins and nothing was evicted (or nothing can ever be queued). */
  lemma NeverStrandedIff(s: State, j: nat)
    requires JustBegun(s, j)
    ensures NeverStranded(s, j) <==>
      s.queue.capacity == 0 || (AllOutside(s.producers) && s.queue.evicted == [])
  {
    ReachableInv(s);
    if s.queue.capacity == 0 {
      forall s' | Leads(s, s', Undisturbed(j)) ensures !Stranded(s', j) {
        LeadsReachable(s, s', Undisturbed(j));
        LeadsGrows(s, s', Undisturbed(j));
        NoRoomNoParking(s', j);
      }
    } else if AllOutside(s.producers) && s.queue.evicted == [] {
      forall s' | Leads(s, s', Undisturbed(j)) ensures !Stranded(s', j) {
        CalmCallIsNeverStranded(s, s', j);
      }
    } else {
      var s2 := StrandingExists(s, j);
    }
  }

  /** The same with no limit on what begins during the call. */
  ghost predicate NeverStrandedAtAll(s: State, j: nat) {
    forall s' | Leads(s, s', SameCall(j)) :: !Stranded(s', j)
  }

  lemma StepThenLeads(s: State, a: Action, s': State, j: nat)
    requires Enabled(s, a) && Allows(SameCall(j), a) && Leads(Apply(s, a), s', Undisturbed(j))
    ensures Leads(s, s', SameCall(j))
  {
    var acts :| Runs(Apply(s, a), acts) && Within(acts, Undisturbed(j)) && After(Apply(s, a), acts) == s';
    var all := [a] + acts;
    assert all[1..] == acts;
    assert Runs(s, all) && After(s, all) == s' && Within(all, SameCall(j));
  }

  lemma UndisturbedIsSameCall(s: State, s': State, j: nat)
    requires Leads(s, s', Undisturbed(j))
    ensures Leads(s, s', SameCall(j))
  {
    var acts :| Runs(s, acts) && Within(acts, Undisturbed(j)) && After(s, acts) == s';
    assert Within(acts, SameCall(j));
  }

  lemma NewLogStrands(s: State, j: nat, r: LogRecord) returns (s2: State)
    requires AwaitsMutex(s, j) && s.queue.capacity > 0 && s.producers != [] && s.producers[0].Outside?
    ensures Leads(s, s2, SameCall(j)) && Stranded(s2, j)
  {
    var a := LogBegin(0, r);
    ReachableStep(s, a);
    assert !Apply(s, a).producers[0].Outside?;
    s2 := StrandingExists(Apply(s, a), j);
    StepThenLeads(s, a, s2, j);
  }

  /** Where calls to log may begin during it, no flush is sure not to be left parked,
      unless nothing can ever be queued or nobody is there to log. */
  lemma NeverStrandedAtAllIff(s: State, j: nat)
    requires JustBegun(s, j)
    ensures NeverStrandedAtAll(s, j) <==> s.queue.capacity == 0 || s.producers == []
  {
    if s.queue.capacity == 0 || s.producers == [] {
      forall s' | Leads(s, s', SameCall(j)) ensures !Stranded(s', j) {
        LeadsReachable(s, s', SameCall(j));
        LeadsGrows(s, s', SameCall(j));
        NoRoomNoParking(s', j);
      }
    } else if s.producers[0].Outside? {
      var s2 := NewLogStrands(s, j, LogRecord(0, Info, 0, 0, "", "", 0, "", ""));
    } else {
      var s2 := StrandingExists(s, j);
      UndisturbedIsSameCall(s, s2, j);
    }
  }

  lemma LeadsGrows(s: State, s': State, l: Limit)
    requires Leads(s, s', l)
    ensures Grows(s, s')
  {
    var acts :| Runs(s, acts) && Within(acts, l) && After(s, acts) == s';
    ParametersStay(s, acts);
  }

  // ----- after an eviction -----

  /** Flusher j is in a call that no log() overlaps, after an eviction. */
  ghost predicate EvictedCall(s: State, j: nat) {
    s.queue.evicted != [] && j < |s.flushers| && !s.flushers[j].Resting? && s.flushers[j].view.calm
  }

  lemma EvictedCallByFlusher(s: State, a: Action, j: nat)
    requires EvictedCall(s, j) && Enabled(s, a) && ByFlusher(a) && a != SinkFlush(j)
    ensures EvictedCall(Apply(s, a), j)
  {}

  lemma EvictedCallByOther(s: State, a: Action, j: nat)
    requires EvictedCall(s, j) && Enabled(s, a) && !ByFlusher(a) && !a.LogBegin?
    ensures EvictedCall(Apply(s, a), j)
  {
    GrowsStep(s, a);
  }

  lemma EvictedCallStep(s: State, a: Action, j: nat)
    requires Reachable(s) && EvictedCall(s, j) && Enabled(s, a) && Progress(a)
    ensures a != SinkFlush(j) && EvictedCall(Apply(s, a), j)
  {
    NoCalmPassAfterEviction(s, j);
    if ByFlusher(a) { EvictedCallByFlusher(s, a, j); } else { EvictedCallByOther(s, a, j); }
  }

  lemma EvictedCallAtRest(s: State, j: nat)
    requires Reachable(s) && EvictedCall(s, j) && !CanMove(s)
    ensures Stranded(s, j)
  {
    assert s.queue.accepted != [] by { ReachableInv(s); }
    ReachableNeedsRoom(s);
    OnlyRestIsStuck(s);
  }

  lemma {:induction false} EvictedCallRun(s: State, acts: seq<Action>, j: nat)
    requires Reachable(s) && EvictedCall(s, j) && Runs(s, acts) && AllProgress(acts)
    ensures SinkFlush(j) !in acts && EvictedCall(After(s, acts), j) && Reachable(After(s, acts))
    decreases |acts|
  {
    if acts != [] {
      EvictedCallStep(s, acts[0], j);
      ReachableStep(s, acts[0]);
      EvictedCallRun(Apply(s, acts[0]), acts[1..], j);
    }
  }

  /** Such a call never passes: every sequence of the threads' own steps is bounded, does
      not contain its pass, and if it ends because no thread can move, the flusher is left
      parked. */
  lemma EvictionLeavesParked(s: State, acts: seq<Action>, j: nat)
    requires Reachable(s) && EvictedCall(s, j) && Runs(s, acts) && AllProgress(acts)
    ensures |acts| <= Rank(s) && SinkFlush(j) !in acts
    ensures !CanMove(After(s, acts)) ==> Stranded(After(s, acts), j)
  {
    ProgressIsBounded(s, acts);
    EvictedCallRun(s, acts, j);
    if !CanMove(After(s, acts)) { EvictedCallAtRest(After(s, acts), j); }
  }
}
