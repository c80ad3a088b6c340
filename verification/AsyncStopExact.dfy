/** Exactly when stopping the backend leaves nothing behind in the queue. */
module AsyncStopExact {
  import opened Records
  import opened AsyncProtocol
  import opened AsyncInvariants
  import opened AsyncProgress
  import opened AsyncFlushExact
  import Q = QueueModel

  /** Inside log() with a record that is not stored yet. */
  predicate HasRecord(p: Producer) { p.Entering? || p.WaitingFull? || p.WokenFull? }

  predicate NobodyHasRecord(ps: seq<Producer>) {
    forall i | 0 <= i < |ps| :: !HasRecord(ps[i])
  }

  /** No call to log begins any more: whatever the calls already in progress do, the
      queue is empty once the worker has exited. */
  ghost predicate NothingLeftBehind(s: State) {
    forall s' | Leads(s, s', NoNewLog) && s'.worker.Exited? :: s'.queue.items == []
  }

  // ----- enough -----

  /** Nobody can store any more, and nothing was stored since the drain loop ended. */
  ghost predicate NothingLate(s: State) {
    && NobodyHasRecord(s.producers)
    && (s.worker.FinalFlush? || s.worker.Exited? ==> s.drainedAt == |s.queue.accepted|)
  }

  lemma NothingLateByWorker(s: State, a: Action)
    requires NothingLate(s) && Enabled(s, a) && ByWorker(a)
    ensures NothingLate(Apply(s, a))
  {}

  lemma NothingLateByOther(s: State, a: Action)
    requires NothingLate(s) && Enabled(s, a) && !ByWorker(a) && !a.LogBegin?
    ensures NothingLate(Apply(s, a))
  {}

  lemma {:induction false} NothingLateRun(s: State, acts: seq<Action>)
    requires NothingLate(s) && Runs(s, acts) && Within(acts, NoNewLog)
    ensures NothingLate(After(s, acts))
    decreases |acts|
  {
    if acts != [] {
      if ByWorker(acts[0]) { NothingLateByWorker(s, acts[0]); } else { NothingLateByOther(s, acts[0]); }
      NothingLateRun(Apply(s, acts[0]), acts[1..]);
    }
  }

  lemma NothingIsLeft(s: State, s': State)
    requires Reachable(s) && s.stopper.Closing? && Leads(s, s', NoNewLog) && s'.worker.Exited?
    requires s.queue.policy == Block || s.queue.capacity == 0 || NobodyHasRecord(s.producers)
    ensures s'.queue.items == []
  {
    var acts :| Runs(s, acts) && Within(acts, NoNewLog) && After(s, acts) == s';
    ReachableInv(s);
    InvAfter(s, acts);
    ParametersStay(s, acts);
    if NobodyHasRecord(s.producers) { NothingLateRun(s, acts); }
  }

  // ----- otherwise a record can be stored too late -----

  /** Every other thread finishes; the held producer still has its record. */
  lemma ExitsWithoutOne(s: State, i: nat) returns (s': State)
    requires Reachable(s) && s.stopper.Closing? && s.queue.policy != Block && s.queue.capacity > 0
    requires i < |s.producers| && HasRecord(s.producers[i])
    ensures Leads(s, s', NoNewLog) && s'.worker.Exited? && Q.Oldest(s'.queue) >= 0
    ensures s'.queue.policy != Block && s'.queue.capacity > 0
    ensures i < |s'.producers| && (s'.producers[i].Entering? || s'.producers[i].WokenFull?)
  {
    ReachableInv(s);
    CountZero(s.producers, Parked);
    LeadsSelf(s, NoNewLog);
    s' := Settle(s, s, NoNewLog, Some(i), None);
  }

  lemma SomethingIsLeft(s: State, i: nat) returns (s': State)
    requires Reachable(s) && s.stopper.Closing? && s.queue.policy != Block && s.queue.capacity > 0
    requires i < |s.producers| && HasRecord(s.producers[i])
    ensures Leads(s, s', NoNewLog) && s'.worker.Exited? && s'.queue.items != []
  {
    s' := ExitsWithoutOne(s, i);
    if s'.queue.items == [] { s' := Extend(s, s', NoNewLog, PushSection(i)); }
  }

  // ----- exactly -----

  /** When stop is called and no call to log begins after it, nothing is ever left in
      the queue exactly when the policy is Block, or the queue has no capacity, or no
      call to log in progress still has its record to store. */
  lemma NothingLeftBehindIff(s: State)
    requires Reachable(s) && s.stopper.Closing?
    ensures NothingLeftBehind(s) <==>
      s.queue.policy == Block || s.queue.capacity == 0 || NobodyHasRecord(s.producers)
  {
    if s.queue.policy == Block || s.queue.capacity == 0 || NobodyHasRecord(s.producers) {
      forall s' | Leads(s, s', NoNewLog) && s'.worker.Exited? ensures s'.queue.items == [] {
        NothingIsLeft(s, s');
      }
    } else {
      var i: nat :| i < |s.producers| && HasRecord(s.producers[i]);
      var s' := SomethingIsLeft(s, i);
    }
  }
}
