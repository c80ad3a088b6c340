/** Left to themselves, the threads always come to rest: no step that a thread takes
    by itself can be repeated for ever. No fairness is assumed. */
module AsyncProgress {
  import opened Records
  import opened AsyncProtocol
  import opened AsyncInvariants
  import opened AsyncTheorems

  // ----- how much the threads can still do -----

  /** What one queued record can still cause, with n flushers: a turn of the worker's
      loop, one producer woken, every flusher woken. */
  function ItemWeight(n: nat): nat { 14 + 4 * n }

  function ProducerRank(p: Producer, n: nat): nat {
    match p
    case Outside => 0
    case AboutToCount => 1
    case AboutToNotify => 7
    case WaitingFull(_) => ItemWeight(n) + 8
    case Entering(_) => ItemWeight(n) + 9
    case WokenFull(_) => ItemWeight(n) + 9
  }

  function ProducersRank(ps: seq<Producer>, n: nat): nat {
    if ps == [] then 0 else ProducerRank(ps[0], n) + ProducersRank(ps[1..], n)
  }

  function FlusherRank(f: Flusher): nat {
    match f
    case Resting => 0
    case WaitingFlush(_) => 0
    case SinkFlushing(_, _, _) => 1
    case SawProcessed(_, _) => 2
    case SawSubmitted(_, _, _) => 2
    case Holding(_) => 3
    case Locking(_) => 4
    case WokenFlush(_) => 4
  }

  function FlushersRank(fs: seq<Flusher>): nat {
    if fs == [] then 0 else FlusherRank(fs[0]) + FlushersRank(fs[1..])
  }

  function WorkerRank(w: Worker, running: bool, n: nat): nat {
    match w
    case Exited => 0
    case FinalFlush => 1
    case PopWaiting(_) => 0
    case PopEntering(phase) => if phase == Drain then 2 else 5
    case PopWoken(phase) => if phase == Drain then 2 else 5
    case LoopTop => if running then 6 else 3
    case FlushNotifying => 7 + 4 * n
    case Comparing(_) => 8 + 4 * n
    case Bumping(_) => 9 + 4 * n
    case Handling(_, _) => 10 + 4 * n
    case PopNotifying(_, _) => 12 + 4 * n
  }

  function StopperRank(st: Stopper, producers: nat): nat {
    match st
    case NotStopping => 0
    case Joined => 0
    case Joining => 1
    case NotifyingFull => 2 + producers
    case NotifyingEmpty => 8 + producers
    case Closing => 9 + producers
  }

  function Rank(s: State): nat {
    var n := |s.flushers|;
    ItemWeight(n) * |s.queue.items| + ProducersRank(s.producers, n) + FlushersRank(s.flushers)
      + WorkerRank(s.worker, s.running, n) + StopperRank(s.stopper, |s.producers|)
  }

  lemma {:induction false} ProducersRankUpdate(ps: seq<Producer>, i: nat, p: Producer, n: nat)
    requires i < |ps|
    ensures ProducersRank(ps[i := p], n) + ProducerRank(ps[i], n) == ProducersRank(ps, n) + ProducerRank(p, n)
  {
    var ps' := ps[i := p];
    if i == 0 {
      assert ps'[1..] == ps[1..];
    } else {
      ProducersRankUpdate(ps[1..], i - 1, p, n);
      assert ps'[1..] == ps[1..][i - 1 := p];
    }
  }

  lemma {:induction false} ProducersRankWoken(ps: seq<Producer>, n: nat)
    ensures ProducersRank(WakeProducers(ps), n) <= ProducersRank(ps, n) + |ps|
  {
    if ps != [] {
      ProducersRankWoken(ps[1..], n);
      assert WakeProducers(ps)[1..] == WakeProducers(ps[1..]);
    }
  }

  lemma {:induction false} FlushersRankUpdate(fs: seq<Flusher>, j: nat, f: Flusher)
    requires j < |fs|
    ensures FlushersRank(fs[j := f]) + FlusherRank(fs[j]) == FlushersRank(fs) + FlusherRank(f)
  {
    var fs' := fs[j := f];
    if j == 0 {
      assert fs'[1..] == fs[1..];
    } else {
      FlushersRankUpdate(fs[1..], j - 1, f);
      assert fs'[1..] == fs[1..][j - 1 := f];
    }
  }

  lemma {:induction false} FlushersRankWoken(fs: seq<Flusher>)
    ensures FlushersRank(WakeFlushers(fs)) <= FlushersRank(fs) + 4 * |fs|
  {
    if fs != [] {
      FlushersRankWoken(fs[1..]);
      assert WakeFlushers(fs)[1..] == WakeFlushers(fs[1..]);
    }
  }

  lemma WeightOfOneMore(w: nat, k: nat)
    ensures w * (k + 1) == w * k + w
  {}

  // ----- every progress step uses some of it up -----

  lemma PushUsesUp(s: State, i: nat)
    requires QueueInv(s) && Enabled(s, PushSection(i))
    ensures Rank(Apply(s, PushSection(i))) < Rank(s)
  {
    var s' := Apply(s, PushSection(i));
    ProducersRankUpdate(s.producers, i, s'.producers[i], |s.flushers|);
    WeightOfOneMore(ItemWeight(|s.flushers|), |s.queue.items|);
    assert |s'.queue.items| <= |s.queue.items| + 1;
    assert |s'.queue.items| == |s.queue.items| + 1 || |s'.queue.items| == |s.queue.items|;
  }

  lemma ProducerUsesUp(s: State, a: Action)
    requires QueueInv(s) && Enabled(s, a) && ByProducer(a) && Progress(a)
    ensures Rank(Apply(s, a)) < Rank(s)
  {
    if a.PushSection? { PushUsesUp(s, a.i); }
    else { ProducersRankUpdate(s.producers, a.i, Apply(s, a).producers[a.i], |s.flushers|); }
  }

  lemma PopUsesUp(s: State)
    requires LifeInv(s) && Enabled(s, PopSection)
    ensures Rank(Apply(s, PopSection)) < Rank(s)
  {
    var s' := Apply(s, PopSection);
    if s.queue.items != [] {
      WeightOfOneMore(ItemWeight(|s.flushers|), |s'.queue.items|);
      assert |s.queue.items| == |s'.queue.items| + 1;
    }
  }

  lemma NotifyFullUsesUp(s: State, k: nat)
    requires Enabled(s, NotifyFull(k))
    ensures Rank(Apply(s, NotifyFull(k))) < Rank(s)
  {
    if k < |s.producers| && s.producers[k].WaitingFull? {
      ProducersRankUpdate(s.producers, k, WokenFull(s.producers[k].record), |s.flushers|);
    }
  }

  lemma WorkerUsesUp(s: State, a: Action)
    requires LifeInv(s) && Enabled(s, a) && ByWorker(a) && Progress(a)
    ensures Rank(Apply(s, a)) < Rank(s)
  {
    if a.PopSection? { PopUsesUp(s); }
    else if a.NotifyFull? { NotifyFullUsesUp(s, a.woken); }
    else if a.NotifyFlush? { FlushersRankWoken(s.flushers); }
  }

  /** A flusher's step replaces its own place by one with less to do. */
  lemma FlusherMovesOn(s: State, a: Action)
    requires Enabled(s, a) && ByFlusher(a) && Progress(a)
    ensures var f := Apply(s, a).flushers;
      && a.j < |s.flushers| == |f| && f == s.flushers[a.j := f[a.j]]
      && FlusherRank(f[a.j]) < FlusherRank(s.flushers[a.j])
  {}

  lemma FlusherUsesUp(s: State, a: Action)
    requires Enabled(s, a) && ByFlusher(a) && Progress(a)
    ensures Rank(Apply(s, a)) < Rank(s)
  {
    FlusherMovesOn(s, a);
    FlusherFrame(s, a);
    FlushersRankUpdate(s.flushers, a.j, Apply(s, a).flushers[a.j]);
  }

  lemma StopperUsesUp(s: State, a: Action)
    requires Enabled(s, a) && ByStopper(a) && Progress(a)
    ensures Rank(Apply(s, a)) < Rank(s)
  {
    if a.StopNotifyFull? { ProducersRankWoken(s.producers, |s.flushers|); }
  }

  lemma ProgressUsesUp(s: State, a: Action)
    requires QueueInv(s) && LifeInv(s) && Enabled(s, a) && Progress(a)
    ensures Rank(Apply(s, a)) < Rank(s)
  {
    if ByProducer(a) { ProducerUsesUp(s, a); }
    else if ByWorker(a) { WorkerUsesUp(s, a); }
    else if ByFlusher(a) { FlusherUsesUp(s, a); }
    else { StopperUsesUp(s, a); }
  }

  ghost predicate AllProgress(acts: seq<Action>) {
    forall k | 0 <= k < |acts| :: Progress(acts[k])
  }

  lemma {:induction false} RunUsesUp(s: State, acts: seq<Action>)
    requires Inv(s) && Runs(s, acts) && AllProgress(acts)
    ensures |acts| + Rank(After(s, acts)) <= Rank(s)
    decreases |acts|
  {
    if acts != [] {
      ProgressUsesUp(s, acts[0]);
      InvStep(s, acts[0]);
      RunUsesUp(Apply(s, acts[0]), acts[1..]);
    }
  }

  lemma ProgressIsBounded(s: State, acts: seq<Action>)
    requires Reachable(s) && Runs(s, acts) && AllProgress(acts)
    ensures |acts| <= Rank(s)
  {
    ReachableInv(s);
    RunUsesUp(s, acts);
  }

  /** From any reachable state of a usable queue, whatever the order: the threads
      left to themselves take at most Rank(s) steps, and if they stop before, it is
      because everything is at rest. */
  lemma AlwaysComesToRest(s: State, acts: seq<Action>)
    requires Reachable(s) && Usable(s.queue.capacity, s.queue.policy) && Runs(s, acts) && AllProgress(acts)
    ensures |acts| <= Rank(s)
    ensures CanMove(After(s, acts)) <==> !Quiescent(After(s, acts))
  {
    ProgressIsBounded(s, acts);
    ReachableAfter(s, acts);
    ParametersStay(s, acts);
    OnlyRestIsStuck(After(s, acts));
  }

  /** What no run changes or takes back. */
  ghost predicate Grows(s: State, s': State) {
    && |s'.producers| == |s.producers| && |s'.flushers| == |s.flushers|
    && s'.queue.capacity == s.queue.capacity && s'.queue.policy == s.queue.policy
    && s.queue.accepted <= s'.queue.accepted && s.queue.delivered <= s'.queue.delivered
    && s.queue.evicted <= s'.queue.evicted && s.handled <= s'.handled
  }

  lemma GrowsByProducer(s: State, a: Action)
    requires Enabled(s, a) && ByProducer(a)
    ensures Grows(s, Apply(s, a))
  {}

  lemma GrowsByOther(s: State, a: Action)
    requires Enabled(s, a) && !ByProducer(a)
    ensures Grows(s, Apply(s, a))
  {}

  lemma GrowsStep(s: State, a: Action)
    requires Enabled(s, a)
    ensures Grows(s, Apply(s, a))
  {
    if ByProducer(a) { GrowsByProducer(s, a); } else { GrowsByOther(s, a); }
  }

  lemma {:induction false} ParametersStay(s: State, acts: seq<Action>)
    requires Runs(s, acts)
    ensures Grows(s, After(s, acts))
    decreases |acts|
  {
    if acts != [] {
      GrowsStep(s, acts[0]);
      ParametersStay(Apply(s, acts[0]), acts[1..]);
    }
  }

  // ----- an undisturbed flush passes -----

  /** Flusher j is in a call in a running backend; no log() was running when the call
      began and none has started since; nothing was evicted. */
  ghost predicate CalmCall(s: State, j: nat) {
    && s.running && s.queue.evicted == []
    && j < |s.flushers| && !s.flushers[j].Resting? && s.flushers[j].view.calm
  }

  lemma CalmCallByFlusher(s: State, a: Action, j: nat)
    requires CalmCall(s, j) && Enabled(s, a) && ByFlusher(a) && a != SinkFlush(j)
    ensures CalmCall(Apply(s, a), j)
  {}

  lemma CalmCallByOther(s: State, a: Action, j: nat)
    requires CalmCall(s, j) && AllOutside(s.producers) && Enabled(s, a)
    requires !ByFlusher(a) && !a.LogBegin? && !a.StopBegin?
    ensures CalmCall(Apply(s, a), j)
  {}

  lemma CalmCallStep(s: State, a: Action, j: nat)
    requires Inv(s) && CalmCall(s, j) && Enabled(s, a) && !a.LogBegin? && !a.StopBegin? && a != SinkFlush(j)
    ensures CalmCall(Apply(s, a), j)
  {
    assert CalmBound(s, s.flushers[j]);
    if ByFlusher(a) { CalmCallByFlusher(s, a, j); } else { CalmCallByOther(s, a, j); }
  }

  /** At rest such a call cannot be parked. */
  lemma CalmCallIsNotAtRest(s: State, j: nat)
    requires Inv(s) && CalmCall(s, j)
    ensures CanMove(s)
  {
    assert CalmBound(s, s.flushers[j]);
    if Quiescent(s) {
      UndisturbedWorker(s, j);
      assert false;
    }
    SoundOnlyRestIsStuck(s);
  }

  /** Every run of the threads' own steps that goes on as long as any thread can move
      is finite and contains the step in which the call passes. */
  lemma {:induction false} CalmFlushPasses(s: State, acts: seq<Action>, j: nat)
    requires Reachable(s) && CalmCall(s, j)
    requires Runs(s, acts) && AllProgress(acts)
    ensures |acts| <= Rank(s)
    ensures !CanMove(After(s, acts)) ==> SinkFlush(j) in acts
    decreases |acts|
  {
    ReachableInv(s);
    RunUsesUp(s, acts);
    if acts == [] {
      CalmCallIsNotAtRest(s, j);
    } else if acts[0] != SinkFlush(j) {
      CalmCallStep(s, acts[0], j);
      ReachableStep(s, acts[0]);
      CalmFlushPasses(Apply(s, acts[0]), acts[1..], j);
      assert forall a | a in acts[1..] :: a in acts;
    }
  }

  // ----- bringing everything but one or two threads to rest -----

  /** The state without producer i's call and flusher j's. */
  function Hide(s: State, i: Option<nat>, j: Option<nat>): State
    requires (i.Some? ==> i.value < |s.producers|) && (j.Some? ==> j.value < |s.flushers|)
  {
    var s1 := if i.Some? then s.(producers := s.producers[i.value := Outside]) else s;
    if j.Some? then s1.(flushers := s1.flushers[j.value := Resting]) else s1
  }

  /** These threads can be held where they are without keeping the others waiting: a
      producer that has nothing to announce any more or has not been announced to,
      a flusher without the mutex. */
  ghost predicate Holdable(s: State, i: Option<nat>, j: Option<nat>) {
    && (i.Some? ==>
          && i.value < |s.producers|
          && (s.producers[i.value].AboutToCount? || s.producers[i.value].Entering?
              || (s.producers[i.value].WokenFull? && s.queue.policy != Block)))
    && (j.Some? ==> j.value < |s.flushers| && s.flushers[j.value].Locking?)
  }

  lemma HiddenIsSound(s: State, i: Option<nat>, j: Option<nat>)
    requires Inv(s) && Holdable(s, i, j)
    ensures Sound(Hide(s, i, j))
  {
    if i.Some? { CountsUpdate(s.producers, i.value, Outside); }
  }

  lemma HiddenWorkerMoves(s: State, i: Option<nat>, j: Option<nat>, a: Action)
    requires Holdable(s, i, j) && ByWorker(a) && Enabled(Hide(s, i, j), a)
    ensures Enabled(s, a)
  {
    var e := Hide(s, i, j);
    if a.NotifyFull? {
      forall k: nat | k < |s.producers| && i != Some(k) ensures e.producers[k] == s.producers[k] {}
    }
  }

  /** What can move without the held threads can move with them. */
  lemma HiddenMoves(s: State, i: Option<nat>, j: Option<nat>, a: Action)
    requires Holdable(s, i, j) && Progress(a) && Enabled(Hide(s, i, j), a)
    ensures Enabled(s, a)
    ensures ByProducer(a) ==> i != Some(a.i)
    ensures ByFlusher(a) ==> j != Some(a.j)
  {
    if ByWorker(a) { HiddenWorkerMoves(s, i, j, a); }
  }

  /** s' is a later state in which the held threads are where they were in s. */
  ghost predicate Holds(s: State, s': State, i: Option<nat>, j: Option<nat>) {
    && Grows(s, s') && Holdable(s, i, j) && Holdable(s', i, j)
    && (i.Some? ==> s'.producers[i.value] == s.producers[i.value])
    && (j.Some? ==> s'.flushers[j.value] == s.flushers[j.value])
    && s'.running == s.running && (s'.stopper.NotStopping? <==> s.stopper.NotStopping?)
  }

  lemma HeldStayByFlusher(s: State, i: Option<nat>, j: Option<nat>, a: Action)
    requires Holdable(s, i, j) && Progress(a) && Enabled(s, a) && ByFlusher(a) && j != Some(a.j)
    ensures Holds(s, Apply(s, a), i, j)
  {
    GrowsStep(s, a);
  }

  lemma HeldStay(s: State, i: Option<nat>, j: Option<nat>, a: Action)
    requires Holdable(s, i, j) && Progress(a) && Enabled(s, a)
    requires (ByProducer(a) ==> i != Some(a.i)) && (ByFlusher(a) ==> j != Some(a.j))
    ensures Holds(s, Apply(s, a), i, j)
  {
    if ByFlusher(a) { HeldStayByFlusher(s, i, j, a); } else { GrowsStep(s, a); }
  }

  lemma HeldTransitive(s: State, s1: State, s2: State, i: Option<nat>, j: Option<nat>)
    requires Holds(s, s1, i, j) && Holds(s1, s2, i, j)
    ensures Holds(s, s2, i, j)
  {}

  /** One step of some thread that is not held, if any of them can move. */
  lemma UnheldStep(s: State, i: Option<nat>, j: Option<nat>) returns (a: Action)
    requires Inv(s) && Holdable(s, i, j) && Usable(s.queue.capacity, s.queue.policy)
    requires !Quiescent(Hide(s, i, j))
    ensures Progress(a) && Enabled(s, a)
    ensures (ByProducer(a) ==> i != Some(a.i)) && (ByFlusher(a) ==> j != Some(a.j))
  {
    var e := Hide(s, i, j);
    HiddenIsSound(s, i, j);
    SoundOnlyRestIsStuck(e);
    a :| Progress(a) && Enabled(e, a);
    HiddenMoves(s, i, j, a);
  }

  lemma SettleStep(origin: State, s: State, l: Limit, i: Option<nat>, j: Option<nat>) returns (s': State)
    requires Leads(origin, s, l) && (l.NoNewLog? || j == Some(l.j))
    requires Inv(s) && Holdable(s, i, j) && Usable(s.queue.capacity, s.queue.policy)
    requires !Quiescent(Hide(s, i, j))
    ensures Leads(origin, s', l) && Inv(s') && Holds(s, s', i, j) && Rank(s') < Rank(s)
  {
    var a := UnheldStep(s, i, j);
    HeldStay(s, i, j, a);
    LeadsStep(origin, s, l, a);
    InvStep(s, a);
    ProgressUsesUp(s, a);
    s' := Apply(s, a);
  }

  /** Everything but the held threads runs until it is at rest. */
  lemma {:induction false} Settle(origin: State, s: State, l: Limit, i: Option<nat>, j: Option<nat>)
    returns (s': State)
    requires Leads(origin, s, l) && (l.NoNewLog? || j == Some(l.j))
    requires Inv(s) && Holdable(s, i, j) && Usable(s.queue.capacity, s.queue.policy)
    ensures Leads(origin, s', l) && Inv(s') && Holds(s, s', i, j) && Quiescent(Hide(s', i, j))
    decreases Rank(s)
  {
    s' := s;
    if !Quiescent(Hide(s, i, j)) {
      var s1 := SettleStep(origin, s, l, i, j);
      s' := Settle(origin, s1, l, i, j);
      HeldTransitive(s, s1, s', i, j);
    }
  }
}
