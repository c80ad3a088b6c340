/** What the history fields say, told by the run itself: how the worker comes to its end,
    what became of every call to log, and what a flush call remembers of its start. */
module AsyncHistory {
  import opened Records
  import opened AsyncProtocol
  import opened AsyncInvariants
  import opened AsyncProgress
  import opened AsyncFlushExact
  import Q = QueueModel

  /** The state after the first k actions. */
  ghost function At(s: State, acts: seq<Action>, k: nat): State
    requires Runs(s, acts) && k <= |acts|
    decreases |acts|
  {
    if k == 0 then s else At(Apply(s, acts[0]), acts[1..], k - 1)
  }

  lemma {:induction false} AtRuns(s: State, acts: seq<Action>, k: nat)
    requires Runs(s, acts) && k <= |acts|
    ensures Runs(At(s, acts, k), acts[k..]) && After(At(s, acts, k), acts[k..]) == After(s, acts)
    decreases |acts|
  {
    if k == 0 {
      assert acts[0..] == acts;
    } else {
      AtRuns(Apply(s, acts[0]), acts[1..], k - 1);
      assert acts[1..][k - 1..] == acts[k..];
    }
  }

  lemma AtNext(s: State, acts: seq<Action>, k: nat, s1: State, rest: seq<Action>)
    requires Runs(s, acts) && 0 < k <= |acts| && s1 == Apply(s, acts[0]) && rest == acts[1..]
    ensures At(s, acts, k) == At(s1, rest, k - 1)
  {}

  lemma {:induction false} AtIsAfter(s: State, acts: seq<Action>, k: nat)
    requires Runs(s, acts) && k <= |acts|
    ensures Runs(s, acts[..k]) && After(s, acts[..k]) == At(s, acts, k)
    decreases k
  {
    if k > 0 {
      AtIsAfter(Apply(s, acts[0]), acts[1..], k - 1);
      assert acts[..k][1..] == acts[1..][..k - 1];
    }
  }

  lemma AtReachable(s: State, acts: seq<Action>, k: nat)
    requires Reachable(s) && Runs(s, acts) && k <= |acts|
    ensures Reachable(At(s, acts, k))
  {
    AtIsAfter(s, acts, k);
    ReachableAfter(s, acts[..k]);
  }

  // ----- how the worker ends -----

  /** Neither in the drain loop nor past it. */
  predicate InMainLoop(w: Worker) { !Draining(w) && !w.FinalFlush? && !w.Exited? }

  /** The main loop's condition fails: the only way into the drain loop. */
  ghost predicate LeavesMainLoop(s: State, a: Action) { a == LoadRunning && !s.running }

  /** The drain loop's pop fails: the only way out of it. */
  ghost predicate EndsDrain(s: State, a: Action) {
    a == PopSection && Draining(s.worker) && s.queue.items == [] && s.queue.closed
  }

  lemma MainLoopStep(s: State, a: Action)
    requires InMainLoop(s.worker) && Enabled(s, a)
    ensures if LeavesMainLoop(s, a) then Draining(Apply(s, a).worker) else InMainLoop(Apply(s, a).worker)
  {}

  lemma DrainingStep(s: State, a: Action)
    requires Draining(s.worker) && Enabled(s, a)
    ensures if EndsDrain(s, a) then Apply(s, a).worker.FinalFlush? else Draining(Apply(s, a).worker)
    ensures EndsDrain(s, a) ==> Apply(s, a).queue == s.queue && Apply(s, a).drainedAt == |s.queue.accepted|
  {}

  lemma FinalStep(s: State, a: Action)
    requires (s.worker.FinalFlush? || s.worker.Exited?) && Enabled(s, a)
    ensures Apply(s, a).drainedAt == s.drainedAt && Apply(s, a).handled == s.handled
    ensures s.worker.FinalFlush? ==>
      if a == FinishFlush then Apply(s, a).worker.Exited? else Apply(s, a).worker.FinalFlush?
    ensures s.worker.Exited? ==> Apply(s, a).worker.Exited?
  {}

  lemma {:induction false} ExitedStays(s: State, acts: seq<Action>)
    requires s.worker.Exited? && Runs(s, acts)
    ensures After(s, acts).drainedAt == s.drainedAt && After(s, acts).handled == s.handled
    decreases |acts|
  {
    if acts != [] {
      FinalStep(s, acts[0]);
      ExitedStays(Apply(s, acts[0]), acts[1..]);
    }
  }

  /** Between its last pop and its end the worker flushes the sinks, and handles nothing. */
  lemma {:induction false} FindFinish(s: State, acts: seq<Action>) returns (e: nat)
    requires s.worker.FinalFlush? && Runs(s, acts) && After(s, acts).worker.Exited?
    ensures e < |acts| && acts[e] == FinishFlush
    ensures After(s, acts).drainedAt == s.drainedAt && After(s, acts).handled == s.handled
    decreases |acts|
  {
    FinalStep(s, acts[0]);
    if acts[0] == FinishFlush {
      e := 0;
      ExitedStays(Apply(s, acts[0]), acts[1..]);
    } else {
      e := FindFinish(Apply(s, acts[0]), acts[1..]);
      e := e + 1;
    }
  }

  lemma {:induction false} FindDrained(s: State, acts: seq<Action>) returns (q: nat)
    requires Draining(s.worker) && Runs(s, acts) && After(s, acts).worker.Exited?
    ensures q < |acts| && EndsDrain(At(s, acts, q), acts[q])
    ensures |At(s, acts, q).queue.accepted| == After(s, acts).drainedAt
    ensures At(s, acts, q).handled == After(s, acts).handled
    ensures FinishFlush in acts[q..]
    decreases |acts|
  {
    var s1, rest := Apply(s, acts[0]), acts[1..];
    DrainingStep(s, acts[0]);
    if EndsDrain(s, acts[0]) {
      q := 0;
      var e := FindFinish(s1, rest);
      assert acts[0..][e + 1] == FinishFlush;
      PopKeepsHandled(s, acts[0]);
    } else {
      q := FindDrained(s1, rest);
      assert rest[q..] == acts[q + 1..];
      q := q + 1;
    }
  }

  lemma PopKeepsHandled(s: State, a: Action)
    requires Enabled(s, a) && a.PopSection?
    ensures Apply(s, a).handled == s.handled
  {}

  /** At p the main loop's condition fails, at q the drain loop's pop; then the sinks are
      flushed. */
  ghost predicate DrainedAfter(s: State, acts: seq<Action>, p: nat, q: nat)
    requires Runs(s, acts) && p < q < |acts|
  {
    && LeavesMainLoop(At(s, acts, p), acts[p]) && EndsDrain(At(s, acts, q), acts[q])
    && FinishFlush in acts[q..] && After(s, acts).handled == At(s, acts, q).handled
    && |At(s, acts, p).queue.accepted| <= |At(s, acts, q).queue.accepted| == After(s, acts).drainedAt
  }

  lemma GrowsAt(s: State, acts: seq<Action>, k: nat)
    requires Runs(s, acts) && k <= |acts|
    ensures Grows(At(s, acts, k), After(s, acts))
  {
    AtRuns(s, acts, k);
    ParametersStay(At(s, acts, k), acts[k..]);
  }

  lemma {:induction false} AcceptedGrow(s: State, acts: seq<Action>, k: nat)
    requires Runs(s, acts) && k <= |acts|
    ensures |s.queue.accepted| <= |At(s, acts, k).queue.accepted|
    decreases k
  {
    if k > 0 {
      var s1, rest := Apply(s, acts[0]), acts[1..];
      GrowsStep(s, acts[0]);
      AcceptedGrow(s1, rest, k - 1);
      AtNext(s, acts, k, s1, rest);
    }
  }

  lemma OneLater(s: State, acts: seq<Action>, p: nat, q: nat, s1: State, rest: seq<Action>)
    requires Runs(s, acts) && acts != [] && s1 == Apply(s, acts[0]) && rest == acts[1..]
    requires p < q < |rest| && DrainedAfter(s1, rest, p, q)
    ensures DrainedAfter(s, acts, p + 1, q + 1)
  {
    AtNext(s, acts, p + 1, s1, rest);
    AtNext(s, acts, q + 1, s1, rest);
    assert rest[q..] == acts[q + 1..];
  }

  lemma LoadIsFirst(s: State, acts: seq<Action>, s1: State, rest: seq<Action>) returns (q: nat)
    requires Runs(s, acts) && acts != [] && s1 == Apply(s, acts[0]) && rest == acts[1..]
    requires LeavesMainLoop(s, acts[0]) && Draining(s1.worker) && After(s, acts).worker.Exited?
    ensures 0 < q < |acts| && DrainedAfter(s, acts, 0, q)
  {
    var m := FindDrained(s1, rest);
    q := m + 1;
    AtNext(s, acts, q, s1, rest);
    AcceptedGrow(s, acts, q);
    assert rest[m..] == acts[q..];
  }

  lemma {:induction false} FindMoments(s: State, acts: seq<Action>) returns (p: nat, q: nat)
    requires InMainLoop(s.worker) && Runs(s, acts) && After(s, acts).worker.Exited?
    ensures p < q < |acts| && DrainedAfter(s, acts, p, q)
    decreases |acts|, 1
  {
    MainLoopStep(s, acts[0]);
    if InMainLoop(Apply(s, acts[0]).worker) {
      p, q := FindLater(s, acts, Apply(s, acts[0]), acts[1..]);
    } else {
      p := 0;
      q := LoadIsFirst(s, acts, Apply(s, acts[0]), acts[1..]);
    }
  }

  lemma {:induction false} FindLater(s: State, acts: seq<Action>, s1: State, rest: seq<Action>) returns (p: nat, q: nat)
    requires Runs(s, acts) && acts != [] && s1 == Apply(s, acts[0]) && rest == acts[1..]
    requires InMainLoop(s1.worker) && After(s, acts).worker.Exited?
    ensures p < q < |acts| && DrainedAfter(s, acts, p, q)
    decreases |acts|, 0
  {
    var p1, q1 := FindMoments(s1, rest);
    OneLater(s, acts, p1, q1, s1, rest);
    p, q := p1 + 1, q1 + 1;
  }

  /** What an empty queue has accepted was delivered or evicted, and stays so. */
  lemma NothingQueuedThen(s: State, s': State, i: nat)
    requires Inv(s) && Inv(s') && Grows(s, s') && s.queue.items == [] && i < |s.queue.accepted|
    requires s'.worker.Exited?
    ensures Handled(s', i) != (i in s'.queue.evicted)
  {
    assert i in s.queue.delivered || i in s.queue.evicted;
    assert s'.queue.delivered[..|s'.handled|] == s'.queue.delivered;
  }

  /** The worker ends only by draining: on every run from its main loop to its end there
      is a moment at which the stop flag is seen, a later one at which the queue is closed
      and empty, and a flush of the sinks after that. Every record accepted by the second
      moment, hence by the first, was handled or evicted, under every policy; `drainedAt`
      is how many these are. */
  lemma ExitComesAfterDraining(s: State, acts: seq<Action>) returns (p: nat, q: nat)
    requires Reachable(s) && InMainLoop(s.worker) && Runs(s, acts) && After(s, acts).worker.Exited?
    ensures p < q < |acts| && DrainedAfter(s, acts, p, q)
    ensures forall i: nat | i < After(s, acts).drainedAt ::
      Handled(After(s, acts), i) != (i in After(s, acts).queue.evicted)
  {
    p, q := FindMoments(s, acts);
    AtReachable(s, acts, q);
    ReachableAfter(s, acts);
    ReachableInv(At(s, acts, q));
    ReachableInv(After(s, acts));
    GrowsAt(s, acts, q);
    forall i: nat | i < After(s, acts).drainedAt
      ensures Handled(After(s, acts), i) != (i in After(s, acts).queue.evicted)
    {
      NothingQueuedThen(At(s, acts, q), After(s, acts), i);
    }
  }

  // ----- what becomes of every call to log -----

  /** A push that came to an end: who made it, its record, and whether it was stored. */
  datatype Verdict = Verdict(producer: nat, record: LogRecord, stored: bool)

  /** The record a call to log still has to hand over. */
  function Carried(p: Producer): seq<LogRecord> {
    match p
    case Entering(r) => [r]
    case WaitingFull(r) => [r]
    case WokenFull(r) => [r]
    case _ => []
  }

  /** Read off the queue: the record that has appeared in it, or else the record whose
      call has returned without it. */
  ghost function VerdictOf(s: State, a: Action): seq<Verdict>
    requires Enabled(s, a)
  {
    if !a.PushSection? then []
    else
      var s' := Apply(s, a);
      if |s'.queue.accepted| > |s.queue.accepted| then
        [Verdict(a.i, s'.queue.accepted[|s.queue.accepted|], true)]
      else if s'.producers[a.i].Outside? then [Verdict(a.i, s.producers[a.i].record, false)]
      else []
  }

  ghost function Verdicts(s: State, acts: seq<Action>): seq<Verdict>
    requires Runs(s, acts)
    decreases |acts|
  {
    if acts == [] then [] else VerdictOf(s, acts[0]) + Verdicts(Apply(s, acts[0]), acts[1..])
  }

  function BegunBy(a: Action, i: nat): seq<LogRecord> { if a.LogBegin? && a.i == i then [a.record] else [] }

  /** The records producer i began to log. */
  function Begun(acts: seq<Action>, i: nat): seq<LogRecord> {
    if acts == [] then []
    else BegunBy(acts[0], i) + Begun(acts[1..], i)
  }

  /** Producer i's records among those decided. */
  function DecidedFor(vs: seq<Verdict>, i: nat): seq<LogRecord> {
    if vs == [] then [] else (if vs[0].producer == i then [vs[0].record] else []) + DecidedFor(vs[1..], i)
  }

  function StoredOf(vs: seq<Verdict>): seq<LogRecord> {
    if vs == [] then [] else (if vs[0].stored then [vs[0].record] else []) + StoredOf(vs[1..])
  }

  lemma Associative(a: seq<LogRecord>, b: seq<LogRecord>, c: seq<LogRecord>)
    ensures (a + b) + c == a + (b + c)
  {}

  lemma {:induction false} DecidedConcat(vs: seq<Verdict>, ws: seq<Verdict>, i: nat)
    ensures DecidedFor(vs + ws, i) == DecidedFor(vs, i) + DecidedFor(ws, i)
  {
    if vs == [] {
      assert vs + ws == ws;
    } else {
      assert (vs + ws)[1..] == vs[1..] + ws;
      DecidedConcat(vs[1..], ws, i);
      Associative(if vs[0].producer == i then [vs[0].record] else [], DecidedFor(vs[1..], i), DecidedFor(ws, i));
    }
  }

  lemma {:induction false} StoredConcat(vs: seq<Verdict>, ws: seq<Verdict>)
    ensures StoredOf(vs + ws) == StoredOf(vs) + StoredOf(ws)
  {
    if vs == [] {
      assert vs + ws == ws;
    } else {
      assert (vs + ws)[1..] == vs[1..] + ws;
      StoredConcat(vs[1..], ws);
      Associative(if vs[0].stored then [vs[0].record] else [], StoredOf(vs[1..]), StoredOf(ws));
    }
  }

  lemma PushVerdict(s: State, a: Action, i: nat)
    requires Enabled(s, a) && a.PushSection? && i < |s.producers|
    ensures Apply(s, a).queue.accepted == s.queue.accepted + StoredOf(VerdictOf(s, a))
    ensures Carried(s.producers[i]) == DecidedFor(VerdictOf(s, a), i) + Carried(Apply(s, a).producers[i])
  {
    var vs := VerdictOf(s, a);
    assert vs != [] ==> StoredOf(vs) == (if vs[0].stored then [vs[0].record] else []) + StoredOf([]);
    assert vs != [] ==> DecidedFor(vs, i) == (if vs[0].producer == i then [vs[0].record] else []) + DecidedFor([], i);
  }

  lemma ProducerVerdict(s: State, a: Action, i: nat)
    requires Enabled(s, a) && !a.PushSection? && ByProducer(a) && i < |s.producers|
    ensures Apply(s, a).queue.accepted == s.queue.accepted && i < |Apply(s, a).producers|
    ensures Carried(s.producers[i]) + BegunBy(a, i) == Carried(Apply(s, a).producers[i])
  {}

  lemma OtherVerdict(s: State, a: Action, i: nat)
    requires Enabled(s, a) && !ByProducer(a) && i < |s.producers|
    ensures Apply(s, a).queue.accepted == s.queue.accepted && i < |Apply(s, a).producers|
    ensures Carried(s.producers[i]) == Carried(Apply(s, a).producers[i])
  {}

  lemma StepVerdict(s: State, a: Action, i: nat)
    requires Enabled(s, a) && i < |s.producers|
    ensures Apply(s, a).queue.accepted == s.queue.accepted + StoredOf(VerdictOf(s, a))
    ensures i < |Apply(s, a).producers|
    ensures Carried(s.producers[i]) + BegunBy(a, i)
         == DecidedFor(VerdictOf(s, a), i) + Carried(Apply(s, a).producers[i])
  {
    GrowsStep(s, a);
    if a.PushSection? { PushVerdict(s, a, i); }
    else if ByProducer(a) { ProducerVerdict(s, a, i); }
    else { OtherVerdict(s, a, i); }
  }

  /** Two stretches of a run, one after the other: what producer i carries, begins and has
      decided, and what is accepted. */
  lemma Joined(c: seq<LogRecord>, b: seq<LogRecord>, v: seq<Verdict>, c1: seq<LogRecord>,
               bs: seq<LogRecord>, vs: seq<Verdict>, c2: seq<LogRecord>, i: nat,
               q: seq<LogRecord>, q1: seq<LogRecord>, q2: seq<LogRecord>)
    requires c + b == DecidedFor(v, i) + c1 && c1 + bs == DecidedFor(vs, i) + c2
    requires q1 == q + StoredOf(v) && q2 == q1 + StoredOf(vs)
    ensures c + (b + bs) == DecidedFor(v + vs, i) + c2
    ensures q2 == q + StoredOf(v + vs)
  {
    DecidedConcat(v, vs, i);
    StoredConcat(v, vs);
    calc {
      c + (b + bs);
      (c + b) + bs;
      DecidedFor(v, i) + (c1 + bs);
      (DecidedFor(v, i) + DecidedFor(vs, i)) + c2;
    }
  }

  /** Each call to log comes to one end, in the order the producer made them: from outside
      any call, what a producer has begun to log is what was decided for it and the record
      it still has. What was stored, by whomever, is what the queue accepted, in order. */
  lemma {:induction false} EveryCallOnce(s: State, acts: seq<Action>, i: nat)
    requires Runs(s, acts) && i < |s.producers|
    ensures After(s, acts).queue.accepted == s.queue.accepted + StoredOf(Verdicts(s, acts))
    ensures i < |After(s, acts).producers|
    ensures Carried(s.producers[i]) + Begun(acts, i)
         == DecidedFor(Verdicts(s, acts), i) + Carried(After(s, acts).producers[i])
    decreases |acts|
  {
    if acts != [] {
      var s1, rest := Apply(s, acts[0]), acts[1..];
      StepVerdict(s, acts[0], i);
      EveryCallOnce(s1, rest, i);
      Joined(Carried(s.producers[i]), BegunBy(acts[0], i), VerdictOf(s, acts[0]), Carried(s1.producers[i]),
             Begun(rest, i), Verdicts(s1, rest), Carried(After(s1, rest).producers[i]), i,
             s.queue.accepted, s1.queue.accepted, After(s1, rest).queue.accepted);
    }
  }

  lemma RefusalStep(s: State, a: Action)
    requires Enabled(s, a)
    ensures s.queue.closed ==> Apply(s, a).queue.closed
    ensures s.queue.policy == DropOldest || (s.queue.policy == Block && !s.queue.closed) ==>
      forall v | v in VerdictOf(s, a) :: v.stored
  {}

  /** DropOldest refuses no record, and Block none while the queue is open. */
  lemma {:induction false} NothingRefused(s: State, acts: seq<Action>)
    requires Runs(s, acts)
    ensures s.queue.closed ==> After(s, acts).queue.closed
    ensures s.queue.policy == DropOldest || (s.queue.policy == Block && !After(s, acts).queue.closed) ==>
      forall v | v in Verdicts(s, acts) :: v.stored
    decreases |acts|
  {
    if acts != [] {
      RefusalStep(s, acts[0]);
      GrowsStep(s, acts[0]);
      NothingRefused(Apply(s, acts[0]), acts[1..]);
    }
  }

  // ----- what a flush call remembers -----

  /** A call to flush that has just begun is what the theorems about flush start from. */
  lemma CallBegins(s: State, j: nat)
    requires Reachable(s) && s.running && Enabled(s, FlushBegin(j))
    ensures JustBegun(Apply(s, FlushBegin(j)), j)
  {
    ReachableStep(s, FlushBegin(j));
  }

  lemma ViewStep(s: State, a: Action, j: nat)
    requires Enabled(s, a) && j < |s.flushers|
    ensures var f, f' := s.flushers[j], Apply(s, a).flushers[j];
      if f.Resting? then
        if a == FlushBegin(j) then
          f'.Locking? && f'.view == FlushView(|s.queue.accepted|, Count(s.producers, InFlight), AllOutside(s.producers))
        else f'.Resting?
      else if a == SinkFlush(j) then f'.Resting?
      else !f'.Resting? && f'.view == f.view.(calm := f.view.calm && !a.LogBegin?)
  {}

  ghost predicate NoLogIn(acts: seq<Action>) { forall k | 0 <= k < |acts| :: !acts[k].LogBegin? }

  lemma {:induction false} ViewKept(s: State, acts: seq<Action>, j: nat)
    requires Runs(s, acts) && j < |s.flushers| && !s.flushers[j].Resting? && SinkFlush(j) !in acts
    ensures j < |After(s, acts).flushers| && !After(s, acts).flushers[j].Resting?
    ensures After(s, acts).flushers[j].view
         == s.flushers[j].view.(calm := s.flushers[j].view.calm && NoLogIn(acts))
    decreases |acts|
  {
    if acts != [] {
      GrowsStep(s, acts[0]);
      ViewStep(s, acts[0], j);
      ViewKept(Apply(s, acts[0]), acts[1..], j);
      assert acts == [acts[0]] + acts[1..];
    }
  }

  /** The view of a call in progress, told by the run: some step began the call, the call
      has not returned since; `began` is how many records were accepted at that step,
      `flightAtBegin` how many of them were not counted, and the call is calm if nobody was
      in log() at that step and no call to log has begun since. */
  ghost predicate ViewTold(s: State, acts: seq<Action>, j: nat, view: FlushView, k: nat)
    requires Runs(s, acts)
  {
    && k < |acts| && acts[k] == FlushBegin(j) && SinkFlush(j) !in acts[k + 1..]
    && view.began == |At(s, acts, k).queue.accepted|
    && view.flightAtBegin == Count(At(s, acts, k).producers, InFlight)
    && (view.calm <==> AllOutside(At(s, acts, k).producers) && NoLogIn(acts[k + 1..]))
  }

  lemma ToldLater(s: State, acts: seq<Action>, j: nat, view: FlushView, k: nat, s1: State, rest: seq<Action>)
    requires Runs(s, acts) && acts != [] && s1 == Apply(s, acts[0]) && rest == acts[1..]
    requires ViewTold(s1, rest, j, view, k)
    ensures ViewTold(s, acts, j, view, k + 1)
  {
    AtNext(s, acts, k + 1, s1, rest);
    assert rest[k + 1..] == acts[k + 2..];
  }

  lemma {:induction false} ViewTellsTheCall(s: State, acts: seq<Action>, j: nat) returns (k: nat)
    requires Runs(s, acts) && j < |s.flushers| && (s.flushers[j].Resting? || SinkFlush(j) in acts)
    requires j < |After(s, acts).flushers| && !After(s, acts).flushers[j].Resting?
    ensures ViewTold(s, acts, j, After(s, acts).flushers[j].view, k)
    decreases |acts|
  {
    var s1, rest := Apply(s, acts[0]), acts[1..];
    GrowsStep(s, acts[0]);
    ViewStep(s, acts[0], j);
    if s.flushers[j].Resting? && acts[0] == FlushBegin(j) && SinkFlush(j) !in rest {
      ViewKept(s1, rest, j);
      k := 0;
    } else {
      var k1 := ViewTellsTheCall(s1, rest, j);
      ToldLater(s, acts, j, After(s, acts).flushers[j].view, k1, s1, rest);
      k := k1 + 1;
    }
  }

  // ----- what a flush decides on -----

  /** The values flusher j has loaded since it last took the mutex. */
  datatype Loads = Loads(processed: Option<nat>, submitted: Option<nat>)

  ghost function LoadsAfter(s: State, a: Action, j: nat, loads: Loads): Loads {
    if a == FlushLock(j) then Loads(None, None)
    else if a == LoadProcessed(j) then loads.(processed := Some(s.processed))
    else if a == LoadSubmitted(j) then loads.(submitted := Some(s.submitted))
    else loads
  }

  ghost function LoadsOf(s: State, acts: seq<Action>, j: nat, loads: Loads): Loads
    requires Runs(s, acts)
    decreases |acts|
  {
    if acts == [] then loads
    else LoadsOf(Apply(s, acts[0]), acts[1..], j, LoadsAfter(s, acts[0], j, loads))
  }

  /** Past its wait the flusher has loaded both counters and found them equal; parked, it
      has found them different. */
  predicate DecidedBy(f: Flusher, loads: Loads) {
    match f
    case Holding(_) => loads == Loads(None, None)
    case SawProcessed(_, p) => loads == Loads(Some(p), None)
    case SawSubmitted(_, u, _) => loads == Loads(None, Some(u))
    case SinkFlushing(_, _, _) => loads.processed.Some? && loads.processed == loads.submitted
    case WaitingFlush(_) => loads.processed.Some? && loads.submitted.Some? && loads.processed != loads.submitted
    case _ => true
  }

  lemma LoadsByFlusher(s: State, a: Action, j: nat, loads: Loads)
    requires Enabled(s, a) && ByFlusher(a) && j < |s.flushers| && DecidedBy(s.flushers[j], loads)
    ensures j < |Apply(s, a).flushers| && DecidedBy(Apply(s, a).flushers[j], LoadsAfter(s, a, j, loads))
  {}

  lemma LoadsByOther(s: State, a: Action, j: nat, loads: Loads)
    requires Enabled(s, a) && !ByFlusher(a) && j < |s.flushers| && DecidedBy(s.flushers[j], loads)
    ensures j < |Apply(s, a).flushers| && DecidedBy(Apply(s, a).flushers[j], LoadsAfter(s, a, j, loads))
  {}

  lemma LoadsStep(s: State, a: Action, j: nat, loads: Loads)
    requires Enabled(s, a) && j < |s.flushers| && DecidedBy(s.flushers[j], loads)
    ensures j < |Apply(s, a).flushers| && DecidedBy(Apply(s, a).flushers[j], LoadsAfter(s, a, j, loads))
  {
    if ByFlusher(a) { LoadsByFlusher(s, a, j, loads); } else { LoadsByOther(s, a, j, loads); }
  }

  /** Over any run: a flush gets past its wait only if the two values it loaded since it
      took the mutex were equal, and parks only if they differed. */
  lemma {:induction false} FlushDecides(s: State, acts: seq<Action>, j: nat, loads: Loads)
    requires Runs(s, acts) && j < |s.flushers| && DecidedBy(s.flushers[j], loads)
    ensures j < |After(s, acts).flushers| && DecidedBy(After(s, acts).flushers[j], LoadsOf(s, acts, j, loads))
    decreases |acts|
  {
    if acts != [] {
      LoadsStep(s, acts[0], j, loads);
      FlushDecides(Apply(s, acts[0]), acts[1..], j, LoadsAfter(s, acts[0], j, loads));
    }
  }

  /** After counting a record the worker goes to notify exactly when the counters meet. */
  lemma WorkerAnnouncesIff(s: State)
    requires Reachable(s) && Enabled(s, CompareSubmitted)
    ensures Apply(s, CompareSubmitted).worker.FlushNotifying? <==> s.processed == s.submitted
    ensures Apply(s, CompareSubmitted).worker.LoopTop? <==> s.processed != s.submitted
  {
    ReachableInv(s);
  }
}
