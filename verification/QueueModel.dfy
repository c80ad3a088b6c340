/**
  The bounded queue as a plain sequence, with the history of every record it
  ever accepted. Each critical section of the C++ class is one function here;
  `Queues.Queue` implements them over a wrapped array.
 */
module QueueModel {
  import opened Records

  /** `items` is oldest first. `accepted` lists every stored record; `delivered`
      and `evicted` are indices into it, in the order the events happened. */
  datatype Model = Model(
    capacity: nat,
    policy: OverflowPolicy,
    items: seq<LogRecord>,
    closed: bool,
    accepted: seq<LogRecord>,
    delivered: seq<nat>,
    evicted: seq<nat>)

  function Fresh(capacity: nat, policy: OverflowPolicy): Model {
    Model(capacity, policy, [], false, [], [], [])
  }

  /** Waits: the wait predicate is false, so the caller parks and nothing changes.
      Undefined: the code takes a remainder by zero. */
  datatype PushOutcome = Waits | Refused | Stored | Undefined

  datatype PopOutcome = Starves | Ended | Took(record: LogRecord)

  /** Index in `accepted` of the oldest record still queued. */
  function Oldest(q: Model): int { |q.accepted| - |q.items| }

  function Store(q: Model, r: LogRecord): Model {
    q.(items := q.items + [r], accepted := q.accepted + [r])
  }

  function Evict(q: Model): Model
    requires q.items != [] && Oldest(q) >= 0
  {
    q.(items := q.items[1..], evicted := q.evicted + [Oldest(q)])
  }

  /** One evaluation of push under the queue mutex. */
  function Push(q: Model, r: LogRecord): (PushOutcome, Model)
    requires Oldest(q) >= 0
  {
    var full := |q.items| == q.capacity;
    match q.policy
    case Block =>
      if |q.items| >= q.capacity && !q.closed then (Waits, q)
      else if q.closed then (Refused, q)
      else (Stored, Store(q, r))
    case DropOldest =>
      if full && q.items == [] then (Undefined, q)
      else (Stored, Store(if full then Evict(q) else q, r))
    case _ =>
      if full then (Refused, q) else (Stored, Store(q, r))
  }

  /** One evaluation of pop under the queue mutex. */
  function Pop(q: Model): (PopOutcome, Model)
    requires Oldest(q) >= 0
  {
    if q.items != [] then
      (Took(q.items[0]), q.(items := q.items[1..], delivered := q.delivered + [Oldest(q)]))
    else if q.closed then (Ended, q)
    else (Starves, q)
  }

  function Close(q: Model): Model { q.(closed := true) }

  // ----- what every operation keeps -----

  ghost predicate Increasing(s: seq<nat>) {
    forall i, j | 0 <= i < j < |s| :: s[i] < s[j]
  }

  /** The queue holds the newest accepted records; every older one was either
      delivered or evicted, once, in order; evicted ones have at least `capacity`
      younger successors. */
  ghost predicate Consistent(q: Model) {
    && |q.items| <= q.capacity
    && 0 <= Oldest(q)
    && q.items == q.accepted[Oldest(q)..]
    && Increasing(q.delivered) && Increasing(q.evicted)
    && (forall i | i in q.delivered :: i < Oldest(q))
    && (forall i | i in q.evicted :: i < Oldest(q) && i + q.capacity < |q.accepted|)
    && (forall i | 0 <= i < Oldest(q) :: (i in q.delivered) != (i in q.evicted))
    && |q.delivered| + |q.evicted| == Oldest(q)
    && (q.policy != DropOldest ==> q.evicted == [])
  }

  lemma SnocKeepsIncreasing(s: seq<nat>, x: nat)
    requires Increasing(s) && forall i | i in s :: i < x
    ensures Increasing(s + [x])
  {
    forall i, j | 0 <= i < j < |s + [x]| ensures (s + [x])[i] < (s + [x])[j] {
      assert s[i] in s;
    }
  }

  lemma StoreKeepsConsistent(q: Model, r: LogRecord)
    requires Consistent(q) && |q.items| < q.capacity
    ensures Consistent(Store(q, r))
  {
    var q' := Store(q, r);
    assert q'.items == q'.accepted[Oldest(q')..];
  }

  lemma EvictKeepsConsistent(q: Model)
    requires Consistent(q) && |q.items| == q.capacity > 0 && q.policy == DropOldest
    ensures var q' := Evict(q);
      && q'.evicted == q.evicted + [Oldest(q)]
      && |q'.items| < q.capacity
      // consistent once the evicting push has stored its record
      && forall r :: Consistent(Store(q', r))
  {
    var q' := Evict(q);
    var n: nat := Oldest(q);
    SnocKeepsIncreasing(q.evicted, n);
    forall r ensures Consistent(Store(q', r)) {
      var q2 := Store(q', r);
      assert q2.items == q2.accepted[Oldest(q2)..];
      forall i | 0 <= i < Oldest(q2) ensures (i in q2.delivered) != (i in q2.evicted) {
        if i == n { assert q2.evicted[|q.evicted|] == n; }
      }
    }
  }

  lemma PushKeepsConsistent(q: Model, r: LogRecord)
    requires Consistent(q)
    ensures Consistent(Push(q, r).1)
  {
    if q.policy == DropOldest && |q.items| == q.capacity {
      if q.capacity > 0 { EvictKeepsConsistent(q); }
    } else if |q.items| < q.capacity {
      StoreKeepsConsistent(q, r);
    }
  }

  lemma PopKeepsConsistent(q: Model)
    requires Consistent(q)
    ensures Consistent(Pop(q).1)
  {
    if q.items != [] {
      var q' := Pop(q).1;
      var n: nat := Oldest(q);
      SnocKeepsIncreasing(q.delivered, n);
      assert q'.items == q'.accepted[Oldest(q')..];
      forall i | 0 <= i < Oldest(q') ensures (i in q'.delivered) != (i in q'.evicted) {
        if i == n { assert q'.delivered[|q.delivered|] == n; }
      }
    }
  }

  // ----- whole histories -----

  datatype Op = PushOp(record: LogRecord) | PopOp | CloseOp

  function Perform(q: Model, op: Op): Model
    requires Oldest(q) >= 0
  {
    match op
    case PushOp(r) => Push(q, r).1
    case PopOp => Pop(q).1
    case CloseOp => Close(q)
  }

  ghost function PerformAll(q: Model, ops: seq<Op>): Model
    requires Consistent(q)
    ensures Consistent(PerformAll(q, ops))
    decreases |ops|
  {
    if ops == [] then q
    else
      PerformKeepsConsistent(q, ops[0]);
      PerformAll(Perform(q, ops[0]), ops[1..])
  }

  lemma PerformKeepsConsistent(q: Model, op: Op)
    requires Consistent(q)
    ensures Consistent(Perform(q, op))
  {
    match op
    case PushOp(r) => PushKeepsConsistent(q, r);
    case PopOp => PopKeepsConsistent(q);
    case CloseOp =>
  }

  lemma {:induction false} PerformAllSnoc(q: Model, ops: seq<Op>, op: Op)
    requires Consistent(q)
    ensures PerformAll(q, ops + [op]) == Perform(PerformAll(q, ops), op)
    decreases |ops|
  {
    if ops == [] {
      assert ops + [op] == [op];
      PerformKeepsConsistent(q, op);
      assert PerformAll(q, [op]) == PerformAll(Perform(q, op), []);
    } else {
      PerformKeepsConsistent(q, ops[0]);
      PerformAllSnoc(Perform(q, ops[0]), ops[1..], op);
      assert (ops + [op])[1..] == ops[1..] + [op];
    }
  }

  /** After any sequence of operations under any policy: the queue is the newest
      accepted records, delivered and evicted split everything older, delivery is
      strictly in acceptance order, and nothing is counted twice. */
  lemma RingRefinement(capacity: nat, policy: OverflowPolicy, ops: seq<Op>)
    ensures Consistent(Fresh(capacity, policy))
    ensures var q := PerformAll(Fresh(capacity, policy), ops);
      && |q.items| <= capacity
      && q.accepted[..Oldest(q)] + q.items == q.accepted
      && Increasing(q.delivered)
      && (forall i: nat :: i < Oldest(q) <==> i in q.delivered || i in q.evicted)
      && (forall i: nat :: !(i in q.delivered && i in q.evicted))
      && |q.delivered| + |q.evicted| + |q.items| == |q.accepted|
      && (q.evicted != [] ==> policy == DropOldest)
  {
    ParametersFixed(Fresh(capacity, policy), ops);
  }

  lemma {:induction false} ParametersFixed(q: Model, ops: seq<Op>)
    requires Consistent(q)
    ensures PerformAll(q, ops).capacity == q.capacity && PerformAll(q, ops).policy == q.policy
    decreases |ops|
  {
    if ops != [] {
      PerformKeepsConsistent(q, ops[0]);
      ParametersFixed(Perform(q, ops[0]), ops[1..]);
    }
  }

  /** A push evicts only from a full DropOldest queue, and the record it evicts
      then has exactly `capacity` younger accepted records. */
  lemma EvictionAge(q: Model, r: LogRecord)
    requires Consistent(q)
    ensures var (outcome, q') := Push(q, r);
      && (q'.evicted != q.evicted <==>
            q.policy == DropOldest && |q.items| == q.capacity > 0)
      && (q'.evicted != q.evicted ==>
            && outcome == Stored
            && q'.evicted == q.evicted + [Oldest(q)]
            && q.items[0] == q.accepted[Oldest(q)]
            && |q'.accepted| - (Oldest(q) + 1) == q.capacity)
  {
    if q.policy == DropOldest && |q.items| == q.capacity > 0 {
      assert |q.evicted + [Oldest(q)]| == |q.evicted| + 1;
    }
  }

  /** Exactly when a push is lost, refused or undefined. */
  lemma PushOutcomes(q: Model, r: LogRecord)
    requires Consistent(q)
    ensures var (outcome, q') := Push(q, r);
      && (outcome == Undefined <==> q.policy == DropOldest && q.capacity == 0)
      && (outcome == Waits <==> q.policy == Block && |q.items| == q.capacity && !q.closed)
      && (outcome == Refused <==>
            if q.policy == Block then q.closed
            else q.policy != DropOldest && |q.items| == q.capacity)
      && (outcome == Stored <==> q'.accepted == q.accepted + [r])
      && (outcome != Stored ==> q' == q)
  {
    assert |q.accepted + [r]| == |q.accepted| + 1;
  }

  /** Exactly when a pop yields the oldest record, ends or starves. */
  lemma PopOutcomes(q: Model)
    requires Oldest(q) >= 0
    ensures var (outcome, q') := Pop(q);
      && (outcome.Took? <==> q.items != [])
      && (outcome.Ended? <==> q.items == [] && q.closed)
      && (outcome.Took? ==> [outcome.record] + q'.items == q.items && q'.delivered == q.delivered + [Oldest(q)])
      && (!outcome.Took? ==> q' == q)
      && q'.accepted == q.accepted && q'.evicted == q.evicted && q'.closed == q.closed
  {}
}
