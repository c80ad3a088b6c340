/** The ring buffer itself: a fixed array, wrapped head and tail, a size. */
module Queues {
  import opened Records
  import opened QueueModel

  lemma NextRemainder(x: nat, n: nat)
    requires x < n
    ensures (x + 1) % n == if x + 1 == n then 0 else x + 1
  {
    var y := x + 1;
    assert y == n * (y / n) + y % n;
  }

  /** The code's `(x + 1) % capacity`. */
  function NextSlot(x: nat, capacity: nat): (r: nat)
    requires x < capacity
    ensures r == if x + 1 == capacity then 0 else x + 1
    ensures r < capacity
  {
    NextRemainder(x, capacity);
    (x + 1) % capacity
  }

  class Queue {
    const capacity: nat
    const policy: OverflowPolicy
    const buffer: array<LogRecord>
    var head: nat
    var tail: nat
    var size: nat
    var closed: bool

    ghost var accepted: seq<LogRecord>
    ghost var delivered: seq<nat>
    ghost var evicted: seq<nat>

    /** Array index of the i-th queued record. */
    ghost function Slot(i: nat): nat
      reads this
    {
      if head + i < capacity then head + i else head + i - capacity
    }

    /** The ring's shape. What the contents mean is `QueueModel.Consistent(View())`,
        which every operation keeps (`PerformKeepsConsistent`). */
    ghost predicate Ring()
      reads this
    {
      && buffer.Length == capacity
      && size <= capacity
      && size <= |accepted|
      && (capacity == 0 ==> head == 0 && tail == 0)
      && (capacity > 0 ==> head < capacity && tail == Slot(size))
    }


    /** The wrapped array read from head, oldest first. */
    ghost function Contents(): (s: seq<LogRecord>)
      reads this, buffer
      requires Ring()
      ensures |s| == size
      ensures forall i | 0 <= i < size :: s[i] == buffer[Slot(i)]
    {
      if head + size <= capacity then buffer[head..head + size]
      else buffer[head..] + buffer[..head + size - capacity]
    }

    ghost function View(): Model
      reads this, buffer
      requires Ring()
    {
      Model(capacity, policy, Contents(), closed, accepted, delivered, evicted)
    }

    constructor (capacity: nat, policy: OverflowPolicy)
      ensures Ring() && fresh(buffer)
      ensures View() == Fresh(capacity, policy)
    {
      this.capacity := capacity;
      this.policy := policy;
      buffer := new LogRecord[capacity];
      head, tail, size, closed := 0, 0, 0, false;
      accepted, delivered, evicted := [], [], [];
    }

    /** Drops the oldest queued record from the ring. */
    method AdvanceHead()
      requires Ring() && size > 0
      modifies this`head, this`size
      ensures Ring() && Contents() == old(Contents())[1..]
    {
      head := NextSlot(head, capacity);
      size := size - 1;
      assert forall i | 0 <= i < size :: Slot(i) == old(Slot(i + 1));
    }

    /** Writes the record behind the newest one. */
    method StoreAtTail(record: LogRecord)
      requires Ring() && size < capacity
      modifies this`tail, this`size, this`accepted, buffer
      ensures Ring() && Contents() == old(Contents()) + [record]
      ensures accepted == old(accepted) + [record]
    {
      assert tail == Slot(size);
      buffer[tail] := record;
      tail := NextSlot(tail, capacity);
      size := size + 1;
      accepted := accepted + [record];
      assert forall i | 0 <= i < size :: Slot(i) == old(Slot(i));
    }

    /** One pass of push under the mutex. `Waits` means the wait predicate was
        false: the thread parks and will evaluate it again after a wake-up. */
    method TryPush(record: LogRecord) returns (outcome: PushOutcome)
      requires Ring()
      modifies this, buffer
      ensures Ring()
      ensures (outcome, View()) == Push(old(View()), record)
    {
      match policy {
        case Block =>
          if !(size < capacity || closed) { return Waits; }
          if closed { return Refused; }
        case DropNewest =>
          if size == capacity { return Refused; }
        case DropOldest =>
          if size == capacity {
            if capacity == 0 { return Undefined; }
            evicted := evicted + [|accepted| - size];
            AdvanceHead();
          }
        case Discard =>
          if size == capacity { return Refused; }
      }
      StoreAtTail(record);
      return Stored;
    }

    /** Takes the oldest queued record out of the ring. */
    method TakeOldest() returns (record: LogRecord)
      requires Ring() && size > 0
      modifies this`head, this`size, this`delivered
      ensures Ring() && [record] + Contents() == old(Contents())
      ensures delivered == old(delivered) + [|accepted| - old(size)]
    {
      record := buffer[head];
      assert record == buffer[Slot(0)];
      delivered := delivered + [|accepted| - size];
      AdvanceHead();
    }

    /** One pass of pop under the mutex. */
    method TryPop() returns (outcome: PopOutcome)
      requires Ring()
      modifies this
      ensures Ring()
      ensures (outcome, View()) == Pop(old(View()))
    {
      if !(size > 0 || closed) { return Starves; }
      if size == 0 { return Ended; }
      ghost var items := Contents();
      var record := TakeOldest();
      assert items[0] == record && items[1..] == Contents();
      outcome := Took(record);
    }

    method Shutdown()
      requires Ring()
      modifies this`closed
      ensures Ring()
      ensures View() == Close(old(View()))
    {
      closed := true;
    }
  }

  /** The class run over any list of operations is the model run over them, so
      `QueueModel.RingRefinement` speaks about the array. */
  method Execute(capacity: nat, policy: OverflowPolicy, ops: seq<Op>) returns (q: Queue)
    ensures q.Ring()
    ensures Consistent(q.View()) && q.View() == PerformAll(Fresh(capacity, policy), ops)
  {
    q := new Queue(capacity, policy);
    for i := 0 to |ops|
      invariant q.Ring() && fresh(q) && fresh(q.buffer)
      invariant Consistent(Fresh(capacity, policy))
      invariant q.View() == PerformAll(Fresh(capacity, policy), ops[..i])
    {
      assert ops[..i + 1] == ops[..i] + [ops[i]];
      PerformAllSnoc(Fresh(capacity, policy), ops[..i], ops[i]);
      match ops[i] {
        case PushOp(r) => var _ := q.TryPush(r);
        case PopOp => var _ := q.TryPop();
        case CloseOp => q.Shutdown();
      }
    }
    assert ops[..|ops|] == ops;
  }
}
