/** The sinks, the synchronous backend, the worker's drain loop, and the theorem
    that the asynchronous backend writes what the synchronous one would. */
module Backends {
  import opened Records
  import opened Patterns
  import opened Memos
  import opened Formatting
  import opened AsyncProtocol
  import opened AsyncTheorems
  import Q = QueueModel
  import Queues

  /** Any sink, seen through what it was given. */
  class Sink {
    var received: seq<string>

    constructor ()
      ensures received == []
    {
      received := [];
    }

    method Write(buffer: MemoryBuffer)
      modifies this
      ensures received == old(received) + [buffer.data]
    {
      received := received + [buffer.data];
    }
  }

  class SinkManager {
    var sinks: seq<Sink>

    ghost predicate Valid()
      reads this
    {
      forall i, j | 0 <= i < j < |sinks| :: sinks[i] != sinks[j]
    }

    ghost function Contents(): (c: seq<seq<string>>)
      reads this, sinks
      ensures |c| == |sinks| && forall k | 0 <= k < |sinks| :: c[k] == sinks[k].received
    {
      seq(|sinks|, k requires 0 <= k < |sinks| reads this, sinks => sinks[k].received)
    }

    constructor ()
      ensures Valid() && sinks == []
    {
      sinks := [];
    }

    method AddSink(sink: Sink)
      requires Valid() && sink !in sinks
      modifies this
      ensures Valid() && sinks == old(sinks) + [sink]
    {
      sinks := sinks + [sink];
    }

    /** Writes to every sink in order; sink number `reach`, if there is one, throws
        and ends the loop. */
    method Write(buffer: MemoryBuffer, reach: nat) returns (completed: bool)
      requires Valid()
      modifies sinks
      ensures Contents() == Deliver(old(Contents()), buffer.data, reach)
      ensures completed <==> reach >= |sinks|
    {
      for k := 0 to |sinks|
        invariant k <= reach
        invariant forall i | 0 <= i < |sinks| ::
          sinks[i].received == if i < k then old(sinks[i].received) + [buffer.data] else old(sinks[i].received)
      {
        if k == reach { return false; }
        sinks[k].Write(buffer);
      }
      return true;
    }
  }

  /** One thread's formatting state together with the shared formatter and sinks. */
  class Pipeline {
    const formatter: Formatter
    const sinks: SinkManager
    const buffer: MemoryBuffer
    const cache: TimestampCache

    ghost predicate Valid()
      reads this, formatter, sinks
    {
      formatter.Valid() && sinks.Valid()
    }

    constructor (formatter: Formatter, sinks: SinkManager)
      ensures this.formatter == formatter && this.sinks == sinks
      ensures fresh(buffer) && fresh(cache) && cache.View() == EMPTY
    {
      this.formatter, this.sinks := formatter, sinks;
      buffer := new MemoryBuffer();
      cache := new TimestampCache();
    }

    /** clear, format, write; formatting may throw, or a sink may. The line is the one a
        thread with this cache produces, and the cache ends as the fate says. */
    method Emit(env: Platform, r: LogRecord, fate: Fate) returns (completed: bool)
      requires Valid()
      modifies buffer, cache, sinks.sinks
      ensures Valid()
      ensures completed <==> fate.Reaches? && fate.sinks >= |sinks.sinks|
      ensures sinks.Contents()
           == Deliver(old(sinks.Contents()), LineUnder(env, formatter.pattern, old(cache.View()), r), Reach(fate))
      ensures cache.View() == MemoAfter(env, UsesStamp(formatter.pattern), old(cache.View()), r, fate)
    {
      buffer.Clear();
      match fate {
        case FormatThrows(partial, point) =>
          BreakOff(env, r, partial, point);
          assert Deliver(sinks.Contents(), LineUnder(env, formatter.pattern, old(cache.View()), r), 0)
              == sinks.Contents();
          return false;
        case Reaches(n) =>
          formatter.Format(env, cache, buffer, r);
          completed := WriteLine(LineUnder(env, formatter.pattern, old(cache.View()), r), n);
      }
    }

    /** Formatting up to the point where it throws. */
    method BreakOff(env: Platform, r: LogRecord, partial: string, point: Break)
      modifies buffer, cache
      ensures cache.View() == MemoAfter(env, UsesStamp(formatter.pattern), old(cache.View()), r,
                                        FormatThrows(partial, point))
    {
      buffer.Append(partial);
      match point {
        case BeforeStamp =>
        case AfterStamp => cache.AppendTimestamp(env, buffer, r);
        case Torn(text) => cache.TearRefill(env, r, text);
      }
    }

    /** The buffer, which holds this line alone, goes to the sinks. */
    method WriteLine(ghost line: string, reach: nat) returns (completed: bool)
      requires sinks.Valid() && buffer.data == "" + line
      modifies sinks.sinks
      ensures sinks.Contents() == Deliver(old(sinks.Contents()), line, reach)
      ensures completed <==> reach >= |sinks.sinks|
    {
      assert buffer.data == line;
      completed := sinks.Write(buffer, reach);
    }
  }

  // ----- the synchronous backend -----

  /** What n sinks hold after SyncBackend.log was called for each record in turn. */
  function SyncOutcome(env: Platform, pattern: string, n: nat, records: seq<LogRecord>): (c: seq<seq<string>>)
    ensures |c| == n
  {
    if records == [] then seq(n, k => [])
    else
      var last := |records| - 1;
      Deliver(SyncOutcome(env, pattern, n, records[..last]), FormatLine(env, pattern, records[last]), n)
  }

  class SyncBackend {
    const pipeline: Pipeline

    constructor (formatter: Formatter, sinks: SinkManager)
      ensures fresh(pipeline) && fresh(pipeline.buffer) && fresh(pipeline.cache) && pipeline.cache.View() == EMPTY
      ensures pipeline.formatter == formatter && pipeline.sinks == sinks
    {
      pipeline := new Pipeline(formatter, sinks);
    }

    /** Formats and writes in the caller's thread. An exception of the formatter or of a
        sink is not caught: it reaches the caller, `completed` is false. */
    method Log(env: Platform, r: LogRecord, fate: Fate) returns (completed: bool)
      requires pipeline.Valid()
      modifies pipeline.buffer, pipeline.cache, pipeline.sinks.sinks
      ensures pipeline.Valid()
      ensures completed <==> fate.Reaches? && fate.sinks >= |pipeline.sinks.sinks|
      ensures pipeline.sinks.Contents()
           == Deliver(old(pipeline.sinks.Contents()),
                      LineUnder(env, pipeline.formatter.pattern, old(pipeline.cache.View()), r), Reach(fate))
      ensures pipeline.cache.View()
           == MemoAfter(env, UsesStamp(pipeline.formatter.pattern), old(pipeline.cache.View()), r, fate)
    {
      completed := pipeline.Emit(env, r, fate);
    }

    /** Calls in sequence by one thread, from empty sinks, none of which throws. */
    method LogAll(env: Platform, records: seq<LogRecord>)
      requires pipeline.Valid() && Truthful(env, pipeline.cache.View())
      requires forall k | 0 <= k < |pipeline.sinks.sinks| :: pipeline.sinks.sinks[k].received == []
      modifies pipeline.buffer, pipeline.cache, pipeline.sinks.sinks
      ensures pipeline.Valid() && Truthful(env, pipeline.cache.View())
      ensures pipeline.sinks.Contents()
           == SyncOutcome(env, pipeline.formatter.pattern, |pipeline.sinks.sinks|, records)
    {
      for i := 0 to |records|
        invariant pipeline.Valid() && Truthful(env, pipeline.cache.View())
        invariant pipeline.sinks.Contents()
               == SyncOutcome(env, pipeline.formatter.pattern, |pipeline.sinks.sinks|, records[..i])
      {
        TruthfulLine(env, pipeline.formatter.pattern, pipeline.cache.View(), records[i]);
        var _ := Log(env, records[i], Reaches(|pipeline.sinks.sinks|));
        assert records[..i + 1][..i] == records[..i];
      }
      assert records[..|records|] == records;
    }
  }

  // ----- the worker draining its queue -----

  /** Each sink went from `before` to `after` by receiving the lines of `records`
      that reached it, from a thread whose cache was m at the start. */
  ghost predicate Grew(before: seq<seq<string>>, after: seq<seq<string>>, env: Platform, pattern: string, m: Memo,
                       records: seq<LogRecord>, fates: seq<Fate>)
    requires |records| == |fates|
  {
    && |after| == |before|
    && forall k | 0 <= k < |before| :: after[k] == before[k] + Received(env, pattern, m, records, fates, k)
  }

  lemma GrewByOne(before: seq<seq<string>>, after: seq<seq<string>>, env: Platform, pattern: string, m: Memo,
                  records: seq<LogRecord>, fates: seq<Fate>, r: LogRecord, fate: Fate)
    requires |records| == |fates| && Grew(before, after, env, pattern, m, records, fates)
    ensures var line := LineUnder(env, pattern, MemoOf(env, pattern, m, records, fates), r);
      Grew(before, Deliver(after, line, Reach(fate)), env, pattern, m, records + [r], fates + [fate])
  {
    forall k: nat | k < |before|
      ensures Received(env, pattern, m, records + [r], fates + [fate], k)
           == Received(env, pattern, m, records, fates, k)
            + (if k < Reach(fate) then [LineUnder(env, pattern, MemoOf(env, pattern, m, records, fates), r)] else [])
    {
      ReceivedSnoc(env, pattern, m, records, fates, r, fate, k);
    }
  }

  lemma TakeNext(items: seq<LogRecord>, n: nat, r: LogRecord, rest: seq<LogRecord>)
    requires n <= |items| && [r] + rest == items[n..]
    ensures n < |items| && items[..n + 1] == items[..n] + [r] && rest == items[n + 1..]
  {
    assert |[r] + rest| == |items| - n;
    assert rest == ([r] + rest)[1..];
    assert r == ([r] + rest)[0];
  }

  /** n of the items are handled: the rest is queued, and sinks and cache are what the n
      make of them. */
  ghost predicate Drained(env: Platform, pattern: string, items: seq<LogRecord>, fates: seq<Fate>, n: nat,
                          m: Memo, start: seq<seq<string>>, rest: seq<LogRecord>, memo: Memo, now: seq<seq<string>>)
  {
    && n <= |items| == |fates| && rest == items[n..]
    && memo == MemoOf(env, pattern, m, items[..n], fates[..n])
    && Grew(start, now, env, pattern, m, items[..n], fates[..n])
  }

  lemma DrainedNone(env: Platform, pattern: string, items: seq<LogRecord>, fates: seq<Fate>,
                    m: Memo, start: seq<seq<string>>)
    requires |items| == |fates|
    ensures Drained(env, pattern, items, fates, 0, m, start, items, m, start)
  {}

  /** One more turn of the drain loop. */
  lemma DrainedOneMore(env: Platform, pattern: string, items: seq<LogRecord>, fates: seq<Fate>, n: nat,
                       m: Memo, start: seq<seq<string>>, rest: seq<LogRecord>, memo: Memo, now: seq<seq<string>>,
                       record: LogRecord)
    requires Drained(env, pattern, items, fates, n, m, start, [record] + rest, memo, now)
    ensures n < |fates|
    ensures Drained(env, pattern, items, fates, n + 1, m, start, rest,
                    MemoAfter(env, UsesStamp(pattern), memo, record, fates[n]),
                    Deliver(now, LineUnder(env, pattern, memo, record), Reach(fates[n])))
  {
    TakeNext(items, n, record, rest);
    GrewByOne(start, now, env, pattern, m, items[..n], fates[..n], record, fates[n]);
    MemoOfSnoc(env, pattern, m, items[..n], fates[..n], record, fates[n]);
    assert fates[..n + 1] == fates[..n] + [fates[n]];
  }

  lemma DrainedAll(env: Platform, pattern: string, items: seq<LogRecord>, fates: seq<Fate>, n: nat,
                   m: Memo, start: seq<seq<string>>, memo: Memo, now: seq<seq<string>>)
    requires Drained(env, pattern, items, fates, n, m, start, [], memo, now)
    ensures n == |items| && memo == MemoOf(env, pattern, m, items, fates)
    ensures Grew(start, now, env, pattern, m, items, fates)
  {
    assert |items[n..]| == 0;
    assert items[..n] == items && fates[..n] == fates;
  }

  class AsyncWorker {
    const queue: Queues.Queue
    const pipeline: Pipeline
    var processed: nat

    constructor (queue: Queues.Queue, pipeline: Pipeline)
      ensures this.queue == queue && this.pipeline == pipeline && processed == 0
    {
      this.queue, this.pipeline, processed := queue, pipeline, 0;
    }

    /** The loop after shutdown: pops until the queue is empty, swallowing whatever
        formatting or a sink throws. Every queued record is handled once, in order,
        and reaches the sinks its fate lets it reach, as its own line under the cache
        that the records before it left. */
    method Drain(env: Platform, fates: seq<Fate>)
      requires queue.Ring() && queue.closed && pipeline.Valid() && |fates| == queue.size
      modifies this`processed, queue, pipeline.buffer, pipeline.cache, pipeline.sinks.sinks
      ensures queue.Ring() && queue.closed && queue.Contents() == [] && pipeline.Valid()
      ensures processed == old(processed) + old(queue.size)
      ensures queue.accepted == old(queue.accepted) && queue.evicted == old(queue.evicted)
      ensures |queue.delivered| == |old(queue.delivered)| + old(queue.size)
      ensures Grew(old(pipeline.sinks.Contents()), pipeline.sinks.Contents(), env, pipeline.formatter.pattern,
                   old(pipeline.cache.View()), old(queue.Contents()), fates)
      ensures pipeline.cache.View() == MemoOf(env, pipeline.formatter.pattern, old(pipeline.cache.View()),
                                              old(queue.Contents()), fates)
    {
      ghost var items, start, m := queue.Contents(), pipeline.sinks.Contents(), pipeline.cache.View();
      DrainedNone(env, pipeline.formatter.pattern, items, fates, m, start);
      ghost var n := PopAll(env, items, fates, m, start);
      DrainedAll(env, pipeline.formatter.pattern, items, fates, n, m, start,
                 pipeline.cache.View(), pipeline.sinks.Contents());
    }

    method PopAll(env: Platform, ghost items: seq<LogRecord>, fates: seq<Fate>,
                  ghost m: Memo, ghost start: seq<seq<string>>) returns (ghost n: nat)
      requires queue.Ring() && queue.closed && pipeline.Valid()
      requires DrainedHere(env, items, fates, 0, m, start)
      modifies this`processed, queue, pipeline.buffer, pipeline.cache, pipeline.sinks.sinks
      ensures queue.Ring() && queue.closed && queue.Contents() == [] && pipeline.Valid()
      ensures DrainedHere(env, items, fates, n, m, start) && processed == old(processed) + n
      ensures queue.accepted == old(queue.accepted) && queue.evicted == old(queue.evicted)
      ensures |queue.delivered| == |old(queue.delivered)| + n
    {
      var i: nat, more := 0, true;
      while more
        invariant queue.Ring() && queue.closed && pipeline.Valid()
        invariant DrainedHere(env, items, fates, i, m, start)
        invariant processed == old(processed) + i
        invariant queue.accepted == old(queue.accepted) && queue.evicted == old(queue.evicted)
        invariant |queue.delivered| == |old(queue.delivered)| + i
        invariant !more ==> queue.Contents() == []
        decreases queue.size, more
      {
        more := Turn(env, items, fates, i, m, start);
        if more { i := i + 1; }
      }
      n := i;
    }

    ghost predicate DrainedHere(env: Platform, items: seq<LogRecord>, fates: seq<Fate>, n: nat,
                                m: Memo, start: seq<seq<string>>)
      reads this, queue, queue.buffer, pipeline, pipeline.formatter, pipeline.cache, pipeline.sinks,
            pipeline.sinks.sinks
      requires queue.Ring()
    {
      Drained(env, pipeline.formatter.pattern, items, fates, n, m, start,
              queue.Contents(), pipeline.cache.View(), pipeline.sinks.Contents())
    }

    /** One turn, as part of the loop. */
    method Turn(env: Platform, ghost items: seq<LogRecord>, fates: seq<Fate>, n: nat,
                ghost m: Memo, ghost start: seq<seq<string>>) returns (more: bool)
      requires queue.Ring() && queue.closed && pipeline.Valid()
      requires DrainedHere(env, items, fates, n, m, start)
      modifies this`processed, queue, pipeline.buffer, pipeline.cache, pipeline.sinks.sinks
      ensures queue.Ring() && queue.closed && pipeline.Valid()
      ensures queue.accepted == old(queue.accepted) && queue.evicted == old(queue.evicted)
      ensures DrainedHere(env, items, fates, if more then n + 1 else n, m, start)
      ensures !more ==> queue.Contents() == [] && queue.size == old(queue.size)
      ensures more ==> queue.size < old(queue.size)
      ensures processed == old(processed) + (if more then 1 else 0)
      ensures |queue.delivered| == |old(queue.delivered)| + (if more then 1 else 0)
    {
      ghost var memo, now := pipeline.cache.View(), pipeline.sinks.Contents();
      ghost var before := queue.Contents();
      var record;
      more, record := Next(env, if n < |fates| then fates[n] else Reaches(0));
      if more {
        assert before == [record] + queue.Contents();
        DrainedOneMore(env, pipeline.formatter.pattern, items, fates, n, m, start,
                       queue.Contents(), memo, now, record);
      }
    }

    /** One turn of the drain loop: pop, and if there was a record, handle and count it. */
    method Next(env: Platform, fate: Fate) returns (more: bool, record: LogRecord)
      requires queue.Ring() && queue.closed && pipeline.Valid()
      modifies this`processed, queue, pipeline.buffer, pipeline.cache, pipeline.sinks.sinks
      ensures queue.Ring() && queue.closed && pipeline.Valid()
      ensures queue.accepted == old(queue.accepted) && queue.evicted == old(queue.evicted)
      ensures more <==> old(queue.Contents()) != []
      ensures !more ==> queue.Contents() == [] && processed == old(processed)
      ensures !more ==> queue.delivered == old(queue.delivered)
      ensures !more ==> pipeline.sinks.Contents() == old(pipeline.sinks.Contents())
      ensures !more ==> pipeline.cache.View() == old(pipeline.cache.View())
      ensures more ==> [record] + queue.Contents() == old(queue.Contents()) && processed == old(processed) + 1
      ensures more ==> |queue.delivered| == |old(queue.delivered)| + 1
      ensures more ==>
        (pipeline.sinks.Contents()
          == Deliver(old(pipeline.sinks.Contents()),
                     LineUnder(env, pipeline.formatter.pattern, old(pipeline.cache.View()), record), Reach(fate)))
      ensures more ==>
        (pipeline.cache.View()
          == MemoAfter(env, UsesStamp(pipeline.formatter.pattern), old(pipeline.cache.View()), record, fate))
    {
      more, record := PopOne();
      if more { HandleOne(env, record, fate); }
    }

    /** Handles and counts one record, whatever is thrown; the queue is not touched. */
    method HandleOne(env: Platform, record: LogRecord, fate: Fate)
      requires pipeline.Valid()
      modifies this`processed, pipeline.buffer, pipeline.cache, pipeline.sinks.sinks
      ensures pipeline.Valid() && processed == old(processed) + 1
      ensures pipeline.sinks.Contents()
           == Deliver(old(pipeline.sinks.Contents()),
                      LineUnder(env, pipeline.formatter.pattern, old(pipeline.cache.View()), record), Reach(fate))
      ensures pipeline.cache.View()
           == MemoAfter(env, UsesStamp(pipeline.formatter.pattern), old(pipeline.cache.View()), record, fate)
    {
      var _ := pipeline.Emit(env, record, fate);
      processed := processed + 1;
    }

    method PopOne() returns (more: bool, record: LogRecord)
      requires queue.Ring() && queue.closed
      modifies queue
      ensures queue.Ring() && queue.closed
      ensures queue.accepted == old(queue.accepted) && queue.evicted == old(queue.evicted)
      ensures more <==> old(queue.Contents()) != []
      ensures !more ==> queue.Contents() == [] && queue.delivered == old(queue.delivered)
      ensures more ==> [record] + queue.Contents() == old(queue.Contents())
      ensures more ==> |queue.delivered| == |old(queue.delivered)| + 1
    {
      Q.PopOutcomes(queue.View());
      var outcome := queue.TryPop();
      more := outcome.Took?;
      record := if more then outcome.record else LogRecord(0, Info, 0, 0, "", "", 0, "", "");
    }
  }

  // ----- async refines sync -----

  /** No formatting and no sink threw. */
  ghost predicate NothingThrown(s: State) {
    forall i | 0 <= i < |s.fates| :: s.fates[i] == Reaches(|s.out.sinks|)
  }

  lemma {:induction false} AllReachedIsSync(env: Platform, pattern: string, n: nat, handled: seq<LogRecord>,
                                            fates: seq<Fate>, k: nat)
    requires |handled| == |fates| && k < n
    requires forall i | 0 <= i < |fates| :: fates[i] == Reaches(n)
    ensures Received(env, pattern, EMPTY, handled, fates, k) == SyncOutcome(env, pattern, n, handled)[k]
  {
    if handled != [] {
      var last := |handled| - 1;
      AllReachedIsSync(env, pattern, n, handled[..last], fates[..last], k);
      UntornIsTruthful(env, pattern, EMPTY, handled[..last], fates[..last]);
      TruthfulLine(env, pattern, MemoOf(env, pattern, EMPTY, handled[..last], fates[..last]), handled[last]);
    }
  }

  /** Once a Block run's worker has exited and nothing was thrown, every sink holds
      exactly what SyncBackend.log would have written for the accepted records, in
      the order they were accepted. */
  lemma AsyncRefinesSync(s: State)
    requires Reachable(s) && s.worker.Exited? && s.queue.policy == Block && NothingThrown(s)
    ensures s.out.sinks == SyncOutcome(s.out.env, s.out.pattern, |s.out.sinks|, s.queue.accepted)
  {
    AfterExit(s);
    forall k: nat | k < |s.out.sinks|
      ensures s.out.sinks[k] == SyncOutcome(s.out.env, s.out.pattern, |s.out.sinks|, s.queue.accepted)[k]
    {
      SinksGetOwnLines(s, k);
      AllReachedIsSync(s.out.env, s.out.pattern, |s.out.sinks|, s.handled, s.fates, k);
    }
  }
}
