# Verification of logparse

A Dafny 4.11 model of the logging library and proofs about it. `dafny verify dfyconfig.toml` checks everything.

## What is modelled

The centre is the asynchronous pipeline: producers call `log`, a bounded queue with four overflow policies hands
records to one worker, the worker formats each record and writes it to the sinks, `flush` waits for two counters to
meet, `stop` shuts everything down.

| File | Contents |
| --- | --- |
| `QueueModel.dfy` | the queue as a plain sequence with its history; the laws of any run of operations |
| `Queues.dfy` | the ring buffer class over an array; each method is one step of the model |
| `AsyncProtocol.dfy` | the transition system: every thread has a program counter, every mutex region, atomic access, pending notification, park and (spurious) wake is a step |
| `AsyncInvariants.dfy` | the invariants and their preservation, step by step |
| `AsyncTheorems.dfy` | counters, delivery, no lost wake-up, no deadlock, flush, shutdown |
| `AsyncProgress.dfy` | a rank that every step a thread takes by itself uses up: everything comes to rest, an undisturbed flush passes |
| `AsyncFlushExact.dfy` | exactly when a flush call is sure to be complete |
| `AsyncWakeExact.dfy` | exactly when a flush call is sure not to be left parked |
| `AsyncStopExact.dfy` | exactly when stopping leaves nothing behind |
| `AsyncHistory.dfy` | what the history fields say, told by the run itself: how the worker ends, what becomes of every call to log, what a flush decided on |
| `AsyncScenarios.dfy` | concrete runs in which the guarantees end; which whole configurations keep them |
| `Backends.dfy` | sinks, `SyncBackend`, the worker's drain loop, async refines sync |
| `Patterns.dfy`, `Formatting.dfy` | the pattern language and its compiler; the formatter, its buffer and its timestamp cache |
| `PatternTable.dfy` | the documented token table, row by row, in the text of lines |
| `Memos.dfy` | what a thread's timestamp cache makes of each line over whole runs, exceptions included |
| `Rotation.dfy`, `RotationExact.dfy` | the rename chain over whole records, any renames failing; exactly when it keeps enough records and small files |
| `RotationTriggers.dfy` | when a rotation happens and when it does not |
| `RotatingSinks.dfy` | the sink over file names and bytes |
| `RotatedLogs.dfy` | from the calls to `log` to the bytes in the rotated files |
| `ConfigLanguage.dfy`, `ConfigSpelling.dfy` | what a configuration text means; every way to write a setting |
| `ConfigTable.dfy` | the documented key table, row by row, on the fields of the configuration |
| `ConfigPrinting.dfy`, `ConfigParsing.dfy` | printing a configuration back; the reading loop |
| `Records.dfy`, `Decimals.dfy` | log records; decimal notation |

The queue class and the transition system share the functions `QueueModel.Push`, `Pop` and `Close`: a blocking call is
one evaluation of its wait predicate under the mutex (`Waits`, `Starves` when it parks), and the transition system adds
the parking, the notifications and the interleaving.

`Reachable` means: from a fully constructed backend, by any finite interleaving, with any number of producers and
flushers, any capacity and any policy. `Leads(s, s', limit)` means: s' can follow s by steps within a limit, such as
flusher j's call not returning. History fields (`accepted`, `delivered`, `evicted`, `handled`, `fates`, the `FlushView`
of a flush call) are only read by theorems, and `AsyncHistory` says what they mean without naming them: by the actions
of the run.

## Where the code falls short of its documentation

The header promises that `flush` blocks until everything currently in the queue is processed
(include/logger/async_backend.hpp:58-63). The code keeps that promise only under a condition, and some other natural
claims are false of it too. Each is settled by lemmas: a concrete run, an if-and-only-if, or both.

- `m_submitted` is incremented after the push and outside any lock (src/async_backend.cpp:35-36). While some producer is
  between the two, a flush can pass with a record still queued whose `log()` had returned (`FlushCanMissARecord`). A
  flush is sure to be complete if and only if, at the call, no accepted record is left to handle, or no record is stored
  but uncounted, none was evicted and none is queued that could still be evicted (`SureToBeCompleteIff`).
- A flush can park for ever with equal counters (`WakeupCanBeMissed`). While no `log()` and no `stop()` begins, it is
  sure not to be left parked if and only if no `log()` was in progress at the call and nothing had been evicted, or the
  queue has no capacity (`NeverStrandedIff`); where new calls to `log` may begin, only if nothing can ever be queued
  (`NeverStrandedAtAllIff`). In the good case it passes after a bounded number of steps (`CalmFlushPasses`).
- A record evicted under DropOldest counts as submitted and never as processed (src/queue.cpp:31-34). A later flush that
  no `log()` overlaps never passes, and once the threads have come to rest it is left parked (`EvictionLeavesParked`;
  `EvictionStrandsFlush` is such a run). One that is overlapped can pass all the same, because it loads the two counters
  at two moments (`FlushCanPassAfterEviction`).
- Only Block refuses pushes after shutdown (src/queue.cpp:17). Under the other policies a record accepted after the
  worker has gone is never written (`LateRecordIsLost`). A queue loses nothing at the end, in every run, if and only if
  its policy is Block or it has no capacity (`LosesNothingIff`). For a given stop, while no further `log()` begins, a third
  case is enough: that no `log()` in progress still has its record to store (`NothingLeftBehindIff`).
- With capacity 0 a Block queue stalls and a DropOldest queue computes a remainder by zero. No call to `log`, no worker
  and no `stop` is ever stuck if and only if the capacity is positive or the policy is DropNewest or Discard
  (`DeadlockFreeIffUsable`). Counting flush as well, no thread is ever stuck if and only if there are no producers, or the
  queue is such a one and there are no flushers or no capacity (`NobodyStuckIff`).
- The code swallows errors of its renames (src/sink.cpp:92-93). For any chain of files, gaps included, and any set of
  renames that may fail: every run keeps the newest `max_files + 1` records if and only if the chain is backed and no
  rename of an archive may fail (`RetentionIff`). An empty active file in front of older records is not backed: rotating
  it spends an archive on nothing. A failing rename can lose the middle one of three files (`FailingRenameLosesMiddle`).
- Every run keeps the size bound if and only if there is an archive to rotate into and the rename of the active file
  cannot fail (`SizeBoundIff`); otherwise records pile up in the active file (`FailingRenameBreaksBound`).
- An exception while the timestamp cache is being refilled leaves a torn text marked valid (src/formatter.cpp:211-218).
  Later records of the same second get it until one of another second has been formatted: exactly those
  (`SinksGetOwnLines`, with `TornFor`; `TornLineIsWritten` is such a run).

## Assumptions

Interleaving is sequentially consistent; construction and destruction of the objects are over before and after the run;
`stop` runs once, from the destructor. The clock, the local time conversion, the thread hash and `fmt`'s rendering of
times are one arbitrary fixed `Platform`. `size_t` is 64 bits wide. Characters stand for bytes in the C locale.

## Model

| member | source | states |
| --- | --- | --- |
| `Queues.Queue.constructor` | src/queue.cpp:6-7 | a new queue is the empty model queue |
| `Queues.Queue.TryPush` | src/queue.cpp:9-57 | one pass of push under the mutex has the outcome and the new contents of the model's push, for every policy, full or not, closed or not |
| `Queues.Queue.TryPop` | src/queue.cpp:63-82 | one pass of pop yields the oldest record, ends or parks as the model does |
| `Queues.Queue.Shutdown` | src/queue.cpp:88-95 | only the flag changes |
| `Queues.Execute` | src/queue.cpp:9-98 | the class run over any operations is the model run over them, so the laws of runs hold of the array |
| `QueueModel.PushOutcomes` | src/queue.cpp:12-44 | exactly when push parks, refuses, stores or divides by zero; a push that does not store changes nothing |
| `QueueModel.RingRefinement` | src/queue.cpp:9-98 | after any run under any policy the queue is the newest accepted records; delivered and evicted indices split everything older; delivery is in acceptance order; only DropOldest evicts |
| `QueueModel.EvictionAge` | src/queue.cpp:29-36 | push evicts exactly when DropOldest meets a full queue, and the victim then has exactly `capacity` younger records |
| `AsyncInvariants.InvStep` | src/async_backend.cpp:34-120 | every step of every thread keeps all invariants |
| `AsyncInvariants.ReachableInv` | src/async_backend.cpp:34-120 | all invariants hold in every reachable state |
| `AsyncTheorems.CountersConserved` | src/async_backend.cpp:34-53 | submitted plus pushes not yet counted equals processed plus in hand plus queued plus evicted, under every policy, whatever throws |
| `AsyncTheorems.CountersApartAfterEviction` | src/queue.cpp:29-36 | once a record was evicted, the counters differ at every later moment at which no push is between storing and counting |
| `AsyncTheorems.NoCalmPassAfterEviction` | src/async_backend.cpp:44-53 | after an eviction no flush passes that began with nobody in log() and that no log() overlapped |
| `AsyncTheorems.ExactlyOnceFifo` | src/async_backend.cpp:76-117 | handled, in hand and queued together are the accepted records in order as long as nothing was evicted; only DropOldest evicts; handled records are always accepted ones in increasing order |
| `AsyncTheorems.AfterExit` | src/async_backend.cpp:103-120 | when the worker has exited, Block has handled everything; under any policy the newest records accepted after the drain loop ended, as many as there is room for, are left in the queue, and without evictions everything before them was handled (that moment is the one `ExitComesAfterDraining` finds in the run) |
| `AsyncHistory.ExitComesAfterDraining` | src/async_backend.cpp:76-120 | every run from the main loop to the worker's end has a moment at which the stop flag is seen, a later one at which pop finds the queue closed and empty, and a flush of the sinks after that; whatever was accepted by then was handled or evicted, under every policy, and it is what `drainedAt` counts |
| `AsyncHistory.EveryCallOnce` | src/async_backend.cpp:34-38 | over any run each call to log comes to one end, stored or refused, in the order its producer made the calls, with the record it was given; what was stored is what the queue accepted, in order |
| `AsyncHistory.NothingRefused` | src/queue.cpp:12-44 | DropOldest refuses no record, and Block none while the queue is open |
| `AsyncTheorems.NothingAcceptedAfterClose` | src/queue.cpp:13-20 | Block accepts nothing once closed |
| `AsyncTheorems.NoLostWakeup` | src/queue.cpp:13-20 | free room is covered by owed notifications and woken producers while anyone is parked; queued records by owed notifications while the worker is parked; after shutdown a parked thread has a notify_all coming |
| `AsyncTheorems.OnlyRestIsStuck` | src/async_backend.cpp:34-120 | with a usable queue some thread can move, without a new call or a spurious wake-up, exactly when the state is not one of rest: nobody in log(), the worker parked on an empty open queue or gone, every flush absent or parked, no stop half done |
| `AsyncHistory.FlushDecides` | src/async_backend.cpp:44-51 | over any run a flush gets past its wait only if the two values it loaded since taking the mutex were equal, in either order of the loads, and parks only if they differed |
| `AsyncHistory.WorkerAnnouncesIff` | src/async_backend.cpp:93-100 | after counting a record the worker goes to notify exactly when the counters are equal at its load |
| `AsyncHistory.ViewTellsTheCall` | src/async_backend.cpp:44-53 | what a flush call remembers: the records accepted and uncounted at the step that began it, and calm exactly when nobody was in log() then and no call has begun since |
| `AsyncHistory.CallBegins` | src/async_backend.cpp:44-45 | a call to flush in a running backend begins in the state the exact theorems on flush start from |
| `AsyncTheorems.FlushComplete` | src/async_backend.cpp:44-53 | whichever counter is loaded first, a passing flush has missed at most the records stored but uncounted, both at its start and at its load of m_submitted; with none at either moment and no eviction, every record accepted before it began has been handled |
| `AsyncTheorems.FlushWakes` | src/async_backend.cpp:93-100 | an undisturbed flush parked with equal counters has the worker on its way to notify_all |
| `AsyncTheorems.FlushProgress` | src/async_backend.cpp:79-101 | while an undisturbed flush is parked the worker is not blocked, except by another flusher in the mutex, and each of its steps brings the notification strictly nearer |
| `AsyncTheorems.FlushParksBriefly` | src/async_backend.cpp:44-53 | over any run, an undisturbed flush stays parked for at most a given number of worker steps |
| `AsyncProgress.CalmFlushPasses` | src/async_backend.cpp:44-53 | an undisturbed flush, at whatever point of its call: every sequence of the threads' own steps is bounded, and one that goes on while any thread can move contains the step in which the call passes |
| `AsyncProgress.ProgressUsesUp` | src/async_backend.cpp:34-120 | every step a thread takes by itself, in any order, strictly lowers one rank |
| `AsyncProgress.AlwaysComesToRest` | src/async_backend.cpp:34-120 | from any reachable state of a usable queue the threads left to themselves take a bounded number of steps and stop only at rest; no fairness is assumed |
| `AsyncTheorems.DrainBound` | src/async_backend.cpp:103-120 | after shutdown, while nothing is stored, worker steps taken plus what is left never exceed the initial bound |
| `AsyncTheorems.DrainTerminates` | src/async_backend.cpp:59-120 | under Block every continuation after shutdown has at most 8 worker steps per queued record and 11 more, and the worker is never left parked |
| `AsyncTheorems.QuietDrainTerminates` | src/async_backend.cpp:59-120 | the same bound under every policy when no log() overlaps stop |
| `AsyncTheorems.SinksGetOwnLines` | src/async_backend.cpp:83-91 | every sink holds exactly the lines of the handled records that reached it, in order, each of its own record; after any exceptions a line differs from what the pattern means exactly by the torn timestamp text of its second that a handling left in the cache and that lasts to it |
| `Memos.TornLines` | src/formatter.cpp:203-223 | the same of any records handled one after the other, in any order of time, whatever is thrown at any of them |
| `AsyncScenarios.TornLineIsWritten` | src/formatter.cpp:211-218 | a run in which an exception at one record puts its torn text into the next record's line |
| `AsyncScenarios.FlushCanMissARecord` | src/async_backend.cpp:35-49 | a run in which flush passes although a record whose log() had returned before the call is not handled |
| `AsyncScenarios.WakeupCanBeMissed` | src/async_backend.cpp:93-100 | a run in which nothing begins during the call, and flush ends parked with equal counters and nothing able to move |
| `AsyncWakeExact.EvictionLeavesParked` | src/queue.cpp:31-34 | after an eviction a flush that no log() overlaps never passes: every sequence of the threads' own steps is bounded, and one that ends because nothing can move ends with it parked |
| `AsyncScenarios.EvictionStrandsFlush` | src/queue.cpp:31-34 | a run in which a flush called after an eviction, with nobody in log(), ends parked with nothing able to move |
| `AsyncScenarios.FlushCanPassAfterEviction` | src/async_backend.cpp:47-50 | a run in which such a flush, overlapped by calls to log, passes although the evicted record was never handled |
| `AsyncScenarios.LateRecordIsLost` | src/queue.cpp:22-44 | for every capacity above 0 and every policy but Block, a run in which the worker is gone and an accepted record was never handled |
| `AsyncScenarios.LosesNothingIff` | src/queue.cpp:12-44 | every reachable state with an exited worker has an empty queue and everything accepted handled, exactly when the policy is Block or the capacity is 0 |
| `AsyncStopExact.NothingLeftBehindIff` | src/async_backend.cpp:59-70 | from a stop on, with no further call to log beginning, every exit of the worker leaves the queue empty exactly when the policy is Block, the capacity is 0, or no call to log in progress still has its record to store |
| `AsyncScenarios.DeadlockFreeIffUsable` | src/queue.cpp:12-44 | no call to log, no worker and no stop is ever stuck, exactly when the capacity is positive or the policy is DropNewest or Discard (a parked flush is not counted as stuck here) |
| `AsyncScenarios.NobodyStuckIff` | src/async_backend.cpp:34-120 | no thread at all is ever stuck, flushers included, exactly without producers, or with a usable queue that has no capacity or no flushers |
| `AsyncFlushExact.SureToBeCompleteIff` | src/async_backend.cpp:34-53 | whatever happens during the call, a passing flush has every record accepted before it handled, exactly when at the call nothing is left to handle, or nothing is stored but uncounted, nothing was evicted and, under DropOldest, nothing is queued |
| `AsyncFlushExact.QuietFlushIsComplete` | src/async_backend.cpp:44-53 | the sufficient half, record by record |
| `AsyncFlushExact.IncompletePassExists` | src/async_backend.cpp:34-53 | the necessary half: from any other state a run leads to a pass that misses a record accepted before the call |
| `AsyncWakeExact.NeverStrandedIff` | src/async_backend.cpp:44-53 | a call during which no log() and no stop() begins is never left parked, in any run, exactly when nobody is in log() at the call and nothing was evicted, or the queue has no capacity |
| `AsyncWakeExact.StrandingExists` | src/async_backend.cpp:35-50 | the necessary half: otherwise a run leaves the flusher parked with nothing able to move |
| `AsyncWakeExact.NeverStrandedAtAllIff` | src/async_backend.cpp:44-53 | whatever begins during the call, it is never left parked exactly when the queue has no capacity or there are no producers |
| `Backends.SinkManager.AddSink` | src/sink.cpp:102-105 | the sink comes last, the others keep their places |
| `Backends.SinkManager.Write` | src/sink.cpp:107-111 | sinks are written in order up to the one that throws |
| `Backends.Pipeline.Emit` | src/async_backend.cpp:83-91 | clear, format, write: sinks grow by this record's line under the thread's cache and nothing else, whatever throws, and the cache ends as the exception leaves it |
| `Backends.SyncBackend.Log` | src/sync_backend.cpp:17-23 | every sink up to one that throws receives the record's line under the caller's cache; the caller learns of the exception |
| `Backends.SyncBackend.LogAll` | src/sync_backend.cpp:17-23 | calls in sequence leave the sinks as `SyncOutcome` says |
| `Backends.AsyncWorker.Drain` | src/async_backend.cpp:106-117 | the drain loop empties the queue, handles each record once in order, counts it, and gives each sink the lines that reach it, torn refills included |
| `Backends.AsyncRefinesSync` | src/async_backend.cpp:76-120 | after a Block run without exceptions every sink holds what SyncBackend would have written for the accepted records in acceptance order |
| `Patterns.CompilePreservesMeaning` | src/formatter.cpp:58-155 | rendering the compiled tokens and a newline is reading the pattern left to right: timestamp first, escapes, unknown escapes, `%%`, a dangling `%` |
| `PatternTable.TableRow` | src/formatter.cpp:95-150 | each token of the documented table at the front of any pattern adds the text the table gives it, level names and both aliases written out, and leaves the rest |
| `PatternTable.TokenAlone` | src/formatter.cpp:157-201 | a pattern that is one such token formats as that text and a newline |
| `PatternTable.TimestampRow` | src/formatter.cpp:81-86 | the full timestamp at the front adds the whole-second stamp and wins over the tokens it is made of |
| `PatternTable.YearRow` | src/formatter.cpp:101-103 | `%Y` adds the year unless the pattern goes on as the full timestamp |
| `PatternTable.PercentRows` | src/formatter.cpp:93-144 | `%%` and a final `%` are percent signs |
| `PatternTable.UnknownRow` | src/formatter.cpp:145-148 | any other character after `%` stands for itself, the `%` too |
| `PatternTable.TextInFront` | src/formatter.cpp:88-91 | text without `%` stands for itself, whatever follows |
| `PatternTable.DefaultLine` | src/formatter.cpp:18 | the line of the default pattern |
| `Patterns.CompiledIsPrintable` | src/formatter.cpp:68-155 | the compiler emits no month token and no empty literal |
| `Patterns.ReadingUndoesPrinting` | src/formatter.cpp:80-150 | printed pieces read back as themselves; nothing printed can be mistaken for the timestamp |
| `Patterns.PatternRoundTrip` | src/formatter.cpp:68-155 | printing a month-free token list and compiling it gives the same list up to merging adjacent literals and dropping empty ones, and the same output for every record |
| `Patterns.EscapedTextRendersAsItself` | src/formatter.cpp:142-144 | any text with every `%` doubled renders as itself |
| `Patterns.PrintedPatternMeansTheSame` | src/formatter.cpp:68-155 | a pattern and the printed form of its tokens format every record alike |
| `Formatting.CompilePattern` | src/formatter.cpp:68-155 | the index loop produces the specified token list |
| `Formatting.TimestampCache.AppendTimestamp` | src/formatter.cpp:203-223 | appends the uncached text of the record's second if the cache is truthful, and keeps it so |
| `Formatting.TimestampCache.TearRefill` | src/formatter.cpp:211-218 | after an exception in the refill the cache is truthful exactly when the torn text is whole |
| `Formatting.AppendTimestamps` | src/formatter.cpp:203-223 | over any records in any order of time one thread's cache changes nothing |
| `Formatting.AppendTimestampsAfterTear` | src/formatter.cpp:203-223 | after a torn refill exactly the records before the first one of another second get the torn text |
| `Formatting.AppendTimeComponent` | src/formatter.cpp:225-252 | appends the calendar component, nothing for other kinds |
| `Formatting.AppendToken` | src/formatter.cpp:157-201 | appends the token's text as a thread with this cache sees it; only a timestamp changes the cache |
| `Formatting.Formatter.Format` | src/formatter.cpp:58-66 | appends one line, keeping what the buffer held: with a truthful cache what the pattern says, in any case that as the cache sees it |
| `Formatting.Formatter.SetPattern` | src/formatter.cpp:50-56 | pattern and tokens change together |
| `RotationTriggers.FittingRun` | src/sink.cpp:66-76 | while the active file and the whole stream stay below the limit no archive changes and nothing is lost, whatever renames would have failed |
| `RotationTriggers.FullWrite` | src/sink.cpp:72-96 | a record that reaches the limit makes the active file the first archive as it was and begins a new one, unless that rename fails |
| `RotationTriggers.EveryArchiveWasFull` | src/sink.cpp:72-73 | over any run without failing renames every archive together with the record that begins the next younger file reaches the limit |
| `Rotation.FailingRenamesKeepOrder` | src/sink.cpp:66-96 | whatever renames fail and whatever gaps exist, what is retained is the initial contents and the stream with records deleted, never duplicated or reordered |
| `Rotation.RotationConserves` | src/sink.cpp:66-96 | from any chain, while no rename of an archive fails, what is retained is everything minus a prefix of whole records, which grows only by the last archive when a rotation overwrites it |
| `Rotation.RotateForm` | src/sink.cpp:84-96 | while no rename of an archive fails, a rotation moves every archive one place and closes up a missing file before the last |
| `RotationExact.NewestRetained` | src/sink.cpp:84-96 | from a backed chain, while no rename of an archive fails, the newest `max_files + 1` records are always retained, all of them while there are fewer |
| `RotationExact.RetentionIff` | src/sink.cpp:66-96 | for any chain and any set of renames that may fail, every run retains that many exactly when the chain is backed and no rename of an archive may fail |
| `Rotation.SingleFileKeepsEverything` | src/sink.cpp:84-96 | with `max_files == 0` rotation renames nothing and the one file keeps everything |
| `RotationExact.RotationSizeBound` | src/sink.cpp:66-76 | with an archive slot, from any chain, while the rename of the active file does not fail, every file stays under `max_file_size` plus the bytes hidden in the stream buffer, or holds one record |
| `RotationExact.SizeBoundIff` | src/sink.cpp:66-96 | for any chain and any set of renames that may fail, that bound is kept by every run exactly when there is an archive slot and the rename of the active file cannot fail |
| `RotationExact.FailingRenameBreaksBound` | src/sink.cpp:92-93 | a run in which the active file cannot be renamed and two records share it beyond the limit |
| `RotationExact.FailingRenameLosesMiddle` | src/sink.cpp:92-93 | a run in which an archive cannot be renamed and the middle one of three files is lost |
| `RotatingSinks.RotatingFileSink.constructor` | src/sink.cpp:53-64 | opening for append creates the file when missing and changes no other |
| `RotatingSinks.RotatingFileSink.CloseStream` | src/sink.cpp:85 | closing writes the pending bytes out, so they move with the file |
| `RotatingSinks.RotatingFileSink.Rotate` | src/sink.cpp:84-100 | the renames over decimal file names do to the bytes what the chain model says and touch no other name |
| `RotatingSinks.RotatingFileSink.Write` | src/sink.cpp:66-76 | one write is one model step; on disk: below the limit the active file grows by the buffer and no other file changes, otherwise it becomes `file.1` as it was and the buffer begins a new one, unless that rename fails |
| `RotatingSinks.RotatingFileSink.Flush` | src/sink.cpp:78-82 | afterwards the active file on disk holds everything written to it |
| `RotatingSinks.RotatingFileSink.WriteAll` | src/sink.cpp:66-100 | after any writes and flushes the files read oldest to newest, then the stream buffer, are the bytes of what the model retains |
| `RotatingSinks.NamesDiffer` | src/sink.cpp:86-90 | different slots have different file names |
| `RotatingSinks.NameIff` | src/sink.cpp:86-90 | the name of archive i is the file's name, a dot and the one digit string for i without leading zeros |
| `RotatingSinks.FirstNames` | src/sink.cpp:86-90 | the names of `app.log`, its first and its tenth archive |
| `Decimals.DecimalIff` | src/sink.cpp:87-88 | the decimal notation of a number is the one digit string that denotes it and has no leading zero |
| `RotatedLogs.FeedSink` | src/sink.cpp:53-100 | on any disk and whatever renames fail, the files read oldest to newest are an ordered part of what they held and the stream; a suffix while no rename of an archive fails; at least as many records as files when the chain was backed too |
| `RotatedLogs.LogFiles` | src/async_backend.cpp:76-120 | end to end, the same of the earlier files and the lines of the accepted records, in acceptance order, after a Block run without exceptions |
| `RotatedLogs.FreshDisk` | src/sink.cpp:53-64 | on a disk without earlier files nothing precedes the stream and the chain is backed |
| `ConfigLanguage.LastWriteWins` | src/parser.cpp:51-123 | every field ends as its last valid line set it, or keeps its default |
| `ConfigLanguage.DeletingIgnoredLine` | src/parser.cpp:111-116 | a line that sets nothing can be deleted from any text, a last line without newline included |
| `ConfigLanguage.SwappingLines` | src/parser.cpp:51-100 | neighbouring lines that set different fields commute, at the end of the text too |
| `ConfigLanguage.CrLfParsesTheSame` | src/parser.cpp:14-28 | replacing every LF by CR LF changes nothing |
| `ConfigSpelling.TrimmedIff` | src/parser.cpp:14-28 | trim(s) is t exactly when s is t with white space around it and t has none at its ends |
| `ConfigSpelling.DocumentedIff` | src/parser.cpp:51-193 | a line sets a setting exactly when it is one of the field's documented keys, `=`, and a documented spelling of the value, in any case, with white space anywhere around the two |
| `ConfigTable.TableIff` | src/parser.cpp:51-193 | a line does to a configuration what the documented table says, keys, aliases, words and the field each key sets written out: one field changes, or, if no row applies, nothing does |
| `ConfigTable.CommentSetsNothing` | src/parser.cpp:111-112 | a line that starts with `#` after any white space sets nothing |
| `ConfigTable.JoinedLinesRead` | src/parser.cpp:104-123 | a text of whole lines means its lines one after the other |
| `ConfigTable.EmptyTextGivesDefaults` | include/logger/config.hpp:31-69 | an empty text gives the documented defaults |
| `ConfigTable.LevelNamesRead` | include/logger/level.hpp:22-24 | the level names shown in lines can be written in a configuration |
| `ConfigPrinting.SizeReads` | src/parser.cpp:38-49 | a printed number parses back exactly when it is below 2^64 |
| `ConfigPrinting.SettingReads` | src/parser.cpp:51-100 | every representable setting, written in the documented form, is understood as itself |
| `ConfigPrinting.ParsedIsRepresentable` | src/parser.cpp:104-123 | whatever the text, sizes are below 2^64 and texts are on one line without outer white space |
| `ConfigPrinting.ConfigRoundTripIff` | src/parser.cpp:104-123 | printing all keys and parsing gives the configuration back exactly when the format can carry it |
| `ConfigParsing.InputStream.GetLine` | src/parser.cpp:108 | yields the next line as getline does |
| `ConfigParsing.ConfigCell.Apply` | src/parser.cpp:51-100 | assigns the field the key names if the value is valid, nothing otherwise |
| `ConfigParsing.ParseStream` | src/parser.cpp:104-123 | the reading loop folds the lines over the defaults |
| `ConfigParsing.ParseText` | src/parser.cpp:104-123 | reading a whole text gives the configuration the language says it means |

## Left out

- ConsoleSink, FileSink and NullSink: plain forwarding to output streams; a sink is modelled by the buffers it received.
- Adding sinks while the worker runs: `SinkManager` has no lock; the sink list is fixed during a run.
- Failure to open or reopen the rotating file, and changes to the files by other processes.
- Sequences of `set_pattern` against a running worker: the pattern is fixed during a run; `Formatter.SetPattern` is modelled by itself.
- Counter overflow at 2^64 and failing allocation.
- `parse_file`'s error for a missing file, `Logger` itself, macros, level filtering and record creation: thin forwarding.
- The runtime effect of `flush_interval_ms`, `flush_on_error` and `rotation.enabled`: the code only stores them.
- Eventual completion under a scheduler: progress is stated as a bound on the threads' own steps; spurious wake-ups are the only steps without one.
- The worker's main loop as a method: its steps are in the transition system; only the drain loop is also a method, because only there no other thread touches the queue.
