/** From the calls to log to the bytes on disk: the asynchronous backend over a
    rotating file sink, on any disk and with any renames failing. */
module RotatedLogs {
  import opened Records
  import Async = AsyncProtocol
  import Patterns
  import Backends
  import opened Rotation
  import RotationExact
  import opened RotatingSinks

  /** The records as lines of a log. */
  function LinesOf(env: Patterns.Platform, pattern: string, records: seq<LogRecord>): (lines: seq<string>)
    ensures |lines| == |records|
  {
    seq(|records|, i requires 0 <= i < |records| => Patterns.FormatLine(env, pattern, records[i]))
  }

  lemma {:induction false} SyncOutcomeIsLines(env: Patterns.Platform, pattern: string, n: nat, k: nat,
                                              records: seq<LogRecord>)
    requires k < n
    ensures Backends.SyncOutcome(env, pattern, n, records)[k] == LinesOf(env, pattern, records)
  {
    if records != [] {
      var last := |records| - 1;
      SyncOutcomeIsLines(env, pattern, n, k, records[..last]);
      assert LinesOf(env, pattern, records)
          == LinesOf(env, pattern, records[..last]) + [Patterns.FormatLine(env, pattern, records[last])];
    }
  }

  /** A run that is over delivered the lines of what it accepted to sink k. */
  ghost predicate Finished(s: Async.State, k: nat) {
    && Async.Reachable(s) && s.worker.Exited? && s.queue.policy == Block
    && Backends.NothingThrown(s) && k < |s.out.sinks|
  }

  lemma DeliveredLines(s: Async.State, k: nat)
    requires Finished(s, k)
    ensures s.out.sinks[k] == LinesOf(s.out.env, s.out.pattern, s.queue.accepted)
  {
    Backends.AsyncRefinesSync(s);
    SyncOutcomeIsLines(s.out.env, s.out.pattern, |s.out.sinks|, k, s.queue.accepted);
  }

  // ----- what a sink finds and what it leaves -----

  /** The chain a sink finds when it opens the active file for append. */
  function ChainOn(files: map<string, string>, file: string, maxFiles: nat): (c: Chain)
    ensures |c| == maxFiles + 1
  {
    var found := if file in files then files else files[file := ""];
    seq(maxFiles + 1, i requires 0 <= i => FromDisk(found, NameOf(file, i)))
  }

  /** Every rename that fails in some write. */
  function Failed(ops: seq<Op>): set<nat> {
    if ops == [] then {} else (if ops[0].Write? then ops[0].failed else {}) + Failed(ops[1..])
  }

  lemma {:induction false} FailedCovers(ops: seq<Op>)
    ensures FailuresWithin(ops, Failed(ops))
  {
    if ops != [] {
      FailedCovers(ops[1..]);
      assert forall i | 0 < i < |ops| :: ops[i] == ops[1..][i - 1];
    }
  }

  /** What is left of `all` in a chain of n slots that was `before`: always an ordered
      part; a suffix if no rename of an archive fails; and if the chain is backed as well,
      everything or at least n records. */
  ghost predicate KeptOf(kept: seq<string>, all: seq<string>, before: Chain, failed: set<nat>) {
    && Sub(kept, all)
    && (ArchivesMove(failed, |before|) ==> |kept| <= |all| && kept == all[|all| - |kept|..])
    && (ArchivesMove(failed, |before|) && RotationExact.Backed(before) ==> kept == all || |kept| >= |before|)
  }

  lemma RunKeeps(s: State, ops: seq<Op>)
    requires s.chain != [] && s.chain[0].Holds?
    ensures KeptOf(Read(Run(s, ops).chain), Read(s.chain) + Written(ops), s.chain, Failed(ops))
  {
    FailingRenamesKeepOrder(s, ops);
    FailedCovers(ops);
    if ArchivesMove(Failed(ops), |s.chain|) {
      RotationConserves(s, ops, Failed(ops));
      if RotationExact.Backed(s.chain) { RotationExact.NewestRetained(s, ops, Failed(ops)); }
    }
  }

  lemma FilesRead(files: map<string, string>, file: string, c: Chain)
    requires Matches(files, file, "", c)
    ensures JoinFiles(files, file, "", 0, |c|) == Bytes(Read(c))
  {
    JoinFilesReads(files, file, "", c, 0);
    assert c[0..] == c;
  }

  lemma ChainFound(files: map<string, string>, file: string, maxFiles: nat, c: Chain)
    requires |c| == maxFiles + 1
    requires var found := if file in files then files else files[file := ""];
      forall i | 0 <= i <= maxFiles :: c[i] == FromDisk(found, NameOf(file, i))
    ensures c == ChainOn(files, file, maxFiles)
  {}

  /** A rotating sink opened on any disk and fed a stream, then flushed: its files, read
      oldest to newest, are what is kept of what they held and of the stream. */
  method FeedSink(disk: Disk, file: string, maxFileSize: nat, maxFiles: nat, ops: seq<Op>)
    returns (sink: RotatingFileSink, ghost kept: seq<string>)
    modifies disk
    ensures JoinFiles(disk.files, file, "", 0, maxFiles + 1) == Bytes(kept)
    ensures var before := ChainOn(old(disk.files), file, maxFiles);
      KeptOf(kept, Read(before) + Written(ops), before, Failed(ops))
  {
    ghost var files := disk.files;
    sink := new RotatingFileSink(disk, file, maxFileSize, maxFiles);
    ChainFound(files, file, maxFiles, sink.chain);
    RunKeeps(sink.View(), ops);
    sink.WriteAll(ops);
    sink.Flush();
    kept := Read(sink.chain);
    FilesRead(disk.files, file, sink.chain);
  }

  /** End to end. A Block run is over and nothing was thrown; a rotating sink on any disk
      was given what the run delivered to sink k, whatever renames failed and whenever its
      stream buffer spilled. After the worker's last flush, `file.max .. file.1, file` read
      one after the other are what is kept of the earlier files and then the lines of the
      accepted records, in the order of acceptance. */
  method LogFiles(ghost s: Async.State, ghost k: nat, disk: Disk, file: string,
                  maxFileSize: nat, maxFiles: nat, ops: seq<Op>)
    returns (sink: RotatingFileSink, ghost kept: seq<string>)
    requires Finished(s, k) && Written(ops) == s.out.sinks[k]
    modifies disk
    ensures JoinFiles(disk.files, file, "", 0, maxFiles + 1) == Bytes(kept)
    ensures var before := ChainOn(old(disk.files), file, maxFiles);
      KeptOf(kept, Read(before) + LinesOf(s.out.env, s.out.pattern, s.queue.accepted), before, Failed(ops))
  {
    DeliveredLines(s, k);
    sink, kept := FeedSink(disk, file, maxFileSize, maxFiles, ops);
  }

  // ----- a disk without earlier files -----

  lemma {:induction false} NothingToRead(c: Chain)
    requires forall i | 0 <= i < |c| :: RecordsOf(c[i]) == []
    ensures Read(c) == []
  {
    if c != [] { NothingToRead(c[1..]); }
  }

  /** There nothing precedes the stream, and the chain is backed. */
  lemma FreshDisk(files: map<string, string>, file: string, maxFiles: nat)
    requires forall i: nat | i <= maxFiles :: NameOf(file, i) !in files
    ensures Read(ChainOn(files, file, maxFiles)) == [] && RotationExact.Backed(ChainOn(files, file, maxFiles))
  {
    var c := ChainOn(files, file, maxFiles);
    assert NameOf(file, 0) == file;
    forall i: nat | i <= maxFiles ensures RecordsOf(c[i]) == [] {
      if i > 0 { NamesDiffer(file, i, 0); }
    }
    NothingToRead(c);
    forall j: nat | j < |c| ensures RotationExact.BackedAt(c, j) {
      NothingToRead(c[j + 1..]);
    }
  }
}
