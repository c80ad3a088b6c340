/** The rotating sink on a real name space: files are bytes under names with
    decimal suffixes, and the stream holds back bytes it has not written yet. */
module RotatingSinks {
  import opened Decimals
  import opened Rotation
  import opened RotationTriggers

  class Disk {
    var files: map<string, string>

    constructor ()
      ensures files == map[]
    {
      files := map[];
    }
  }

  function NameOf(file: string, i: nat): string {
    if i == 0 then file else file + "." + Decimal(i)
  }

  lemma NamesDiffer(file: string, i: nat, j: nat)
    requires i != j
    ensures NameOf(file, i) != NameOf(file, j)
  {
    if i > 0 && j > 0 && NameOf(file, i) == NameOf(file, j) {
      assert Decimal(i) == NameOf(file, i)[|file| + 1..] == NameOf(file, j)[|file| + 1..] == Decimal(j);
      DecimalInjective(i, j);
    }
  }

  /** The name of archive i: the file's name, a dot, and the one digit string for i
      without leading zeros. */
  lemma NameIff(file: string, i: nat, name: string)
    requires i > 0
    ensures name == NameOf(file, i) <==>
      |file| < |name| && name[..|file| + 1] == file + "." && Numeral(name[|file| + 1..], i)
  {
    assert NameOf(file, i)[..|file| + 1] == file + "." && NameOf(file, i)[|file| + 1..] == Decimal(i);
    if |file| < |name| {
      DecimalIff(name[|file| + 1..], i);
      assert name == name[..|file| + 1] + name[|file| + 1..];
    }
  }

  /** The notation of i: digits without a leading zero. */
  predicate Numeral(s: string, i: nat) {
    Shortest(s) && (forall k | 0 <= k < |s| :: IsDigit(s[k])) && Value(s) == i
  }

  lemma FirstNames()
    ensures NameOf("app.log", 0) == "app.log" && NameOf("app.log", 1) == "app.log.1"
    ensures NameOf("app.log", 10) == "app.log.10"
  {
    assert Decimal(10) == Decimal(1) + "0";
  }

  function Bytes(records: seq<string>): (b: string)
    ensures |b| == Size(records)
  {
    if records == [] then "" else Bytes(records[..|records| - 1]) + records[|records| - 1]
  }

  lemma BytesSnoc(records: seq<string>, r: string)
    ensures Bytes(records + [r]) == Bytes(records) + r
  {
    assert (records + [r])[..|records|] == records;
  }

  /** Slot i is the file of that name, byte for byte; `tail` are bytes of the
      active file the disk does not have yet. */
  ghost predicate SlotMatches(files: map<string, string>, file: string, tail: string, c: Chain, i: nat)
    requires i < |c|
  {
    var name := NameOf(file, i);
    && (name in files <==> c[i].Holds?)
    && (name in files ==> Bytes(RecordsOf(c[i])) == files[name] + (if i == 0 then tail else ""))
  }

  ghost predicate Matches(files: map<string, string>, file: string, tail: string, c: Chain) {
    forall i | 0 <= i < |c| :: SlotMatches(files, file, tail, c, i)
  }

  /** Nothing outside the chain's names differs. */
  ghost predicate OthersSame(before: map<string, string>, after: map<string, string>, file: string, n: nat) {
    forall name: string | (forall i: nat | i < n :: name != NameOf(file, i)) ::
      (name in after <==> name in before) && (name in after ==> after[name] == before[name])
  }

  function Moved(files: map<string, string>, src: string, dest: string): map<string, string>
    requires src in files
  {
    (files - {src})[dest := files[src]]
  }

  lemma MoveMatches(files: map<string, string>, file: string, c: Chain, i: nat)
    requires 0 < i < |c| && Matches(files, file, "", c) && c[i - 1].Holds?
    ensures NameOf(file, i - 1) in files
    ensures Matches(Moved(files, NameOf(file, i - 1), NameOf(file, i)), file, "", Rename(c, i, true))
  {
    assert SlotMatches(files, file, "", c, i - 1);
    var files' := Moved(files, NameOf(file, i - 1), NameOf(file, i));
    var c' := Rename(c, i, true);
    forall k: nat | k < |c'| ensures SlotMatches(files', file, "", c', k) {
      assert SlotMatches(files, file, "", c, k);
      if k != i { NamesDiffer(file, k, i); }
      if k != i - 1 { NamesDiffer(file, k, i - 1); }
    }
  }

  lemma SetActiveMatches(files: map<string, string>, file: string, tail: string, c: Chain,
                         content: string, tail': string, slot: Slot)
    requires c != [] && Matches(files, file, tail, c)
    requires slot.Holds? && Bytes(slot.records) == content + tail'
    ensures Matches(files[file := content], file, tail', c[0 := slot])
  {
    var files', c' := files[file := content], c[0 := slot];
    forall k: nat | k < |c'| ensures SlotMatches(files', file, tail', c', k) {
      assert SlotMatches(files, file, tail, c, k);
      if k > 0 { NamesDiffer(file, k, 0); }
    }
  }

  lemma {:induction false} BytesConcat(a: seq<string>, b: seq<string>)
    ensures Bytes(a + b) == Bytes(a) + Bytes(b)
  {
    if b == [] {
      assert a + b == a;
    } else {
      var last := |b| - 1;
      calc {
        Bytes(a + b);
      == { assert a + b == (a + b[..last]) + [b[last]]; BytesSnoc(a + b[..last], b[last]); }
        Bytes(a + b[..last]) + b[last];
      == { BytesConcat(a, b[..last]); }
        Bytes(a) + Bytes(b[..last]) + b[last];
        Bytes(a) + Bytes(b);
      }
    }
  }

  /** What file i adds to the log: nothing when it is missing; `tail` follows the
      active file. */
  function FileText(files: map<string, string>, file: string, tail: string, i: nat): string {
    var name := NameOf(file, i);
    if name !in files then "" else files[name] + (if i == 0 then tail else "")
  }

  /** `file.n-1 .. file.i` read one after the other, oldest first. */
  function JoinFiles(files: map<string, string>, file: string, tail: string, i: nat, n: nat): string
    requires i <= n
    decreases n - i
  {
    if i == n then "" else JoinFiles(files, file, tail, i + 1, n) + FileText(files, file, tail, i)
  }

  /** The i-th file adds the bytes of the i-th slot's records. */
  lemma SlotReads(files: map<string, string>, file: string, tail: string, c: Chain, i: nat)
    requires i < |c| && Matches(files, file, tail, c)
    ensures FileText(files, file, tail, i) == Bytes(RecordsOf(c[i]))
  {
    assert SlotMatches(files, file, tail, c, i);
  }

  lemma BytesOfRead(c: Chain, i: nat)
    requires i < |c|
    ensures Bytes(Read(c[i..])) == Bytes(Read(c[i + 1..])) + Bytes(RecordsOf(c[i]))
  {
    assert c[i..][1..] == c[i + 1..];
    BytesConcat(Read(c[i + 1..]), RecordsOf(c[i]));
  }

  lemma JoinOne(files: map<string, string>, file: string, tail: string, i: nat, n: nat,
                older: string, slot: string, all: string)
    requires i < n && JoinFiles(files, file, tail, i + 1, n) == older && FileText(files, file, tail, i) == slot
    requires all == older + slot
    ensures JoinFiles(files, file, tail, i, n) == all
  {}

  /** The files read oldest to newest are the bytes of the chain read that way. */
  lemma {:induction false} JoinFilesReads(files: map<string, string>, file: string, tail: string, c: Chain, i: nat)
    requires Matches(files, file, tail, c) && i <= |c|
    ensures JoinFiles(files, file, tail, i, |c|) == Bytes(Read(c[i..]))
    decreases |c| - i
  {
    if i == |c| {
      assert c[i..] == [];
    } else {
      JoinFilesReads(files, file, tail, c, i + 1);
      SlotReads(files, file, tail, c, i);
      BytesOfRead(c, i);
      JoinOne(files, file, tail, i, |c|, Bytes(Read(c[i + 1..])), Bytes(RecordsOf(c[i])), Bytes(Read(c[i..])));
    }
  }

  class RotatingFileSink {
    const file: string
    const maxFileSize: nat
    const maxFiles: nat
    const disk: Disk
    /** Bytes the open stream has accepted but not handed to the disk. */
    var pending: string
    ghost var chain: Chain

    ghost predicate Valid()
      reads this, disk
    {
      && |chain| == maxFiles + 1 && chain[0].Holds?
      && Matches(disk.files, file, pending, chain)
    }

    ghost function View(): State
      reads this
    {
      State(chain, |pending|, maxFileSize)
    }

    /** Opens for append, creating the active file when it is missing. What earlier
        runs left in each file counts as one record. */
    constructor (disk: Disk, file: string, maxFileSize: nat, maxFiles: nat)
      modifies disk
      ensures Valid() && this.disk == disk && this.file == file
      ensures this.maxFileSize == maxFileSize && this.maxFiles == maxFiles
      ensures disk.files == if file in old(disk.files) then old(disk.files) else old(disk.files)[file := ""]
      ensures pending == ""
      ensures forall i | 0 <= i <= maxFiles :: chain[i] == FromDisk(disk.files, NameOf(file, i))
    {
      this.disk, this.file, this.maxFileSize, this.maxFiles := disk, file, maxFileSize, maxFiles;
      pending := "";
      var files := if file in disk.files then disk.files else disk.files[file := ""];
      chain := seq(maxFiles + 1, i requires 0 <= i => FromDisk(files, NameOf(file, i)));
      new;
      disk.files := files;
      forall i | 0 <= i < |chain| ensures SlotMatches(disk.files, file, "", chain, i) {
        assert chain[i] == FromDisk(files, NameOf(file, i));
      }
    }

    /** Closing writes out whatever the stream still holds. */
    method CloseStream()
      requires Valid()
      modifies this`pending, disk
      ensures Valid() && pending == ""
      ensures OthersSame(old(disk.files), disk.files, file, maxFiles + 1)
    {
      assert SlotMatches(disk.files, file, pending, chain, 0) && NameOf(file, 0) == file;
      SetActiveMatches(disk.files, file, pending, chain, disk.files[file] + pending, "", chain[0]);
      assert chain[0 := chain[0]] == chain;
      disk.files := disk.files[file := disk.files[file] + pending];
      pending := "";
    }

    method ReopenStream()
      requires |chain| == maxFiles + 1 && pending == "" && Matches(disk.files, file, "", chain)
      modifies this`chain, disk
      ensures Valid() && chain == Reopen(old(chain))
      ensures OthersSame(old(disk.files), disk.files, file, maxFiles + 1)
    {
      assert SlotMatches(disk.files, file, "", chain, 0) && NameOf(file, 0) == file;
      if file !in disk.files {
        SetActiveMatches(disk.files, file, "", chain, "", "", Holds([]));
        disk.files := disk.files[file := ""];
      }
      chain := Reopen(chain);
    }

    /** Closes the stream, renames oldest first, reopens. */
    method Rotate(failed: set<nat>)
      requires Valid()
      modifies this`pending, this`chain, disk
      ensures Valid() && pending == ""
      ensures chain == Rotation.Rotate(old(chain), failed)
      ensures OthersSame(old(disk.files), disk.files, file, maxFiles + 1)
    {
      CloseStream();
      var i := maxFiles;
      while i > 0
        invariant 0 <= i <= maxFiles && |chain| == maxFiles + 1 && pending == ""
        invariant Matches(disk.files, file, "", chain)
        invariant Shift(chain, i, failed) == Shift(old(chain), maxFiles, failed)
        invariant OthersSame(old(disk.files), disk.files, file, maxFiles + 1)
      {
        var src := file + "." + Decimal(i - 1);
        var dest := file + "." + Decimal(i);
        if i == 1 { src := file; }
        RenameFile(src, dest, i, i !in failed);
        i := i - 1;
      }
      ReopenStream();
    }

    method RenameFile(src: string, dest: string, ghost i: nat, ok: bool)
      requires 0 < i < |chain| == maxFiles + 1 && Matches(disk.files, file, "", chain)
      requires src == NameOf(file, i - 1) && dest == NameOf(file, i)
      modifies this`chain, disk
      ensures Matches(disk.files, file, "", chain) && chain == Rename(old(chain), i, ok)
      ensures OthersSame(old(disk.files), disk.files, file, maxFiles + 1)
    {
      assert SlotMatches(disk.files, file, "", chain, i - 1);
      if src in disk.files && ok {
        MoveMatches(disk.files, file, chain, i);
        disk.files := Moved(disk.files, src, dest);
      }
      chain := Rename(chain, i, ok);
    }

    /** Hands the first bytes of the stream buffer to the disk. */
    method Spill(count: nat)
      requires Valid()
      modifies this`pending, disk
      ensures Valid()
      ensures file in old(disk.files) && file in disk.files
      ensures disk.files[file] + pending == old(disk.files[file] + pending)
      ensures |pending| == if count <= |old(pending)| then |old(pending)| - count else 0
      ensures disk.files.Keys == old(disk.files.Keys)
      ensures forall name | name in disk.files && name != file :: disk.files[name] == old(disk.files)[name]
    {
      assert SlotMatches(disk.files, file, pending, chain, 0) && NameOf(file, 0) == file;
      var n := if count <= |pending| then count else |pending|;
      var content := disk.files[file] + pending[..n];
      assert content + pending[n..] == disk.files[file] + pending;
      SetActiveMatches(disk.files, file, pending, chain, content, pending[n..], chain[0]);
      assert chain[0 := chain[0]] == chain;
      disk.files := disk.files[file := content];
      pending := pending[n..];
    }

    method StreamWrite(buffer: string)
      requires Valid()
      modifies this`pending, this`chain
      ensures Valid() && pending == old(pending) + buffer && chain == Append(old(chain), buffer)
    {
      assert SlotMatches(disk.files, file, pending, chain, 0) && NameOf(file, 0) == file;
      BytesSnoc(chain[0].records, buffer);
      SetActiveMatches(disk.files, file, pending, chain, disk.files[file], pending + buffer,
                       Holds(chain[0].records + [buffer]));
      assert disk.files[file := disk.files[file]] == disk.files;
      pending := pending + buffer;
      chain := Append(chain, buffer);
    }

    /** Appends one formatted buffer; `failed` are the renames that fail should it
        rotate, `spilled` the bytes the stream lets through afterwards. */
    method Write(buffer: string, failed: set<nat>, spilled: nat)
      requires Valid()
      modifies this`pending, this`chain, disk
      ensures Valid()
      ensures View() == Step(old(View()), Rotation.Write(buffer, failed, spilled))
      ensures OthersSame(old(disk.files), disk.files, file, maxFiles + 1)
      ensures file in old(disk.files) && file in disk.files
      // below the limit the active file grows by the buffer, and no other file changes
      ensures old(|disk.files[file]|) + |buffer| < maxFileSize ==>
        && disk.files[file] + pending == old(disk.files[file] + pending) + buffer
        && disk.files.Keys == old(disk.files.Keys)
        && forall name | name in disk.files && name != file :: disk.files[name] == old(disk.files)[name]
      // otherwise, unless its rename fails, it becomes the first archive
      ensures old(|disk.files[file]|) + |buffer| >= maxFileSize && maxFiles > 0 && 1 !in failed ==>
        && disk.files[file] + pending == buffer
        && file + ".1" in disk.files && disk.files[file + ".1"] == old(disk.files[file] + pending)
    {
      assert SlotMatches(disk.files, file, pending, chain, 0) && NameOf(file, 0) == file;
      var currentSize := if file in disk.files then |disk.files[file]| else 0;
      if currentSize + |buffer| >= maxFileSize {
        if maxFiles > 0 { FullWrite(View(), buffer, failed, spilled); }
        Rotate(failed);
        assert SlotMatches(disk.files, file, pending, chain, 0);
      }
      StreamWrite(buffer);
      Spill(spilled);
      if maxFiles > 0 { FirstTwo(buffer); }
    }

    /** The active file and the first archive in bytes. */
    lemma FirstTwo(buffer: string)
      requires Valid() && maxFiles > 0
      ensures chain[0] == Holds([buffer]) && file in disk.files ==> disk.files[file] + pending == buffer
      ensures file + ".1" in disk.files <==> chain[1].Holds?
      ensures file + ".1" in disk.files ==> disk.files[file + ".1"] == Bytes(RecordsOf(chain[1]))
    {
      assert SlotMatches(disk.files, file, pending, chain, 0) && SlotMatches(disk.files, file, pending, chain, 1);
      assert NameOf(file, 0) == file && NameOf(file, 1) == file + ".1";
      BytesSnoc([], buffer);
      assert [] + [buffer] == [buffer];
    }

    /** Any sequence of writes and flushes is the model's run over it, and the files
        read oldest to newest, then the stream buffer, are what that run retains. */
    method WriteAll(ops: seq<Op>)
      requires Valid()
      modifies this`pending, this`chain, disk
      ensures Valid() && View() == Run(old(View()), ops)
      ensures OthersSame(old(disk.files), disk.files, file, maxFiles + 1)
      ensures JoinFiles(disk.files, file, pending, 0, maxFiles + 1) == Bytes(Read(Run(old(View()), ops).chain))
    {
      for i := 0 to |ops|
        invariant Valid() && Run(View(), ops[i..]) == Run(old(View()), ops)
        invariant OthersSame(old(disk.files), disk.files, file, maxFiles + 1)
      {
        assert ops[i..][0] == ops[i] && ops[i..][1..] == ops[i + 1..];
        match ops[i] {
          case Write(record, failed, spilled) => Write(record, failed, spilled);
          case Flush => Flush();
        }
      }
      JoinFilesReads(disk.files, file, pending, chain, 0);
      assert chain[0..] == chain;
    }

    method Flush()
      requires Valid()
      modifies this`pending, disk
      ensures Valid() && View() == Step(old(View()), Rotation.Flush) && pending == ""
      ensures file in disk.files && disk.files[file] == Bytes(RecordsOf(chain[0]))
      ensures OthersSame(old(disk.files), disk.files, file, maxFiles + 1)
    {
      Spill(|pending|);
      assert SlotMatches(disk.files, file, pending, chain, 0) && NameOf(file, 0) == file;
    }
  }

  function FromDisk(files: map<string, string>, name: string): Slot {
    if name !in files then Absent else if files[name] == "" then Holds([]) else Holds([files[name]])
  }
}
