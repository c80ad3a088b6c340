/**
  The rotating file sink as a chain of slots: slot 0 is the active file, slot i
  is `file.i`. Contents are lists of whole records; `RotatingSinks` ties them to
  bytes and file names.
 */
module Rotation {

  datatype Slot = Absent | Holds(records: seq<string>)

  type Chain = seq<Slot>

  function RecordsOf(s: Slot): seq<string> {
    match s
    case Absent => []
    case Holds(records) => records
  }

  /** Everything retained, oldest record first. */
  function Read(c: Chain): seq<string> {
    if c == [] then [] else Read(c[1..]) + RecordsOf(c[0])
  }

  function Size(records: seq<string>): nat {
    if records == [] then 0 else Size(records[..|records| - 1]) + |records[|records| - 1]|
  }

  /** Renaming slot i-1 over slot i; nothing happens when the source is missing,
      and an error is swallowed. */
  function Rename(c: Chain, i: nat, ok: bool): (c': Chain)
    requires 0 < i < |c|
    ensures |c'| == |c|
  {
    if !ok || c[i - 1].Absent? then c else c[i := c[i - 1]][i - 1 := Absent]
  }

  /** The descending loop from i to 1; `failed` are the renames that fail. */
  function Shift(c: Chain, i: nat, failed: set<nat>): (c': Chain)
    requires i < |c|
    ensures |c'| == |c|
    decreases i
  {
    if i == 0 then c else Shift(Rename(c, i, i !in failed), i - 1, failed)
  }

  /** Opening for append creates the active file when it is missing. */
  function Reopen(c: Chain): Chain
    requires c != []
  {
    if c[0].Absent? then c[0 := Holds([])] else c
  }

  function Rotate(c: Chain, failed: set<nat>): (c': Chain)
    requires c != []
    ensures |c'| == |c| && c'[0].Holds?
  {
    Reopen(Shift(c, |c| - 1, failed))
  }

  function Append(c: Chain, r: string): Chain
    requires c != []
  {
    c[0 := Holds(RecordsOf(c[0]) + [r])]
  }

  /** `hidden` counts bytes of the active file still in the stream's buffer, which
      `file_size` does not see. */
  datatype State = State(chain: Chain, hidden: nat, maxSize: nat)

  /** `spilled` says how much of the stream buffer reached the disk by itself. */
  datatype Op = Write(record: string, failed: set<nat>, spilled: nat) | Flush

  predicate MustRotate(s: State, r: string)
    requires s.chain != []
  {
    Size(RecordsOf(s.chain[0])) - s.hidden + |r| >= s.maxSize
  }

  function Step(s: State, op: Op): (s': State)
    requires s.chain != []
    ensures |s'.chain| == |s.chain| && s'.maxSize == s.maxSize
  {
    match op
    case Flush => s.(hidden := 0)
    case Write(r, failed, spilled) =>
      var rotates := MustRotate(s, r);
      var c := if rotates then Rotate(s.chain, failed) else s.chain;
      var waiting := (if rotates then 0 else s.hidden) + |r|;
      State(Append(c, r), if spilled <= waiting then waiting - spilled else 0, s.maxSize)
  }

  function Run(s: State, ops: seq<Op>): (s': State)
    requires s.chain != []
    ensures |s'.chain| == |s.chain| && s'.maxSize == s.maxSize
    decreases |ops|
  {
    if ops == [] then s else Run(Step(s, ops[0]), ops[1..])
  }

  function Written(ops: seq<Op>): seq<string> {
    if ops == [] then []
    else (if ops[0].Write? then [ops[0].record] else []) + Written(ops[1..])
  }

  /** No rename but those in f ever fails. */
  ghost predicate FailuresWithin(ops: seq<Op>, f: set<nat>) {
    forall i | 0 <= i < |ops| :: ops[i].Write? ==> ops[i].failed <= f
  }

  ghost predicate RenamesSucceed(ops: seq<Op>) { FailuresWithin(ops, {}) }

  /** In a chain of n slots the renames of archives succeed; that of the active file,
      number 1, may fail. */
  predicate ArchivesMove(failed: set<nat>, n: nat) {
    forall i | 2 <= i < n :: i !in failed
  }

  // ----- reading a chain -----

  lemma Associative(a: seq<string>, b: seq<string>, c: seq<string>)
    ensures (a + b) + c == a + (b + c)
  {}

  lemma {:induction false} ReadSplit(a: Chain, b: Chain)
    ensures Read(a + b) == Read(b) + Read(a)
  {
    if a == [] {
      assert a + b == b;
    } else {
      calc {
        Read(a + b);
      == { assert (a + b)[0] == a[0] && (a + b)[1..] == a[1..] + b; }
        Read(a[1..] + b) + RecordsOf(a[0]);
      == { ReadSplit(a[1..], b); }
        (Read(b) + Read(a[1..])) + RecordsOf(a[0]);
      == { Associative(Read(b), Read(a[1..]), RecordsOf(a[0])); }
        Read(b) + Read(a);
      }
    }
  }

  lemma ReadPair(young: Slot, aged: Slot)
    ensures Read([young, aged]) == RecordsOf(aged) + RecordsOf(young)
  {
    assert Read([young, aged]) == Read([aged]) + RecordsOf(young);
    assert Read([aged]) == Read([]) + RecordsOf(aged);
  }

  lemma CutAround(c: Chain, i: nat)
    requires 0 < i < |c|
    ensures c == c[..i - 1] + ([c[i - 1], c[i]] + c[i + 1..])
  {}

  lemma ReadAround(c: Chain, i: nat)
    requires 0 < i < |c|
    ensures Read(c) == Read(c[i + 1..]) + RecordsOf(c[i]) + (RecordsOf(c[i - 1]) + Read(c[..i - 1]))
  {
    var young, pair, aged := c[..i - 1], [c[i - 1], c[i]], c[i + 1..];
    CutAround(c, i);
    ReadSplit(young, pair + aged);
    ReadSplit(pair, aged);
    ReadPair(c[i - 1], c[i]);
    Reassociate(Read(aged), RecordsOf(c[i]), RecordsOf(c[i - 1]), Read(young));
  }

  lemma Reassociate(a: seq<string>, b: seq<string>, c: seq<string>, d: seq<string>)
    ensures a + (b + c) + d == a + b + (c + d)
  {}

  lemma ReadAppend(c: Chain, r: string)
    requires c != []
    ensures Read(Append(c, r)) == Read(c) + [r]
  {
    assert Append(c, r)[1..] == c[1..];
  }

  lemma ReadReopen(c: Chain)
    requires c != []
    ensures Read(Reopen(c)) == Read(c)
  {
    assert Reopen(c)[1..] == c[1..];
  }

  // ----- any renames may fail: an ordered part of the stream survives -----

  /** `a` is obtained from `b` by deleting elements. */
  ghost predicate Sub(a: seq<string>, b: seq<string>) {
    a == [] || (b != [] && ((a[0] == b[0] && Sub(a[1..], b[1..])) || Sub(a, b[1..])))
  }

  lemma {:induction false} SubSelf(a: seq<string>)
    ensures Sub(a, a)
  {
    if a != [] { SubSelf(a[1..]); }
  }

  lemma {:induction false} SubTransitive(a: seq<string>, b: seq<string>, c: seq<string>)
    requires Sub(a, b) && Sub(b, c)
    ensures Sub(a, c)
    decreases |b| + |c|
  {
    if a != [] {
      if b[0] == c[0] && Sub(b[1..], c[1..]) {
        if a[0] == b[0] && Sub(a[1..], b[1..]) {
          SubTransitive(a[1..], b[1..], c[1..]);
        } else {
          SubTransitive(a, b[1..], c[1..]);
        }
      } else {
        SubTransitive(a, b, c[1..]);
      }
    }
  }

  lemma {:induction false} SubPrefix(p: seq<string>, a: seq<string>, b: seq<string>)
    requires Sub(a, b)
    ensures Sub(p + a, p + b)
  {
    if p == [] {
      assert p + a == a && p + b == b;
    } else {
      SubPrefix(p[1..], a, b);
      assert (p + a)[1..] == p[1..] + a && (p + b)[1..] == p[1..] + b;
    }
  }

  lemma {:induction false} SubSkip(y: seq<string>, z: seq<string>)
    ensures Sub(z, y + z)
  {
    if y == [] {
      assert y + z == z;
      SubSelf(z);
    } else {
      SubSkip(y[1..], z);
      assert (y + z)[1..] == y[1..] + z;
    }
  }

  lemma {:induction false} SubSuffix(a: seq<string>, b: seq<string>, z: seq<string>)
    requires Sub(a, b)
    ensures Sub(a + z, b + z)
  {
    if a == [] {
      assert a + z == z;
      SubSkip(b, z);
    } else {
      assert (b + z)[1..] == b[1..] + z;
      if a[0] == b[0] && Sub(a[1..], b[1..]) {
        SubSuffix(a[1..], b[1..], z);
        assert (a + z)[1..] == a[1..] + z;
      } else {
        SubSuffix(a, b[1..], z);
      }
    }
  }

  lemma SubWithoutMiddle(x: seq<string>, y: seq<string>, z: seq<string>)
    ensures Sub(x + z, x + y + z)
  {
    SubSkip(y, z);
    SubPrefix(x, z, y + z);
    assert x + (y + z) == x + y + z;
  }

  lemma ReadAfterRename(c: Chain, i: nat)
    requires 0 < i < |c| && c[i - 1].Holds?
    ensures Read(Rename(c, i, true)) == Read(c[i + 1..]) + (RecordsOf(c[i - 1]) + Read(c[..i - 1]))
  {
    var c' := Rename(c, i, true);
    ReadAround(c', i);
    assert c'[i + 1..] == c[i + 1..] && c'[..i - 1] == c[..i - 1];
    assert RecordsOf(c'[i - 1]) + Read(c'[..i - 1]) == Read(c[..i - 1]);
    Associative(Read(c[i + 1..]), RecordsOf(c[i - 1]), Read(c[..i - 1]));
  }

  lemma RenameKeepsOrder(c: Chain, i: nat, ok: bool)
    requires 0 < i < |c|
    ensures Sub(Read(Rename(c, i, ok)), Read(c))
  {
    if !ok || c[i - 1].Absent? {
      SubSelf(Read(c));
    } else {
      ReadAround(c, i);
      ReadAfterRename(c, i);
      SubWithoutMiddle(Read(c[i + 1..]), RecordsOf(c[i]), RecordsOf(c[i - 1]) + Read(c[..i - 1]));
    }
  }

  lemma {:induction false} ShiftKeepsOrder(c: Chain, i: nat, failed: set<nat>)
    requires i < |c|
    ensures Sub(Read(Shift(c, i, failed)), Read(c))
    decreases i
  {
    if i == 0 {
      SubSelf(Read(c));
    } else {
      var c' := Rename(c, i, i !in failed);
      RenameKeepsOrder(c, i, i !in failed);
      ShiftKeepsOrder(c', i - 1, failed);
      SubTransitive(Read(Shift(c', i - 1, failed)), Read(c'), Read(c));
    }
  }

  lemma StepKeepsOrder(s: State, op: Op)
    requires s.chain != []
    ensures Sub(Read(Step(s, op).chain), Read(s.chain) + Written([op]))
  {
    assert Written([op]) == (if op.Write? then [op.record] else []) + Written([]);
    match op {
      case Flush =>
        assert Written([op]) == [];
        assert Read(s.chain) + [] == Read(s.chain);
        SubSelf(Read(s.chain));
      case Write(r, failed, spilled) =>
        assert Written([op]) == [r];
        var c := if MustRotate(s, r) then Rotate(s.chain, failed) else s.chain;
        ReadAppend(c, r);
        if MustRotate(s, r) {
          ShiftKeepsOrder(s.chain, |s.chain| - 1, failed);
          ReadReopen(Shift(s.chain, |s.chain| - 1, failed));
        } else {
          SubSelf(Read(s.chain));
        }
        SubSuffix(Read(c), Read(s.chain), [r]);
    }
  }

  lemma SubThen(last: seq<string>, mid: seq<string>, first: seq<string>, w: seq<string>, ws: seq<string>)
    requires Sub(mid, first + w) && Sub(last, mid + ws)
    ensures Sub(last, first + (w + ws))
  {
    SubSuffix(mid, first + w, ws);
    assert first + w + ws == first + (w + ws);
    SubTransitive(last, mid + ws, first + (w + ws));
  }

  /** Whatever renames fail and whatever gaps the chain starts with, what is
      retained is the initial contents followed by the stream with some records
      deleted: nothing is duplicated, nothing is reordered. */
  lemma {:induction false} FailingRenamesKeepOrder(s: State, ops: seq<Op>)
    requires s.chain != []
    ensures Sub(Read(Run(s, ops).chain), Read(s.chain) + Written(ops))
    decreases |ops|
  {
    if ops == [] {
      assert Read(s.chain) + [] == Read(s.chain);
      SubSelf(Read(s.chain));
    } else {
      var s1 := Step(s, ops[0]);
      FailingRenamesKeepOrder(s1, ops[1..]);
      StepKeepsOrder(s, ops[0]);
      WrittenCons(ops);
      SubThen(Read(Run(s, ops).chain), Read(s1.chain), Read(s.chain), Written([ops[0]]), Written(ops[1..]));
    }
  }

  // ----- archives move: a suffix of the stream survives -----

  /** From a missing file downwards the renames overwrite nothing. */
  lemma {:induction false} ShiftOntoGapReads(c: Chain, i: nat, failed: set<nat>)
    requires i < |c| && (i == 0 || c[i].Absent?) && ArchivesMove(failed, i + 1)
    ensures Read(Shift(c, i, failed)) == Read(c)
    decreases i
  {
    if i > 0 {
      if i !in failed && c[i - 1].Holds? {
        ReadAround(c, i);
        ReadAfterRename(c, i);
        assert Read(c[i + 1..]) + [] == Read(c[i + 1..]);
        ShiftOntoGapReads(Rename(c, i, true), i - 1, failed);
      } else {
        ShiftOntoGapReads(c, i - 1, failed);
      }
    }
  }

  /** The last archive is overwritten when the file before it exists and is renamed. */
  predicate Overwrites(c: Chain, failed: set<nat>) {
    |c| > 1 && c[|c| - 2].Holds? && (|c| - 1) as nat !in failed
  }

  lemma ReadOne(s: Slot)
    ensures Read([s]) == RecordsOf(s)
  {
    assert Read([s]) == Read([]) + RecordsOf(s);
  }

  lemma ReadLast(c: Chain)
    requires c != []
    ensures Read(c) == RecordsOf(c[|c| - 1]) + Read(c[..|c| - 1])
  {
    var young, last := c[..|c| - 1], c[|c| - 1];
    assert c == young + [last];
    ReadSplit(young, [last]);
    ReadOne(last);
  }

  lemma OverwritingCutsFront(c: Chain)
    requires |c| > 1 && c[|c| - 2].Holds?
    ensures var c' := Rename(c, |c| - 1, true);
      c'[|c| - 2].Absent? && Read(c) == RecordsOf(c[|c| - 1]) + Read(c')
  {
    var n := |c|;
    ReadLast(c);
    ReadLast(c[..n - 1]);
    assert c[..n - 1][n - 2] == c[n - 2] && c[..n - 1][..n - 2] == c[..n - 2];
    ReadAfterRename(c, n - 1);
    assert Read(c[n..]) == [];
    assert [] + (RecordsOf(c[n - 2]) + Read(c[..n - 2])) == RecordsOf(c[n - 2]) + Read(c[..n - 2]);
  }

  /** A rotation cuts exactly the overwritten archive's records off the front. */
  lemma RotateCutsFront(c: Chain, failed: set<nat>)
    requires c != [] && ArchivesMove(failed, |c|)
    ensures var d := if Overwrites(c, failed) then |RecordsOf(c[|c| - 1])| else 0;
      d <= |Read(c)| && Read(Rotate(c, failed)) == Read(c)[d..]
  {
    var n := |c|;
    ReadReopen(Shift(c, n - 1, failed));
    if Overwrites(c, failed) {
      OverwritingCutsFront(c);
      ShiftOntoGapReads(Rename(c, n - 1, true), n - 2, failed);
    } else if n > 1 {
      ShiftOntoGapReads(c, n - 2, failed);
    }
  }

  /** Records dropped by one step: those of the last archive, when it is overwritten. */
  function Dropped(s: State, op: Op): nat
    requires s.chain != []
  {
    if op.Write? && MustRotate(s, op.record) && Overwrites(s.chain, op.failed)
    then |RecordsOf(s.chain[|s.chain| - 1])| else 0
  }

  function Lost(s: State, ops: seq<Op>): nat
    requires s.chain != []
    decreases |ops|
  {
    if ops == [] then 0 else Dropped(s, ops[0]) + Lost(Step(s, ops[0]), ops[1..])
  }

  lemma StepCutsFront(s: State, op: Op)
    requires s.chain != []
    requires op.Write? ==> ArchivesMove(op.failed, |s.chain|)
    ensures Dropped(s, op) <= |Read(s.chain)|
    ensures Read(Step(s, op).chain) == Read(s.chain)[Dropped(s, op)..] + Written([op])
  {
    WrittenCons([op]);
    if op.Write? {
      if MustRotate(s, op.record) {
        RotateCutsFront(s.chain, op.failed);
        ReadAppend(Rotate(s.chain, op.failed), op.record);
      } else {
        ReadAppend(s.chain, op.record);
      }
    }
  }

  lemma CutTwice(a: seq<string>, w: seq<string>, ws: seq<string>, d: nat, l: nat)
    requires d <= |a| && l <= |a[d..] + w + ws|
    ensures d + l <= |a + (w + ws)|
    ensures (a[d..] + w + ws)[l..] == (a + (w + ws))[d + l..]
  {
    assert a[d..] + w + ws == (a + (w + ws))[d..];
  }

  lemma WrittenCons(ops: seq<Op>)
    requires ops != []
    ensures Written(ops) == Written([ops[0]]) + Written(ops[1..])
    ensures Written([ops[0]]) == if ops[0].Write? then [ops[0].record] else []
  {
    assert Written([ops[0]]) == (if ops[0].Write? then [ops[0].record] else []) + Written([]);
  }

  /** From any chain, gaps included, while no rename of an archive fails: what is
      retained is exactly the initial contents and the stream with a prefix of whole
      records cut off; the cut grows only when a rotation overwrites the last archive,
      by that archive's records. */
  lemma {:induction false} RotationConserves(s: State, ops: seq<Op>, f: set<nat>)
    requires s.chain != [] && FailuresWithin(ops, f) && ArchivesMove(f, |s.chain|)
    ensures Lost(s, ops) <= |Read(s.chain) + Written(ops)|
    ensures Read(Run(s, ops).chain) == (Read(s.chain) + Written(ops))[Lost(s, ops)..]
    decreases |ops|
  {
    if ops != [] {
      var s1, d, l := Step(s, ops[0]), Dropped(s, ops[0]), Lost(Step(s, ops[0]), ops[1..]);
      StepCutsFront(s, ops[0]);
      RotationConserves(s1, ops[1..], f);
      WrittenCons(ops);
      assert Lost(s, ops) == d + l;
      var before, w, ws := Read(s.chain), Written([ops[0]]), Written(ops[1..]);
      assert Read(s1.chain) == before[d..] + w;
      CutTwice(before, w, ws, d, l);
    }
  }

  /** With no archives the active file keeps everything, however large. */
  lemma {:induction false} SingleFileKeepsEverything(s: State, ops: seq<Op>)
    requires |s.chain| == 1 && s.chain[0].Holds?
    ensures Run(s, ops).chain == [Holds(RecordsOf(s.chain[0]) + Written(ops))]
    decreases |ops|
  {
    if ops != [] {
      var s1 := Step(s, ops[0]);
      assert s.chain == [s.chain[0]] && Rotate(s.chain, {}) == s.chain;
      assert s1.chain == [Holds(RecordsOf(s.chain[0]) + Written([ops[0]]))] by { WrittenCons(ops); }
      SingleFileKeepsEverything(s1, ops[1..]);
      WrittenCons(ops);
      assert RecordsOf(s.chain[0]) + Written([ops[0]]) + Written(ops[1..]) == RecordsOf(s.chain[0]) + Written(ops);
    } else {
      assert RecordsOf(s.chain[0]) + [] == RecordsOf(s.chain[0]);
    }
  }

  // ----- what a rotation makes of each slot -----

  /** Where the active file and the slot after it end up. */
  function Head(active: Slot, failed: set<nat>): Chain {
    if 1 in failed then [active, Absent] else [Absent, active]
  }

  lemma {:induction false} ShiftOntoGap(c: Chain, i: nat, failed: set<nat>)
    requires 0 < i < |c| && c[0].Holds? && c[i].Absent? && ArchivesMove(failed, i + 1)
    ensures Shift(c, i, failed) == Head(c[0], failed) + c[1..i] + c[i + 1..]
    decreases i
  {
    var c' := Rename(c, i, i !in failed);
    if i == 1 {
      assert Shift(c', 0, failed) == c';
    } else {
      ShiftOntoGap(c', i - 1, failed);
      assert c'[1..i - 1] == c[1..i - 1];
      assert c'[i..] == [c[i - 1]] + c[i + 1..];
      assert c[1..i] == c[1..i - 1] + [c[i - 1]];
    }
  }

  /** What the last slot holds after a rotation. */
  function LastAfter(c: Chain): Slot
    requires |c| > 1
  {
    if c[|c| - 2].Holds? then c[|c| - 2] else c[|c| - 1]
  }

  lemma ShiftForm(c: Chain, failed: set<nat>)
    requires |c| > 2 && c[0].Holds? && ArchivesMove(failed, |c|)
    ensures Shift(c, |c| - 1, failed) == Head(c[0], failed) + c[1..|c| - 2] + [LastAfter(c)]
  {
    var n := |c|;
    var c' := Rename(c, n - 1, true);
    ShiftOntoGap(c', n - 2, failed);
    assert c'[1..n - 2] == c[1..n - 2] && c'[n - 1..] == [LastAfter(c)];
  }

  /** The active file and the slot after it, once a record was appended. */
  function Front(active: Slot, failed: set<nat>, r: string): Chain {
    if 1 in failed then [Holds(RecordsOf(active) + [r]), Absent] else [Holds([r]), active]
  }

  /** A rotation and the write that caused it move every archive one place; a missing
      file before the last is closed up. */
  lemma RotateForm(c: Chain, failed: set<nat>, r: string)
    requires |c| > 2 && c[0].Holds? && ArchivesMove(failed, |c|)
    ensures Append(Rotate(c, failed), r) == Front(c[0], failed, r) + c[1..|c| - 2] + [LastAfter(c)]
  {
    ShiftForm(c, failed);
    var shifted := Shift(c, |c| - 1, failed);
    assert [] + [r] == [r];
    assert shifted[0] == Head(c[0], failed)[0] && shifted[1] == Head(c[0], failed)[1];
    assert shifted[2..] == c[1..|c| - 2] + [LastAfter(c)];
    var appended := Append(Rotate(c, failed), r);
    assert appended[..2] == Front(c[0], failed, r) && appended[2..] == shifted[2..];
  }

  lemma RotateTwo(c: Chain, failed: set<nat>, r: string)
    requires |c| == 2 && c[0].Holds?
    ensures Append(Rotate(c, failed), r)
         == if 1 in failed then [Holds(RecordsOf(c[0]) + [r]), c[1]] else [Holds([r]), c[0]]
  {
    assert [] + [r] == [r];
    assert Shift(c, 1, failed) == Shift(Rename(c, 1, 1 !in failed), 0, failed);
  }
}
