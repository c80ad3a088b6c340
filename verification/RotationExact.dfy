/** Exactly when rotation keeps enough records, and exactly when it keeps files small:
    for every chain, gaps included, and for every set of renames that may fail. */
module RotationExact {
  import opened Rotation

  // ----- how much is retained -----

  /** All records are kept, or at least as many of the newest as there are slots. */
  ghost predicate Retains(s: State, ops: seq<Op>)
    requires s.chain != []
  {
    var all, kept := Read(s.chain) + Written(ops), Read(Run(s, ops).chain);
    kept == all || (|s.chain| <= |kept| <= |all| && kept == all[|all| - |kept|..])
  }

  /** Every file behind which there are older records holds, with the younger ones, at
      least as many records as it has files in front of it and itself. */
  ghost predicate Backed(c: Chain) {
    forall j: nat | j < |c| :: BackedAt(c, j)
  }

  ghost predicate BackedAt(c: Chain, j: nat)
    requires j < |c|
  {
    c[j].Holds? && |Read(c[j + 1..])| > 0 ==> |Read(c[..j + 1])| >= j + 1
  }

  lemma ReadLengths(c: Chain, t: nat)
    requires t <= |c|
    ensures |Read(c)| == |Read(c[..t])| + |Read(c[t..])|
  {
    assert c == c[..t] + c[t..];
    ReadSplit(c[..t], c[t..]);
  }

  lemma AppendKeepsBacked(c: Chain, r: string)
    requires c != [] && Backed(c) && c[0].Holds?
    ensures Backed(Append(c, r))
  {
    var c' := Append(c, r);
    forall j: nat | j < |c'| ensures BackedAt(c', j) {
      assert BackedAt(c, j);
      assert c'[j + 1..] == c[j + 1..];
      assert c'[..j + 1] == Append(c[..j + 1], r);
      ReadAppend(c[..j + 1], r);
    }
  }

  lemma FrontReads(active: Slot, failed: set<nat>, r: string, rest: Chain)
    ensures |Read(Front(active, failed, r) + rest)| == |RecordsOf(active)| + 1 + |Read(rest)|
  {
    var front := Front(active, failed, r);
    ReadSplit(front, rest);
    ReadPair(front[0], front[1]);
  }

  lemma CutLastTwo(c: Chain, j: nat)
    requires j <= |c| - 2
    ensures c[j..] == c[j..|c| - 2] + [c[|c| - 2], c[|c| - 1]]
  {}

  lemma TailShrinks(c: Chain, j: nat)
    requires j <= |c| - 2
    ensures |Read(c[j..|c| - 2] + [LastAfter(c)])| <= |Read(c[j..])|
  {
    var m, y, z := c[j..|c| - 2], c[|c| - 2], c[|c| - 1];
    CutLastTwo(c, j);
    ReadSplit(m, [LastAfter(c)]);
    ReadSplit(m, [y, z]);
    ReadOne(LastAfter(c));
    ReadPair(y, z);
  }

  lemma ReadFirst(c: Chain)
    requires c != []
    ensures |Read(c)| == |RecordsOf(c[0])| + |Read(c[1..])|
  {}

  lemma MovedSlices(c: Chain, c': Chain, front: Chain, last: Slot, j: nat)
    requires |front| == 2 && j + 3 <= |c| && c' == front + c[1..|c| - 2] + [last]
    ensures c'[..j + 2] == front + c[1..j + 1] && c'[j + 2..] == c[j + 1..|c| - 2] + [last]
    ensures j > 0 ==> c'[j + 1] == c[j]
  {}

  /** Slot j + 1 after a rotation: what was in slot j and in front of it, one more record. */
  lemma MovedOn(c: Chain, failed: set<nat>, r: string, j: nat)
    requires |c| > 2 && c[0].Holds? && ArchivesMove(failed, |c|) && j + 1 < |c| - 1
    ensures var c' := Append(Rotate(c, failed), r);
      && (c'[j + 1].Holds? ==> c[j].Holds?)
      && |Read(c'[..j + 2])| == 1 + |Read(c[..j + 1])|
      && |Read(c'[j + 2..])| <= |Read(c[j + 1..])|
  {
    RotateForm(c, failed, r);
    MovedSlices(c, Append(Rotate(c, failed), r), Front(c[0], failed, r), LastAfter(c), j);
    FrontReads(c[0], failed, r, c[1..j + 1]);
    ReadFirst(c[..j + 1]);
    assert c[..j + 1][1..] == c[1..j + 1];
    TailShrinks(c, j + 1);
  }

  lemma RotateKeepsBacked(c: Chain, failed: set<nat>, r: string)
    requires |c| > 1 && c[0].Holds? && Backed(c) && ArchivesMove(failed, |c|)
    ensures Backed(Append(Rotate(c, failed), r))
  {
    var c' := Append(Rotate(c, failed), r);
    if |c| == 2 { RotateTwo(c, failed, r); }
    forall j: nat | j < |c'| ensures BackedAt(c', j) {
      if j == 0 {
        assert c'[..1] == [c'[0]];
        ReadOne(c'[0]);
      } else if j == |c'| - 1 {
        assert c'[j + 1..] == [];
      } else {
        assert BackedAt(c, j - 1);
        MovedOn(c, failed, r, j - 1);
      }
    }
  }

  /** When the last archive is overwritten there are enough records without it. */
  lemma OverwritingLeavesEnough(c: Chain, failed: set<nat>)
    requires c != [] && Backed(c) && ArchivesMove(failed, |c|) && Overwrites(c, failed)
    requires RecordsOf(c[|c| - 1]) != []
    ensures |Read(Rotate(c, failed))| + 1 >= |c|
  {
    var n := |c|;
    RotateCutsFront(c, failed);
    assert BackedAt(c, n - 2);
    assert c[n - 1..] == [c[n - 1]];
    ReadOne(c[n - 1]);
    ReadLast(c);
  }

  lemma StepKeepsBacked(s: State, op: Op)
    requires |s.chain| > 1 && s.chain[0].Holds? && Backed(s.chain)
    requires op.Write? ==> ArchivesMove(op.failed, |s.chain|)
    ensures Step(s, op).chain[0].Holds? && Backed(Step(s, op).chain)
    ensures Dropped(s, op) > 0 ==> |Read(Step(s, op).chain)| >= |s.chain|
  {
    if op.Write? {
      if MustRotate(s, op.record) {
        RotateKeepsBacked(s.chain, op.failed, op.record);
        ReadAppend(Rotate(s.chain, op.failed), op.record);
        if Dropped(s, op) > 0 { OverwritingLeavesEnough(s.chain, op.failed); }
      } else {
        AppendKeepsBacked(s.chain, op.record);
      }
    }
  }

  lemma {:induction false} LossMeansEnough(s: State, ops: seq<Op>, f: set<nat>)
    requires |s.chain| > 1 && s.chain[0].Holds? && Backed(s.chain)
    requires FailuresWithin(ops, f) && ArchivesMove(f, |s.chain|)
    ensures Lost(s, ops) > 0 || |Read(s.chain)| >= |s.chain| ==> |Read(Run(s, ops).chain)| >= |s.chain|
    decreases |ops|
  {
    if ops != [] {
      StepKeepsBacked(s, ops[0]);
      StepCutsFront(s, ops[0]);
      LossMeansEnough(Step(s, ops[0]), ops[1..], f);
    }
  }

  /** From a backed chain, while no rename of an archive fails: with `max_files` archives
      the newest `max_files + 1` records are always there (all of them while there are
      fewer). */
  lemma NewestRetained(s: State, ops: seq<Op>, f: set<nat>)
    requires s.chain != [] && s.chain[0].Holds? && Backed(s.chain)
    requires FailuresWithin(ops, f) && ArchivesMove(f, |s.chain|)
    ensures Retains(s, ops)
  {
    if |s.chain| == 1 {
      SingleFileKeepsEverything(s, ops);
      assert s.chain == [s.chain[0]];
      ReadOne(s.chain[0]);
      ReadOne(Run(s, ops).chain[0]);
    } else {
      RotationConserves(s, ops, f);
      LossMeansEnough(s, ops, f);
    }
  }

  // ----- otherwise records go missing -----

  /** A record too large to share the active file. */
  function LargeRecord(s: State, c: char): (r: string)
    ensures |r| == s.maxSize + s.hidden + 1 && r[0] == c
  {
    seq(s.maxSize + s.hidden + 1, i => c)
  }

  function LargeWrites(r: string, m: nat): seq<Op> {
    if m == 0 then [] else [Write(r, {}, |r|)] + LargeWrites(r, m - 1)
  }

  ghost predicate Large(s: State, r: string) { |r| >= s.maxSize + s.hidden }

  lemma LargeWriteRotates(s: State, r: string, failed: set<nat>)
    requires s.chain != [] && Large(s, r)
    ensures var s1 := Step(s, Write(r, failed, |r|));
      s1 == State(Append(Rotate(s.chain, failed), r), 0, s.maxSize)
  {}

  /** After a rotation without errors, file j is one place further, with what was in
      front of it and the new record. */
  lemma RotateMovesYoung(c: Chain, r: string, j: nat)
    requires |c| > 1 && c[0].Holds? && j + 1 < |c| && c[j].Holds?
    ensures var c' := Append(Rotate(c, {}), r);
      |c'| == |c| && c'[0].Holds? && c'[..j + 2] == [Holds([r])] + c[..j + 1]
  {
    var n := |c|;
    if n == 2 {
      RotateTwo(c, {}, r);
    } else {
      RotateForm(c, {}, r);
      var c' := Append(Rotate(c, {}), r);
      assert c' == [Holds([r])] + ([c[0]] + c[1..n - 2]) + [LastAfter(c)];
      assert [c[0]] + c[1..n - 2] == c[..n - 2];
      if j == n - 2 { assert c[..n - 1] == c[..n - 2] + [c[n - 2]]; }
    }
  }

  lemma ReadNew(r: string, c: Chain)
    ensures |Read([Holds([r])] + c)| == |Read(c)| + 1
  {
    assert ([Holds([r])] + c)[1..] == c;
  }

  /** The state after the first of m large writes. */
  lemma FirstLargeWrite(s: State, r: string, m: nat) returns (s1: State)
    requires s.chain != [] && m > 0 && Large(s, r)
    ensures s1 == State(Append(Rotate(s.chain, {}), r), 0, s.maxSize) && Large(s1, r)
    ensures Run(s, LargeWrites(r, m)) == Run(s1, LargeWrites(r, m - 1))
  {
    LargeWriteRotates(s, r, {});
    s1 := Step(s, Write(r, {}, |r|));
    assert LargeWrites(r, m)[1..] == LargeWrites(r, m - 1);
  }

  lemma LargeWriteLeaves(s: State, r: string, m: nat, j: nat) returns (s1: State)
    requires |s.chain| > 1 && s.chain[0].Holds? && m > 0 && Large(s, r)
    requires j + 1 < |s.chain| && s.chain[j].Holds?
    ensures |s1.chain| == |s.chain| && s1.chain[0].Holds? && Large(s1, r)
    ensures Run(s, LargeWrites(r, m)) == Run(s1, LargeWrites(r, m - 1))
    ensures s1.chain[j + 1].Holds? && |Read(s1.chain[..j + 2])| == 1 + |Read(s.chain[..j + 1])|
  {
    s1 := FirstLargeWrite(s, r, m);
    RotateMovesYoung(s.chain, r, j);
    assert s1.chain[j + 1] == s1.chain[..j + 2][j + 1] == s.chain[..j + 1][j];
    ReadNew(r, s.chain[..j + 1]);
  }

  /** m large writes push file j to the last place; only it and what is younger is left. */
  lemma {:induction false} LargeWritesLeave(s: State, r: string, m: nat, j: nat)
    requires |s.chain| > 1 && s.chain[0].Holds? && Large(s, r)
    requires m + j == |s.chain| - 1 && s.chain[j].Holds?
    ensures |Read(Run(s, LargeWrites(r, m)).chain)| == m + |Read(s.chain[..j + 1])|
    decreases m
  {
    if m == 0 {
      assert s.chain[..j + 1] == s.chain;
    } else {
      var s1 := LargeWriteLeaves(s, r, m, j);
      LargeWritesLeave(s1, r, m - 1, j + 1);
    }
  }

  lemma {:induction false} LargeWritesAre(r: string, m: nat)
    ensures RenamesSucceed(LargeWrites(r, m)) && |Written(LargeWrites(r, m))| == m
  {
    if m > 0 {
      LargeWritesAre(r, m - 1);
      assert LargeWrites(r, m)[1..] == LargeWrites(r, m - 1);
    }
  }

  lemma UnbackedLoses(s: State, j: nat) returns (ops: seq<Op>)
    requires |s.chain| > 1 && s.chain[0].Holds? && j < |s.chain| && !BackedAt(s.chain, j)
    ensures RenamesSucceed(ops) && !Retains(s, ops)
  {
    var r := LargeRecord(s, 'x');
    var m: nat := |s.chain| - 1 - j;
    ops := LargeWrites(r, m);
    LargeWritesAre(r, m);
    LargeWritesLeave(s, r, m, j);
    ReadLengths(s.chain, j + 1);
  }

  // ----- a failing rename of an archive loses a record from the middle -----

  lemma {:induction false} RunConcat(s: State, a: seq<Op>, b: seq<Op>)
    requires s.chain != []
    ensures Run(s, a + b) == Run(Run(s, a), b)
    decreases |a|
  {
    if a == [] {
      assert a + b == b;
    } else {
      RunConcat(Step(s, a[0]), a[1..], b);
      assert (a + b)[1..] == a[1..] + b;
    }
  }

  lemma {:induction false} WrittenConcat(a: seq<Op>, b: seq<Op>)
    ensures Written(a + b) == Written(a) + Written(b)
  {
    if a == [] {
      assert a + b == b;
    } else {
      WrittenConcat(a[1..], b);
      assert (a + b)[1..] == a[1..] + b;
    }
  }

  /** Every file exists, and none but the k-th holds y. */
  ghost predicate Marked(c: Chain, k: int, y: string) {
    forall i | 0 <= i < |c| :: c[i].Holds? && (i != k ==> y !in c[i].records)
  }

  /** The first p slots hold x alone. */
  ghost predicate Filled(c: Chain, p: nat, x: string) {
    p <= |c| && forall i | 0 <= i < p :: c[i] == Holds([x])
  }

  lemma LargeWriteFills(s: State, x: string, m: nat, p: nat) returns (s1: State)
    requires |s.chain| > 1 && s.chain[0].Holds? && Large(s, x) && m > 0
    requires Filled(s.chain, p, x) && p < |s.chain|
    ensures |s1.chain| == |s.chain| && s1.chain[0].Holds? && Large(s1, x) && s1.hidden == 0
    ensures Run(s, LargeWrites(x, m)) == Run(s1, LargeWrites(x, m - 1)) && Filled(s1.chain, p + 1, x)
  {
    s1 := FirstLargeWrite(s, x, m);
    var j: nat := if p == 0 then 0 else p - 1;
    RotateMovesYoung(s.chain, x, j);
    forall i | 0 <= i < p + 1 ensures s1.chain[i] == Holds([x]) {
      assert s1.chain[i] == s1.chain[..j + 2][i];
    }
  }

  lemma {:induction false} LargeWritesFill(s: State, x: string, m: nat, p: nat)
    requires |s.chain| > 1 && s.chain[0].Holds? && Large(s, x)
    requires Filled(s.chain, p, x) && m + p == |s.chain|
    ensures Filled(Run(s, LargeWrites(x, m)).chain, |s.chain|, x) && Run(s, LargeWrites(x, m)).hidden <= s.hidden
    decreases m
  {
    if m > 0 {
      var s1 := LargeWriteFills(s, x, m, p);
      LargeWritesFill(s1, x, m - 1, p + 1);
    }
  }

  /** One large write on a full chain pushes everything one place. */
  lemma FullPush(c: Chain, r: string)
    requires |c| > 1 && forall i | 0 <= i < |c| :: c[i].Holds?
    ensures Append(Rotate(c, {}), r) == [Holds([r])] + c[..|c| - 1]
  {
    RotateMovesYoung(c, r, |c| - 2);
    var c' := Append(Rotate(c, {}), r);
    assert c'[..|c|] == c';
  }

  lemma PushMarks(c: Chain, x: string, k: int, y: string)
    requires c != [] && Marked(c, k, y) && (x != y || k == -1)
    ensures Marked([Holds([x])] + c[..|c| - 1], k + 1, y)
  {
    var c' := [Holds([x])] + c[..|c| - 1];
    forall i | 0 <= i < |c'| ensures c'[i].Holds? && (i != k + 1 ==> y !in c'[i].records) {
      if i > 0 { assert c'[i] == c[i - 1]; }
    }
  }

  lemma LargeWriteCarries(s: State, x: string, k: nat, y: string, m: nat) returns (s1: State)
    requires |s.chain| > 1 && Marked(s.chain, k, y) && x != y && Large(s, x) && m > 0
    ensures |s1.chain| == |s.chain| && Marked(s1.chain, k + 1, y) && Large(s1, x) && s1.hidden == 0
    ensures Run(s, LargeWrites(x, m)) == Run(s1, LargeWrites(x, m - 1))
  {
    s1 := FirstLargeWrite(s, x, m);
    FullPush(s.chain, x);
    PushMarks(s.chain, x, k, y);
  }

  /** Large writes of x carry the y in slot k to slot t. */
  lemma {:induction false} LargeWritesCarry(s: State, x: string, k: nat, y: string, t: nat)
    requires |s.chain| > 1 && Marked(s.chain, k, y) && x != y && Large(s, x) && k <= t
    ensures var s' := Run(s, LargeWrites(x, t - k));
      Marked(s'.chain, t, y) && s'.hidden <= s.hidden
    decreases t - k
  {
    if k < t {
      var s1 := LargeWriteCarries(s, x, k, y, t - k);
      LargeWritesCarry(s1, x, k + 1, y, t);
    }
  }

  /** No slot holds y, except perhaps slot k. */
  ghost predicate OnlyIn(c: Chain, k: int, y: string) {
    forall i | 0 <= i < |c| && i != k :: y !in RecordsOf(c[i])
  }

  lemma {:induction false} ShiftStaysClean(c: Chain, i: nat, failed: set<nat>, y: string)
    requires i < |c| && OnlyIn(c, -1, y)
    ensures OnlyIn(Shift(c, i, failed), -1, y)
    decreases i
  {
    if i > 0 { ShiftStaysClean(Rename(c, i, i !in failed), i - 1, failed, y); }
  }

  /** When rename k + 1 fails, the file before slot k is moved over it. */
  lemma {:induction false} FailedRenameOverwrites(c: Chain, i: nat, k: nat, y: string)
    requires 0 < k < i < |c| && OnlyIn(c, k, y) && c[k - 1].Holds?
    ensures OnlyIn(Shift(c, i, {k + 1}), -1, y)
    decreases i
  {
    var failed := {k + 1};
    if i > k + 1 {
      FailedRenameOverwrites(Rename(c, i, true), i - 1, k, y);
    } else {
      assert Shift(c, i, failed) == Shift(c, k, failed) == Shift(Rename(c, k, true), k - 1, failed);
      ShiftStaysClean(Rename(c, k, true), k - 1, failed, y);
    }
  }

  lemma {:induction false} CleanReads(c: Chain, y: string)
    requires OnlyIn(c, -1, y)
    ensures y !in Read(c)
  {
    if c != [] {
      assert forall i | 0 <= i < |c[1..]| :: c[1..][i] == c[i + 1];
      CleanReads(c[1..], y);
    }
  }

  /** The run: fill the chain with x, write one y, carry it to slot k, then write once
      more while rename k + 1 fails. */
  function LosingRun(n: nat, k: nat, x: string, y: string): seq<Op> {
    LargeWrites(x, n) + [Write(y, {}, |y|)] + (LargeWrites(x, k) + [Write(x, {k + 1}, |x|)])
  }

  lemma LastStep(s: State, ops: seq<Op>, op: Op)
    requires s.chain != []
    ensures Run(s, ops + [op]) == Step(Run(s, ops), op)
  {
    RunConcat(s, ops, [op]);
    var s1 := Run(s, ops);
    assert [op][1..] == [] && Run(Step(s1, op), []) == Step(s1, op);
  }

  /** After n writes of x and one of y, y is in the active file alone. */
  lemma MarkReached(s: State, x: string, y: string) returns (s1: State)
    requires |s.chain| > 1 && s.chain[0].Holds? && Large(s, x) && Large(s, y)
    requires x != y
    ensures s1 == Run(s, LargeWrites(x, |s.chain|) + [Write(y, {}, |y|)])
    ensures |s1.chain| == |s.chain| && Marked(s1.chain, 0, y) && s1.hidden <= s.hidden && s1.maxSize == s.maxSize
  {
    var fill := LargeWrites(x, |s.chain|);
    LargeWritesFill(s, x, |s.chain|, 0);
    var sa := Run(s, fill);
    LargeWriteRotates(sa, y, {});
    FullPush(sa.chain, y);
    PushMarks(sa.chain, y, -1, y);
    LastStep(s, fill, Write(y, {}, |y|));
    s1 := Run(s, fill + [Write(y, {}, |y|)]);
  }

  /** After k more writes of x it is in slot k. */
  lemma MarkedChainReached(s: State, k: nat, x: string, y: string) returns (s1: State)
    requires |s.chain| > 1 && s.chain[0].Holds? && Large(s, x) && Large(s, y) && x != y
    ensures s1 == Run(s, LargeWrites(x, |s.chain|) + [Write(y, {}, |y|)] + LargeWrites(x, k))
    ensures |s1.chain| == |s.chain| && Marked(s1.chain, k, y) && Large(s1, x)
  {
    var first, carry := LargeWrites(x, |s.chain|) + [Write(y, {}, |y|)], LargeWrites(x, k);
    var sa := MarkReached(s, x, y);
    LargeWritesCarry(sa, x, 0, y, k);
    s1 := Run(sa, carry);
    RunConcat(s, first, carry);
  }

  lemma MarkedChainLoses(s: State, k: nat, x: string, y: string)
    requires 0 < k < |s.chain| - 1 && Marked(s.chain, k, y) && Large(s, x) && x != y
    ensures y !in Read(Step(s, Write(x, {k + 1}, |x|)).chain)
  {
    var n := |s.chain|;
    LargeWriteRotates(s, x, {k + 1});
    FailedRenameOverwrites(s.chain, n - 1, k, y);
    var s1 := Step(s, Write(x, {k + 1}, |x|));
    assert OnlyIn(s1.chain, -1, y);
    CleanReads(s1.chain, y);
  }

  lemma LosingRunLoses(s: State, k: nat, x: string, y: string)
    requires 0 < k < |s.chain| - 1 && s.chain[0].Holds? && Large(s, x) && Large(s, y) && x != y
    ensures y !in Read(Run(s, LosingRun(|s.chain|, k, x, y)).chain)
  {
    var prefix := LargeWrites(x, |s.chain|) + [Write(y, {}, |y|)] + LargeWrites(x, k);
    var last := Write(x, {k + 1}, |x|);
    var s1 := MarkedChainReached(s, k, x, y);
    MarkedChainLoses(s1, k, x, y);
    LastStep(s, prefix, last);
    assert LosingRun(|s.chain|, k, x, y) == prefix + [last];
  }

  lemma LosingRunWrites(n: nat, k: nat, x: string, y: string)
    ensures FailuresWithin(LosingRun(n, k, x, y), {k + 1})
    ensures var w := Written(LosingRun(n, k, x, y));
      |w| == n + 1 + (k + 1) && w[|w| - (k + 2)] == y
  {
    LargeWritesAre(x, n);
    LargeWritesAre(x, k);
    var a, b, c, d := LargeWrites(x, n), [Write(y, {}, |y|)], LargeWrites(x, k), [Write(x, {k + 1}, |x|)];
    WrittenConcat(a + b, c + d);
    WrittenConcat(a, b);
    WrittenConcat(c, d);
    WrittenCons(b);
    WrittenCons(d);
    assert b[1..] == [] && d[1..] == [] && Written(b) == [y] && Written(d) == [x];
  }

  lemma FailingArchiveLoses(s: State, i: nat) returns (ops: seq<Op>)
    requires s.chain != [] && s.chain[0].Holds? && 2 <= i < |s.chain|
    ensures FailuresWithin(ops, {i}) && !Retains(s, ops)
  {
    var n, x, y := |s.chain|, LargeRecord(s, 'x'), LargeRecord(s, 'y');
    assert x[0] != y[0];
    ops := LosingRun(n, i - 1, x, y);
    LosingRunLoses(s, i - 1, x, y);
    LosingRunWrites(n, i - 1, x, y);
    var all, kept := Read(s.chain) + Written(ops), Read(Run(s, ops).chain);
    assert all[|all| - (i + 1)] == y;
    if Retains(s, ops) { SuffixHas(all, kept, i + 1, y); }
  }

  lemma SuffixHas(all: seq<string>, kept: seq<string>, k: nat, y: string)
    requires 0 < k <= |kept| <= |all| && kept == all[|all| - |kept|..] && all[|all| - k] == y
    ensures y in kept
  {
    assert kept[|kept| - k] == y;
  }

  lemma FewerFailures(ops: seq<Op>, e: set<nat>, f: set<nat>)
    requires FailuresWithin(ops, e) && e <= f
    ensures FailuresWithin(ops, f)
  {}

  /** Exactly when every run keeps that promise, for any chain with an active file and any
      set f of renames that may fail: the chain is backed and no rename of an archive
      may fail. */
  lemma RetentionIff(s: State, f: set<nat>)
    requires s.chain != [] && s.chain[0].Holds?
    ensures (forall ops | FailuresWithin(ops, f) :: Retains(s, ops)) <==>
      Backed(s.chain) && ArchivesMove(f, |s.chain|)
  {
    if Backed(s.chain) && ArchivesMove(f, |s.chain|) {
      forall ops | FailuresWithin(ops, f) ensures Retains(s, ops) {
        NewestRetained(s, ops, f);
      }
    } else if !Backed(s.chain) {
      var j: nat :| j < |s.chain| && !BackedAt(s.chain, j);
      var ops := UnbackedLoses(s, j);
      FewerFailures(ops, {}, f);
    } else {
      var i: nat :| 2 <= i < |s.chain| && i in f;
      var ops := FailingArchiveLoses(s, i);
      FewerFailures(ops, {i}, f);
    }
  }

  // ----- how large a file gets -----

  ghost predicate Bounded(s: Slot, limit: nat) {
    s.Holds? ==> Size(s.records) < limit || |s.records| <= 1
  }

  ghost predicate AllBounded(c: Chain, limit: nat) {
    forall i | 0 <= i < |c| :: Bounded(c[i], limit)
  }

  /** Never more than `slack` written bytes unseen by `file_size`. */
  ghost predicate HiddenAtMost(s: State, ops: seq<Op>, slack: nat)
    requires s.chain != []
    decreases |ops|
  {
    s.hidden <= slack && (ops != [] ==> HiddenAtMost(Step(s, ops[0]), ops[1..], slack))
  }

  lemma SizeSnoc(records: seq<string>, r: string)
    ensures Size(records + [r]) == Size(records) + |r|
  {
    assert (records + [r])[..|records|] == records;
  }

  lemma {:induction false} ShiftKeepsBound(c: Chain, i: nat, failed: set<nat>, limit: nat)
    requires i < |c| && AllBounded(c, limit)
    ensures AllBounded(Shift(c, i, failed), limit)
    decreases i
  {
    if i > 0 { ShiftKeepsBound(Rename(c, i, i !in failed), i - 1, failed, limit); }
  }

  /** The first slot depends on the last rename of the loop alone. */
  lemma {:induction false} ShiftFirst(c: Chain, i: nat, failed: set<nat>)
    requires i < |c| && c[0].Holds?
    ensures Shift(c, i, failed)[0] == if i == 0 || 1 in failed then c[0] else Absent
    decreases i
  {
    if i > 1 { ShiftFirst(Rename(c, i, i !in failed), i - 1, failed); }
    else if i == 1 { assert Shift(c, 1, failed) == Shift(Rename(c, 1, 1 !in failed), 0, failed); }
  }

  lemma StepKeepsBound(s: State, op: Op, slack: nat)
    requires |s.chain| > 1 && s.chain[0].Holds?
    requires op.Write? ==> 1 !in op.failed
    requires s.hidden <= slack && AllBounded(s.chain, s.maxSize + slack)
    ensures Step(s, op).chain[0].Holds? && AllBounded(Step(s, op).chain, s.maxSize + slack)
  {
    if op.Write? {
      if MustRotate(s, op.record) {
        ShiftKeepsBound(s.chain, |s.chain| - 1, op.failed, s.maxSize + slack);
        ShiftFirst(s.chain, |s.chain| - 1, op.failed);
      } else {
        SizeSnoc(s.chain[0].records, op.record);
      }
    }
  }

  /** With at least one archive slot, while the rename of the active file never fails:
      every file stays below `max_file_size` plus the bytes hidden in the stream buffer,
      or holds a single record. Gaps and failing renames of archives do not matter. */
  lemma {:induction false} RotationSizeBound(s: State, ops: seq<Op>, f: set<nat>, slack: nat)
    requires |s.chain| > 1 && s.chain[0].Holds? && AllBounded(s.chain, s.maxSize + slack)
    requires FailuresWithin(ops, f) && 1 !in f && HiddenAtMost(s, ops, slack)
    ensures AllBounded(Run(s, ops).chain, s.maxSize + slack)
    decreases |ops|
  {
    if ops != [] {
      StepKeepsBound(s, ops[0], slack);
      RotationSizeBound(Step(s, ops[0]), ops[1..], f, slack);
    }
  }

  lemma FirstGrows(s: State, r: string, failed: set<nat>)
    requires s.chain != [] && s.chain[0].Holds? && (|s.chain| == 1 || 1 in failed)
    ensures var s1 := Step(s, Write(r, failed, |r|));
      s1.chain[0] == Holds(s.chain[0].records + [r]) && s1.hidden <= s.hidden
  {
    ShiftFirst(s.chain, |s.chain| - 1, failed);
  }

  /** Two records too large to share a file end up in the active file. */
  lemma TwoLargeWrites(s: State, r: string, failed: set<nat>, slack: nat)
    requires s.chain != [] && s.chain[0].Holds? && (|s.chain| == 1 || 1 in failed)
    requires s.hidden <= slack && |r| == s.maxSize + slack
    ensures var ops := [Write(r, failed, |r|), Write(r, failed, |r|)];
      && FailuresWithin(ops, failed) && HiddenAtMost(s, ops, slack)
      && !AllBounded(Run(s, ops).chain, s.maxSize + slack)
  {
    var op := Write(r, failed, |r|);
    var s1 := Step(s, op);
    var s2 := Step(s1, op);
    FirstGrows(s, r, failed);
    FirstGrows(s1, r, failed);
    SizeSnoc(s.chain[0].records, r);
    SizeSnoc(s.chain[0].records + [r], r);
    assert !Bounded(s2.chain[0], s.maxSize + slack);
    assert [op, op][1..] == [op] && [op][1..] == [];
    assert HiddenAtMost(s2, [], slack) && HiddenAtMost(s1, [op], slack);
    assert Run(s2, []) == s2 && Run(s1, [op]) == s2 && Run(s, [op, op]) == s2;
  }

  /** Exactly when every run keeps the size bound, for any chain and any set f of renames
      that may fail: there is an archive slot, and the active file can be renamed to it. */
  lemma SizeBoundIff(s: State, f: set<nat>, slack: nat)
    requires s.chain != [] && s.chain[0].Holds? && s.hidden <= slack
    requires AllBounded(s.chain, s.maxSize + slack)
    ensures (forall ops | FailuresWithin(ops, f) && HiddenAtMost(s, ops, slack) ::
               AllBounded(Run(s, ops).chain, s.maxSize + slack)) <==> |s.chain| > 1 && 1 !in f
  {
    if |s.chain| > 1 && 1 !in f {
      forall ops | FailuresWithin(ops, f) && HiddenAtMost(s, ops, slack)
        ensures AllBounded(Run(s, ops).chain, s.maxSize + slack)
      {
        RotationSizeBound(s, ops, f, slack);
      }
    } else {
      var r: string := seq(s.maxSize + slack, i => 'x');
      TwoLargeWrites(s, r, f, slack);
    }
  }

  // ----- concrete runs -----

  /** Renaming the active file fails: two one-byte records share it under a limit of one
      byte, although there is an archive and nothing is hidden. */
  lemma FailingRenameBreaksBound()
    ensures var s, a, b := State([Holds([]), Absent], 0, 1), Write("a", {1}, 1), Write("b", {1}, 1);
      && AllBounded(s.chain, s.maxSize) && HiddenAtMost(s, [a, b], 0)
      && Run(s, [a, b]).chain == [Holds(["a", "b"]), Absent]
      && !AllBounded(Run(s, [a, b]).chain, s.maxSize)
  {
    var s, a, b := State([Holds([]), Absent], 0, 1), Write("a", {1}, 1), Write("b", {1}, 1);
    RotateTwo(s.chain, {1}, "a");
    assert [] + ["a"] == ["a"] && ["a"] + ["b"] == ["a", "b"];
    var s1 := Step(s, a);
    assert s1 == State([Holds(["a"]), Absent], 0, 1);
    RotateTwo(s1.chain, {1}, "b");
    var s2 := Step(s1, b);
    assert [a, b][1..] == [b] && [b][1..] == [];
    assert HiddenAtMost(s2, [], 0) && HiddenAtMost(s1, [b], 0);
    assert Run(s2, []) == s2 && Run(s1, [b]) == s2 && Run(s, [a, b]) == s2;
    SizeSnoc([], "a");
    SizeSnoc(["a"], "b");
    assert !Bounded(s2.chain[0], 1);
  }

  /** Renaming an archive fails: the middle one of three is lost, the oldest is kept. */
  lemma FailingRenameLosesMiddle()
    ensures var s, op := State([Holds(["a"]), Holds(["b"]), Holds(["c"])], 0, 1), Write("d", {2}, 1);
      Read(s.chain) == ["c", "b", "a"] && Read(Run(s, [op]).chain) == ["c", "a", "d"]
  {
    var s, op := State([Holds(["a"]), Holds(["b"]), Holds(["c"])], 0, 1), Write("d", {2}, 1);
    var c := s.chain;
    assert Shift(c, 2, {2}) == Shift(c, 1, {2}) == Shift(Rename(c, 1, true), 0, {2});
    var s1 := Step(s, op);
    assert [] + ["d"] == ["d"];
    assert s1.chain == [Holds(["d"]), Holds(["a"]), Holds(["c"])];
    assert [op][1..] == [] && Run(s1, []) == s1 && Run(s, [op]) == s1;
    ReadThree("a", "b", "c");
    ReadThree("d", "a", "c");
  }

  lemma ReadThree(x: string, y: string, z: string)
    ensures Read([Holds([x]), Holds([y]), Holds([z])]) == [z, y, x]
  {
    assert [Holds([x]), Holds([y]), Holds([z])][1..] == [Holds([y]), Holds([z])];
    ReadPair(Holds([y]), Holds([z]));
    assert [z] + [y] == [z, y] && [z, y] + [x] == [z, y, x];
  }
}
