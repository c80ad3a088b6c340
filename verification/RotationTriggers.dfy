/** When the sink rotates and when it does not: no rotation comes early, so every archive
    was full. */
module RotationTriggers {
  import opened Rotation

  lemma AppendForm(c: Chain, r: string)
    requires c != []
    ensures Append(c, r) == [Holds(RecordsOf(c[0]) + [r])] + c[1..]
  {}

  /** A record that, with what the disk has of the active file, stays below the limit is
      added to the active file; no archive changes. */
  lemma FittingWrite(s: State, r: string, failed: set<nat>, spilled: nat)
    requires s.chain != []
    requires Size(RecordsOf(s.chain[0])) - s.hidden + |r| < s.maxSize
    ensures Step(s, Write(r, failed, spilled)).chain == [Holds(RecordsOf(s.chain[0]) + [r])] + s.chain[1..]
  {
    AppendForm(s.chain, r);
  }

  lemma {:induction false} ShiftActive(c: Chain, i: nat, failed: set<nat>)
    requires 0 < i < |c| && c[0].Holds?
    ensures Shift(c, i, failed)[0] == if 1 in failed then c[0] else Absent
    ensures 1 !in failed ==> Shift(c, i, failed)[1] == c[0]
    decreases i
  {
    var c' := Rename(c, i, i !in failed);
    if i == 1 { assert Shift(c', 0, failed) == c'; } else { ShiftActive(c', i - 1, failed); }
  }

  /** Any other record rotates first: unless its rename fails, the active file becomes the
      first archive as it was and the record begins a new one. */
  lemma FullWrite(s: State, r: string, failed: set<nat>, spilled: nat)
    requires |s.chain| > 1 && s.chain[0].Holds?
    requires Size(RecordsOf(s.chain[0])) - s.hidden + |r| >= s.maxSize
    ensures var c := Step(s, Write(r, failed, spilled)).chain;
      if 1 in failed then c[0] == Holds(RecordsOf(s.chain[0]) + [r])
      else c[0] == Holds([r]) && c[1] == s.chain[0]
  {
    ShiftActive(s.chain, |s.chain| - 1, failed);
    assert [] + [r] == [r];
  }

  lemma {:induction false} SizeConcat(a: seq<string>, b: seq<string>)
    ensures Size(a + b) == Size(a) + Size(b)
  {
    if b == [] {
      assert a + b == a;
    } else {
      var last := |b| - 1;
      SizeConcat(a, b[..last]);
      assert (a + b)[..|a + b| - 1] == a + b[..last];
    }
  }

  lemma FittingStep(s: State, op: Op)
    requires s.chain != [] && s.chain[0].Holds?
    requires Size(RecordsOf(s.chain[0])) + Size(Written([op])) < s.maxSize
    ensures Step(s, op).chain == [Holds(RecordsOf(s.chain[0]) + Written([op]))] + s.chain[1..]
  {
    WrittenCons([op]);
    if op.Write? {
      assert [op.record][..0] == [] && Size([op.record]) == |op.record|;
      FittingWrite(s, op.record, op.failed, op.spilled);
    } else {
      assert RecordsOf(s.chain[0]) + [] == RecordsOf(s.chain[0]);
    }
  }

  /** While the active file and the whole stream stay below the limit nothing rotates:
      the archives stay and nothing is lost, whatever renames would have failed. */
  lemma {:induction false} FittingRun(s: State, ops: seq<Op>)
    requires s.chain != [] && s.chain[0].Holds?
    requires Size(RecordsOf(s.chain[0])) + Size(Written(ops)) < s.maxSize
    ensures Run(s, ops).chain == [Holds(RecordsOf(s.chain[0]) + Written(ops))] + s.chain[1..]
    decreases |ops|
  {
    var active := RecordsOf(s.chain[0]);
    if ops == [] {
      assert active + [] == active;
    } else {
      var w, ws := Written([ops[0]]), Written(ops[1..]);
      WrittenCons(ops);
      SizeConcat(w, ws);
      SizeConcat(active, w);
      FittingStep(s, ops[0]);
      FittingRun(Step(s, ops[0]), ops[1..]);
      FrontJoined(active, w, ws, s.chain[1..], Step(s, ops[0]).chain);
    }
  }

  lemma FrontJoined(active: seq<string>, w: seq<string>, ws: seq<string>, rest: Chain, c: Chain)
    requires c == [Holds(active + w)] + rest
    ensures RecordsOf(c[0]) + ws == active + (w + ws) && c[1..] == rest
  {}

  // ----- every archive was full -----

  /** The archive in slot i could not have taken the record that begins the next younger
      file. */
  ghost predicate FullAt(c: Chain, limit: nat, i: nat)
    requires 0 < i < |c|
  {
    c[i].Holds? ==>
      && RecordsOf(c[i - 1]) != []
      && Size(RecordsOf(c[i])) + |RecordsOf(c[i - 1])[0]| >= limit
  }

  ghost predicate ArchivesFull(c: Chain, limit: nat) {
    forall i: nat | 0 < i < |c| :: FullAt(c, limit, i)
  }

  lemma FittingKeepsFull(c: Chain, limit: nat, r: string)
    requires c != [] && c[0].Holds? && ArchivesFull(c, limit)
    ensures ArchivesFull(Append(c, r), limit)
  {
    var c' := Append(c, r);
    forall i: nat | 0 < i < |c'| ensures FullAt(c', limit, i) { assert FullAt(c, limit, i); }
  }

  /** A chain moved one place, the last archive overwritten or a missing one filled. */
  lemma RotatedForm(c: Chain, r: string, i: nat)
    requires |c| > 1 && c[0].Holds? && 0 < i < |c|
    requires c[|c| - 1].Holds? ==> c[|c| - 2].Holds?
    ensures Append(Rotate(c, {}), r)[0] == Holds([r]) && Append(Rotate(c, {}), r)[i] == c[i - 1]
  {
    if |c| == 2 { RotateTwo(c, {}, r); } else { RotateForm(c, {}, r); }
  }

  lemma RotationKeepsFull(c: Chain, limit: nat, r: string)
    requires |c| > 1 && c[0].Holds? && ArchivesFull(c, limit) && Size(RecordsOf(c[0])) + |r| >= limit
    ensures ArchivesFull(Append(Rotate(c, {}), r), limit)
  {
    var c' := Append(Rotate(c, {}), r);
    assert FullAt(c, limit, |c| - 1);
    forall i: nat | 0 < i < |c'| ensures FullAt(c', limit, i) {
      RotatedForm(c, r, i);
      if i > 1 {
        RotatedForm(c, r, i - 1);
        assert FullAt(c, limit, i - 1);
      }
    }
  }

  lemma StepKeepsFull(s: State, op: Op)
    requires s.chain != [] && s.chain[0].Holds? && ArchivesFull(s.chain, s.maxSize)
    requires op.Write? ==> op.failed == {}
    ensures Step(s, op).chain[0].Holds? && ArchivesFull(Step(s, op).chain, s.maxSize)
  {
    if op.Write? {
      if Size(RecordsOf(s.chain[0])) - s.hidden + |op.record| < s.maxSize {
        FittingWrite(s, op.record, {}, op.spilled);
        AppendForm(s.chain, op.record);
        FittingKeepsFull(s.chain, s.maxSize, op.record);
      } else if |s.chain| > 1 {
        RotationKeepsFull(s.chain, s.maxSize, op.record);
      }
    }
  }

  /** No rotation ever came early: over any run without failing renames, from a chain of
      which it holds, such as a fresh one, every archive together with the record that
      begins the next younger file reaches the limit. */
  lemma {:induction false} EveryArchiveWasFull(s: State, ops: seq<Op>)
    requires s.chain != [] && s.chain[0].Holds? && ArchivesFull(s.chain, s.maxSize) && RenamesSucceed(ops)
    ensures ArchivesFull(Run(s, ops).chain, s.maxSize)
    decreases |ops|
  {
    if ops != [] {
      assert ops[0].Write? ==> ops[0].failed <= {};
      StepKeepsFull(s, ops[0]);
      EveryArchiveWasFull(Step(s, ops[0]), ops[1..]);
    }
  }
}
