/** A thread's memo of the last formatted second, over whole runs: what it makes of
    each line, and what an exception that tears it does to later ones. */
module Memos {
  import opened Records
  import opened Patterns

  /** The thread-local timestamp cache. */
  datatype Memo = Memo(valid: bool, seconds: int, text: string)

  const EMPTY := Memo(false, 0, "")

  predicate Current(m: Memo, second: int) { m.valid && m.seconds == second }

  /** What is remembered is what formatting that second would give. */
  predicate Truthful(env: Platform, m: Memo) { m.valid ==> m.text == env.stamp(m.seconds) }

  /** The timestamp text a thread with this memo produces. */
  function StampOf(env: Platform, m: Memo, second: int): string {
    if Current(m, second) then m.text else env.stamp(second)
  }

  function Refreshed(env: Platform, m: Memo, second: int): Memo {
    Memo(true, second, StampOf(env, m, second))
  }

  /** The platform as a thread with this memo sees it. */
  function Seen(env: Platform, m: Memo): Platform {
    env.(stamp := second => StampOf(env, m, second))
  }

  /** The platform on which every timestamp reads as this text. */
  function Stamped(env: Platform, text: string): Platform {
    env.(stamp := _ => text)
  }

  function SecondOf(env: Platform, r: LogRecord): int { env.toSeconds(r.timestamp) }

  predicate UsesStamp(pattern: string) { Hole(Timestamp) in Reading(pattern) }

  /** The line a thread with this memo produces. */
  function LineUnder(env: Platform, pattern: string, m: Memo, r: LogRecord): string {
    FormatLine(Seen(env, m), pattern, r)
  }

  // ----- one handling of a record; `stamped` says whether the pattern uses a timestamp -----

  /** Where an exception leaves the memo: untouched, refreshed by a timestamp that was
      already appended, or in the middle of the refill, marked valid with a torn text. */
  datatype Break = BeforeStamp | AfterStamp | Torn(text: string)

  /** Formatting may throw, leaving anything in the buffer; or sink number `sinks` may
      throw after the earlier ones were written. */
  datatype Fate = FormatThrows(partial: string, point: Break) | Reaches(sinks: nat)

  /** How many sinks the line reaches. */
  function Reach(fate: Fate): nat {
    match fate
    case FormatThrows(_, _) => 0
    case Reaches(n) => n
  }

  /** An exception after a timestamp needs one in the pattern, a torn refill a refill. */
  predicate Possible(env: Platform, stamped: bool, m: Memo, r: LogRecord, fate: Fate) {
    fate.FormatThrows? ==>
      && (!fate.point.BeforeStamp? ==> stamped)
      && (fate.point.Torn? ==> !Current(m, SecondOf(env, r)))
  }

  predicate Tears(fate: Fate) { fate.FormatThrows? && fate.point.Torn? }

  /** The handling leaves the memo at its own record's second. */
  predicate Touches(stamped: bool, fate: Fate) {
    match fate
    case FormatThrows(_, point) => !point.BeforeStamp?
    case Reaches(_) => stamped
  }

  function MemoAfter(env: Platform, stamped: bool, m: Memo, r: LogRecord, fate: Fate): Memo {
    if Tears(fate) then Memo(true, SecondOf(env, r), fate.point.text)
    else if Touches(stamped, fate) then Refreshed(env, m, SecondOf(env, r))
    else m
  }

  // ----- records handled one after the other -----

  function MemoOf(env: Platform, pattern: string, m: Memo, records: seq<LogRecord>, fates: seq<Fate>): Memo
    requires |records| == |fates|
  {
    if records == [] then m
    else
      var n := |records| - 1;
      MemoAfter(env, UsesStamp(pattern), MemoOf(env, pattern, m, records[..n], fates[..n]), records[n], fates[n])
  }

  /** The line of the i-th record. */
  function LineAt(env: Platform, pattern: string, m: Memo, records: seq<LogRecord>, fates: seq<Fate>, i: nat): string
    requires i < |records| == |fates|
  {
    LineUnder(env, pattern, MemoOf(env, pattern, m, records[..i], fates[..i]), records[i])
  }

  /** What sink k received: the line of every record that reached it. */
  function Received(env: Platform, pattern: string, m: Memo, records: seq<LogRecord>, fates: seq<Fate>,
                    k: nat): seq<string>
    requires |records| == |fates|
  {
    if records == [] then []
    else
      var n := |records| - 1;
      Received(env, pattern, m, records[..n], fates[..n], k)
        + (if k < Reach(fates[n]) then [LineAt(env, pattern, m, records, fates, n)] else [])
  }

  lemma MemoOfSnoc(env: Platform, pattern: string, m: Memo, records: seq<LogRecord>, fates: seq<Fate>,
                   r: LogRecord, fate: Fate)
    requires |records| == |fates|
    ensures MemoOf(env, pattern, m, records + [r], fates + [fate])
         == MemoAfter(env, UsesStamp(pattern), MemoOf(env, pattern, m, records, fates), r, fate)
  {
    assert (records + [r])[..|records|] == records && (fates + [fate])[..|fates|] == fates;
  }

  lemma ReceivedSnoc(env: Platform, pattern: string, m: Memo, records: seq<LogRecord>, fates: seq<Fate>,
                     r: LogRecord, fate: Fate, k: nat)
    requires |records| == |fates|
    ensures Received(env, pattern, m, records + [r], fates + [fate], k)
         == Received(env, pattern, m, records, fates, k)
          + (if k < Reach(fate) then [LineUnder(env, pattern, MemoOf(env, pattern, m, records, fates), r)] else [])
  {
    assert (records + [r])[..|records|] == records && (fates + [fate])[..|fates|] == fates;
  }

  // ----- lines depend on the memo through one timestamp -----

  lemma {:induction false} SameStampSameText(e1: Platform, e2: Platform, pieces: seq<Piece>, r: LogRecord)
    requires e1.(stamp := e2.stamp) == e2
    requires e1.stamp(SecondOf(e1, r)) == e2.stamp(SecondOf(e1, r))
    ensures Text(e1, pieces, r) == Text(e2, pieces, r)
  {
    if pieces != [] { SameStampSameText(e1, e2, pieces[1..], r); }
  }

  /** A line under a memo is the line whose timestamps read as the memo's text. */
  lemma LineIsStamped(env: Platform, pattern: string, m: Memo, r: LogRecord)
    ensures LineUnder(env, pattern, m, r)
         == FormatLine(Stamped(env, StampOf(env, m, SecondOf(env, r))), pattern, r)
  {
    SameStampSameText(Seen(env, m), Stamped(env, StampOf(env, m, SecondOf(env, r))), Reading(pattern), r);
  }

  lemma OwnLine(env: Platform, pattern: string, r: LogRecord)
    ensures FormatLine(Stamped(env, env.stamp(SecondOf(env, r))), pattern, r) == FormatLine(env, pattern, r)
  {
    SameStampSameText(Stamped(env, env.stamp(SecondOf(env, r))), env, Reading(pattern), r);
  }

  lemma TruthfulLine(env: Platform, pattern: string, m: Memo, r: LogRecord)
    requires Truthful(env, m)
    ensures LineUnder(env, pattern, m, r) == FormatLine(env, pattern, r)
  {
    LineIsStamped(env, pattern, m, r);
    OwnLine(env, pattern, r);
  }

  /** Seen through a memo refreshed for the record's own second, the record reads the same. */
  lemma RefreshedTokenText(env: Platform, m: Memo, token: Token, r: LogRecord)
    ensures TokenText(Seen(env, Refreshed(env, m, SecondOf(env, r))), token, r) == TokenText(Seen(env, m), token, r)
  {}

  lemma {:induction false} FieldInFlatten(tokens: seq<Token>, kind: Kind)
    ensures Field(kind) in tokens <==> Hole(kind) in Flatten(tokens)
  {
    if tokens != [] {
      FieldInFlatten(tokens[1..], kind);
      assert Hole(kind) in Unfold(tokens[0]) <==> tokens[0] == Field(kind);
    }
  }

  /** A compiled pattern has a timestamp token exactly when the pattern uses one. */
  lemma CompiledUsesStamp(pattern: string)
    ensures Field(Timestamp) in Compile(pattern) <==> UsesStamp(pattern)
  {
    CompileFromMeans(pattern, "");
    assert Chars("") + Reading(pattern) == Reading(pattern);
    FieldInFlatten(Compile(pattern), Timestamp);
  }

  // ----- which lines a torn refill reaches -----

  /** Handling k tore the text of this second, and no handling since, up to n, has left
      the memo at another second or torn it again. */
  ghost predicate TornFor(env: Platform, pattern: string, records: seq<LogRecord>, fates: seq<Fate>,
                          k: nat, n: nat, second: int)
    requires |records| == |fates| && n <= |records|
  {
    && k < n && Tears(fates[k]) && SecondOf(env, records[k]) == second
    && forall i | k < i < n && Touches(UsesStamp(pattern), fates[i]) ::
         SecondOf(env, records[i]) == second && !Tears(fates[i])
  }

  /** The torn text that lasts to handling n, or the platform's own. */
  ghost function TextFor(env: Platform, pattern: string, records: seq<LogRecord>, fates: seq<Fate>,
                         n: nat, second: int): string
    requires |records| == |fates| && n <= |records|
  {
    if k: nat :| TornFor(env, pattern, records, fates, k, n, second) then fates[k].point.text
    else env.stamp(second)
  }

  lemma TornOnce(env: Platform, pattern: string, records: seq<LogRecord>, fates: seq<Fate>,
                 j: nat, k: nat, n: nat, second: int)
    requires |records| == |fates| && n <= |records|
    requires TornFor(env, pattern, records, fates, j, n, second)
    requires TornFor(env, pattern, records, fates, k, n, second)
    ensures j == k
  {
    assert Touches(UsesStamp(pattern), fates[j]) && Touches(UsesStamp(pattern), fates[k]);
  }

  lemma TextIs(env: Platform, pattern: string, records: seq<LogRecord>, fates: seq<Fate>,
               k: nat, n: nat, second: int)
    requires |records| == |fates| && n <= |records| && TornFor(env, pattern, records, fates, k, n, second)
    ensures TextFor(env, pattern, records, fates, n, second) == fates[k].point.text
  {
    var j: nat :| TornFor(env, pattern, records, fates, j, n, second)
      && TextFor(env, pattern, records, fates, n, second) == fates[j].point.text;
    TornOnce(env, pattern, records, fates, j, k, n, second);
  }

  /** The step of MemoTells at a handling that changes nothing for this second. */
  lemma TextKept(env: Platform, pattern: string, records: seq<LogRecord>, fates: seq<Fate>,
                 i: nat, n: nat, second: int)
    requires |records| == |fates| && i < n == i + 1 <= |records| && !Tears(fates[i])
    requires Touches(UsesStamp(pattern), fates[i]) ==> SecondOf(env, records[i]) == second
    ensures TextFor(env, pattern, records, fates, n, second) == TextFor(env, pattern, records, fates, i, second)
  {
    forall k: nat | TornFor(env, pattern, records, fates, k, n, second)
      ensures TornFor(env, pattern, records, fates, k, i, second) {}
    if k: nat :| TornFor(env, pattern, records, fates, k, i, second) {
      assert TornFor(env, pattern, records, fates, k, n, second);
      TextIs(env, pattern, records, fates, k, i, second);
      TextIs(env, pattern, records, fates, k, n, second);
    }
  }

  /** The step at a handling that leaves the memo at another second. */
  lemma TextForgotten(env: Platform, pattern: string, records: seq<LogRecord>, fates: seq<Fate>,
                      i: nat, n: nat, second: int)
    requires |records| == |fates| && i < n == i + 1 <= |records|
    requires Touches(UsesStamp(pattern), fates[i]) && SecondOf(env, records[i]) != second
    ensures TextFor(env, pattern, records, fates, n, second) == env.stamp(second)
  {}

  lemma {:induction false} MemoTells(env: Platform, pattern: string, records: seq<LogRecord>, fates: seq<Fate>,
                                     n: nat, second: int)
    requires |records| == |fates| && n <= |records|
    ensures StampOf(env, MemoOf(env, pattern, EMPTY, records[..n], fates[..n]), second)
         == TextFor(env, pattern, records, fates, n, second)
  {
    if n > 0 {
      var i := n - 1;
      MemoTells(env, pattern, records, fates, i, second);
      assert records[..n] == records[..i] + [records[i]] && fates[..n] == fates[..i] + [fates[i]];
      MemoOfSnoc(env, pattern, EMPTY, records[..i], fates[..i], records[i], fates[i]);
      if Touches(UsesStamp(pattern), fates[i]) && SecondOf(env, records[i]) != second {
        TextForgotten(env, pattern, records, fates, i, n, second);
      } else if Tears(fates[i]) {
        TextIs(env, pattern, records, fates, i, n, second);
      } else {
        TextKept(env, pattern, records, fates, i, n, second);
      }
    }
  }

  /** The i-th line, from an empty memo: if a torn refill lasts to it, the line the pattern
      means with the torn text in the place of the timestamp; otherwise that line itself. */
  ghost predicate TornOrOwn(env: Platform, pattern: string, records: seq<LogRecord>, fates: seq<Fate>, i: nat)
    requires i < |records| == |fates|
  {
    var line, second := LineAt(env, pattern, EMPTY, records, fates, i), SecondOf(env, records[i]);
    && (forall k: nat | TornFor(env, pattern, records, fates, k, i, second) ::
          line == FormatLine(Stamped(env, fates[k].point.text), pattern, records[i]))
    && ((forall k: nat :: !TornFor(env, pattern, records, fates, k, i, second)) ==>
          line == FormatLine(env, pattern, records[i]))
  }

  /** That holds over any records, seconds in any order, and any exceptions. */
  lemma TornLines(env: Platform, pattern: string, records: seq<LogRecord>, fates: seq<Fate>, i: nat)
    requires i < |records| == |fates|
    ensures TornOrOwn(env, pattern, records, fates, i)
  {
    var second := SecondOf(env, records[i]);
    MemoTells(env, pattern, records, fates, i, second);
    LineIsStamped(env, pattern, MemoOf(env, pattern, EMPTY, records[..i], fates[..i]), records[i]);
    OwnLine(env, pattern, records[i]);
    forall k: nat | TornFor(env, pattern, records, fates, k, i, second)
      ensures TextFor(env, pattern, records, fates, i, second) == fates[k].point.text
    {
      TextIs(env, pattern, records, fates, k, i, second);
    }
  }

  /** Without a torn refill a truthful memo stays so. */
  lemma {:induction false} UntornIsTruthful(env: Platform, pattern: string, m: Memo, records: seq<LogRecord>,
                                            fates: seq<Fate>)
    requires |records| == |fates| && Truthful(env, m)
    requires forall i | 0 <= i < |fates| :: !Tears(fates[i])
    ensures Truthful(env, MemoOf(env, pattern, m, records, fates))
  {
    if records != [] { UntornIsTruthful(env, pattern, m, records[..|records| - 1], fates[..|records| - 1]); }
  }
}
