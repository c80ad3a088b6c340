/** The formatter as it runs: an index loop that compiles, a buffer that grows,
    and a timestamp remembered between calls. */
module Formatting {
  import opened Records
  import opened Decimals
  import opened Patterns
  import opened Memos

  /** The growing output buffer; nobody clears it but its owner. */
  class MemoryBuffer {
    var data: string

    constructor ()
      ensures data == ""
    {
      data := "";
    }

    method Clear()
      modifies this
      ensures data == ""
    {
      data := "";
    }

    method Append(text: string)
      modifies this
      ensures data == old(data) + text
    {
      data := data + text;
    }
  }

  /** The per-thread memo of the last formatted second. */
  class TimestampCache {
    var seconds: int
    var valid: bool
    var text: string

    ghost function View(): Memo
      reads this
    {
      Memo(valid, seconds, text)
    }

    constructor ()
      ensures View() == EMPTY
    {
      seconds, valid, text := 0, false, "";
    }

    /** Appends the uncached text of the record's second, provided the memo is truthful,
        and keeps it so; in any case the memo becomes what was appended. */
    method AppendTimestamp(env: Platform, buffer: MemoryBuffer, r: LogRecord)
      modifies this, buffer
      ensures old(Truthful(env, View())) ==> Truthful(env, View()) && text == FieldText(env, Timestamp, r)
      ensures View() == Refreshed(env, old(View()), SecondOf(env, r))
      ensures buffer.data == old(buffer.data) + text
    {
      var now := env.toSeconds(r.timestamp);
      if !valid || seconds != now {
        seconds := now;
        valid := true;
        text := env.stamp(now);
      }
      buffer.Append(text);
    }

    /** The refill when formatting the time throws half way: the new second is already
        marked valid, the text is torn. The memo is still truthful only if the torn text
        happens to be whole. */
    method TearRefill(env: Platform, r: LogRecord, torn: string)
      modifies this
      ensures View() == Memo(true, SecondOf(env, r), torn)
      ensures Truthful(env, View()) <==> torn == env.stamp(SecondOf(env, r))
    {
      seconds := env.toSeconds(r.timestamp);
      valid := true;
      text := torn;
    }
  }

  method AppendTimeComponent(env: Platform, buffer: MemoryBuffer, kind: Kind, r: LogRecord)
    modifies buffer
    ensures buffer.data == old(buffer.data) +
      (if kind in {Year, Month, Day, Hour, Minute, Second} then FieldText(env, kind, r) else "")
  {
    var seconds := env.toSeconds(r.timestamp);
    match kind {
      case Year => buffer.Append(env.year(seconds));
      case Month => buffer.Append(env.month(seconds));
      case Day => buffer.Append(env.day(seconds));
      case Hour => buffer.Append(env.hour(seconds));
      case Minute => buffer.Append(env.minute(seconds));
      case Second => buffer.Append(env.second(seconds));
      case _ =>
    }
  }

  method AppendToken(env: Platform, cache: TimestampCache, buffer: MemoryBuffer, token: Token, r: LogRecord)
    modifies cache, buffer
    ensures buffer.data == old(buffer.data) + TokenText(Seen(env, old(cache.View())), token, r)
    ensures cache.View() == if token == Field(Timestamp) then Refreshed(env, old(cache.View()), SecondOf(env, r))
                            else old(cache.View())
  {
    match token {
      case Literal(text) => buffer.Append(text);
      case Field(kind) =>
        match kind {
          case Timestamp => cache.AppendTimestamp(env, buffer, r);
          case Year => AppendTimeComponent(env, buffer, kind, r);
          case Month => AppendTimeComponent(env, buffer, kind, r);
          case Day => AppendTimeComponent(env, buffer, kind, r);
          case Hour => AppendTimeComponent(env, buffer, kind, r);
          case Minute => AppendTimeComponent(env, buffer, kind, r);
          case Second => AppendTimeComponent(env, buffer, kind, r);
          case LevelName => buffer.Append(NameOf(r.level));
          case ThreadId => buffer.Append(Decimal(env.threadHash(r.threadId)));
          case ProcessId => buffer.Append(Decimal(r.processId));
          case File => buffer.Append(r.file);
          case Function => buffer.Append(r.func);
          case Line => buffer.Append(Decimal(r.line));
          case LoggerName => buffer.Append(r.loggerName);
          case Message => buffer.Append(r.message);
        }
    }
  }

  /** Moving the emitted tokens from the front of what is still to come. */
  lemma Emitted(done: seq<Token>, emitted: seq<Token>, rest: seq<Token>)
    ensures done + (emitted + rest) == (done + emitted) + rest
  {}

  /** The switch on the character after `%`: the pending literal is emitted first. */
  method CompileEscape(literal: string, c: char, ghost p: string) returns (emitted: seq<Token>, next: string)
    requires |p| >= 2 && p[0] == '%' && p[1] == c && !(STAMP_PATTERN <= p)
    ensures emitted + CompileFrom(p[2..], next) == CompileFrom(p, literal)
  {
    emitted, next := Pending(literal), "";
    match c {
      case 'Y' => emitted := emitted + [Field(Year)];
      case 'd' => emitted := emitted + [Field(Day)];
      case 'H' => emitted := emitted + [Field(Hour)];
      case 'M' => emitted := emitted + [Field(Minute)];
      case 'S' => emitted := emitted + [Field(Second)];
      case 'l' => emitted := emitted + [Field(LevelName)];
      case 'L' => emitted := emitted + [Field(LevelName)];
      case 't' => emitted := emitted + [Field(ThreadId)];
      case 'p' => emitted := emitted + [Field(ProcessId)];
      case 'f' => emitted := emitted + [Field(File)];
      case 'F' => emitted := emitted + [Field(Function)];
      case '#' => emitted := emitted + [Field(Line)];
      case 'n' => emitted := emitted + [Field(LoggerName)];
      case 'm' => emitted := emitted + [Field(Message)];
      case 'v' => emitted := emitted + [Field(Message)];
      case '%' => emitted := emitted + [Literal("%")];
      case _ => next := ['%', c];
    }
  }

  lemma CompileStamp(p: string, literal: string)
    requires STAMP_PATTERN <= p
    ensures CompileFrom(p, literal)
         == Pending(literal) + [Field(Timestamp)] + CompileFrom(p[|STAMP_PATTERN|..], "")
  {}

  /** One turn of the tokenizer's loop: what it emits, where it stops, what stays pending. */
  method CompileStep(pattern: string, i: nat, literal: string) returns (emitted: seq<Token>, next: nat, pending: string)
    requires i < |pattern|
    ensures i < next <= |pattern|
    ensures CompileFrom(pattern[i..], literal) == emitted + CompileFrom(pattern[next..], pending)
  {
    var rest := pattern[i..];
    if STAMP_PATTERN <= rest {
      emitted, next, pending := Pending(literal) + [Field(Timestamp)], i + |STAMP_PATTERN|, "";
      CompileStamp(rest, literal);
      assert pattern[next..] == rest[|STAMP_PATTERN|..];
    } else if pattern[i] != '%' {
      emitted, next, pending := [], i + 1, literal + [pattern[i]];
      assert pattern[next..] == rest[1..];
    } else if i + 1 >= |pattern| {
      emitted, next, pending := [], |pattern|, literal + "%";
    } else {
      emitted, pending := CompileEscape(literal, pattern[i + 1], rest);
      next := i + 2;
      assert pattern[next..] == rest[2..];
    }
  }

  /** The tokenizer. */
  method CompilePattern(pattern: string) returns (tokens: seq<Token>)
    ensures tokens == Compile(pattern)
  {
    tokens := [];
    var literal := "";
    var i := 0;
    while i < |pattern|
      invariant i <= |pattern|
      invariant tokens + CompileFrom(pattern[i..], literal) == Compile(pattern)
    {
      var emitted, next, pending := CompileStep(pattern, i, literal);
      Emitted(tokens, emitted, CompileFrom(pattern[next..], pending));
      tokens, i, literal := tokens + emitted, next, pending;
    }
    tokens := tokens + Pending(literal);
  }

  /** What the i-th token adds, whether or not an earlier one has refreshed the memo. */
  lemma RenderNext(env: Platform, m: Memo, tokens: seq<Token>, i: nat, r: LogRecord)
    requires i < |tokens|
    ensures Render(Seen(env, m), tokens[..i + 1], r)
         == Render(Seen(env, m), tokens[..i], r) + TokenText(Seen(env, m), tokens[i], r)
    ensures TokenText(Seen(env, Refreshed(env, m, SecondOf(env, r))), tokens[i], r)
         == TokenText(Seen(env, m), tokens[i], r)
    ensures Field(Timestamp) in tokens[..i + 1] <==> Field(Timestamp) in tokens[..i] || tokens[i] == Field(Timestamp)
    ensures Refreshed(env, Refreshed(env, m, SecondOf(env, r)), SecondOf(env, r)) == Refreshed(env, m, SecondOf(env, r))
  {
    assert tokens[..i + 1] == tokens[..i] + [tokens[i]];
    RenderSnoc(Seen(env, m), tokens[..i], tokens[i], r);
    RefreshedTokenText(env, m, tokens[i], r);
  }

  /** The rendered tokens of a pattern are its line under the memo. */
  lemma CompiledLine(env: Platform, pattern: string, m: Memo, r: LogRecord)
    ensures Render(Seen(env, m), Compile(pattern), r) + "\n" == LineUnder(env, pattern, m, r)
    ensures Field(Timestamp) in Compile(pattern) <==> UsesStamp(pattern)
    ensures Truthful(env, m) ==> LineUnder(env, pattern, m, r) == FormatLine(env, pattern, r)
  {
    CompilePreservesMeaning(Seen(env, m), pattern, r);
    CompiledUsesStamp(pattern);
    if Truthful(env, m) { TruthfulLine(env, pattern, m, r); }
  }

  class Formatter {
    var pattern: string
    var tokens: seq<Token>

    ghost predicate Valid()
      reads this
    {
      tokens == Compile(pattern)
    }

    constructor (pattern: string)
      ensures Valid() && this.pattern == pattern
    {
      var compiled := CompilePattern(pattern);
      this.pattern := pattern;
      tokens := compiled;
    }

    constructor Default()
      ensures Valid() && pattern == DEFAULT_PATTERN
    {
      var compiled := CompilePattern(DEFAULT_PATTERN);
      pattern := DEFAULT_PATTERN;
      tokens := compiled;
    }

    method SetPattern(pattern: string)
      modifies this
      ensures Valid() && this.pattern == pattern
    {
      var compiled := CompilePattern(pattern);
      this.pattern := pattern;
      tokens := compiled;
    }

    /** Appends the line a thread with this cache produces; the buffer keeps what it
        held. With a truthful cache that is the line the pattern means. */
    method Format(env: Platform, cache: TimestampCache, buffer: MemoryBuffer, r: LogRecord)
      requires Valid()
      modifies cache, buffer
      ensures buffer.data == old(buffer.data) + LineUnder(env, pattern, old(cache.View()), r)
      ensures cache.View() == MemoAfter(env, UsesStamp(pattern), old(cache.View()), r, Reaches(0))
      ensures old(Truthful(env, cache.View())) ==>
        Truthful(env, cache.View()) && buffer.data == old(buffer.data) + FormatLine(env, pattern, r)
    {
      ghost var m := cache.View();
      for i := 0 to |tokens|
        invariant cache.View() == if Field(Timestamp) in tokens[..i] then Refreshed(env, m, SecondOf(env, r)) else m
        invariant buffer.data == old(buffer.data) + Render(Seen(env, m), tokens[..i], r)
      {
        AppendToken(env, cache, buffer, tokens[i], r);
        RenderNext(env, m, tokens, i, r);
      }
      assert tokens[..|tokens|] == tokens;
      CompiledLine(env, pattern, m, r);
      buffer.Append("\n");
    }
  }

  /** Over any records, in any order of time, one thread's cache changes nothing:
      every appended timestamp is the uncached one. */
  method AppendTimestamps(env: Platform, records: seq<LogRecord>) returns (texts: seq<string>)
    ensures |texts| == |records|
    ensures forall i | 0 <= i < |records| :: texts[i] == env.stamp(env.toSeconds(records[i].timestamp))
  {
    var cache := new TimestampCache();
    texts := [];
    for i := 0 to |records|
      invariant Truthful(env, cache.View()) && fresh(cache) && |texts| == i
      invariant forall k | 0 <= k < i :: texts[k] == env.stamp(env.toSeconds(records[k].timestamp))
    {
      var buffer := new MemoryBuffer();
      cache.AppendTimestamp(env, buffer, records[i]);
      texts := texts + [buffer.data];
    }
  }

  /** The first n records are all of that second. */
  ghost predicate AllInSecond(env: Platform, records: seq<LogRecord>, n: nat, second: int) {
    forall k | 0 <= k < n && k < |records| :: SecondOf(env, records[k]) == second
  }

  ghost function TextAfterTear(env: Platform, records: seq<LogRecord>, i: nat, second: int, torn: string): string
    requires i < |records|
  {
    if AllInSecond(env, records, i + 1, second) then torn else env.stamp(env.toSeconds(records[i].timestamp))
  }

  /** The same after a refill torn by an exception: records of the torn second get the
      torn text until a record of another second has been formatted; after that, every
      record gets its own text again. */
  method AppendTimestampsAfterTear(env: Platform, tornBy: LogRecord, torn: string, records: seq<LogRecord>)
    returns (texts: seq<string>)
    ensures |texts| == |records|
    ensures forall i | 0 <= i < |records| ::
      texts[i] == TextAfterTear(env, records, i, SecondOf(env, tornBy), torn)
  {
    ghost var second := SecondOf(env, tornBy);
    var cache := new TimestampCache();
    cache.TearRefill(env, tornBy, torn);
    texts := [];
    for i := 0 to |records|
      invariant fresh(cache) && |texts| == i
      invariant if AllInSecond(env, records, i, second)
                then cache.View() == Memo(true, second, torn) else Truthful(env, cache.View())
      invariant forall k | 0 <= k < i :: texts[k] == TextAfterTear(env, records, k, second, torn)
    {
      var text := AppendOne(env, cache, records[i]);
      texts := texts + [text];
    }
  }

  method AppendOne(env: Platform, cache: TimestampCache, r: LogRecord) returns (text: string)
    modifies cache
    ensures old(Truthful(env, cache.View())) ==> Truthful(env, cache.View())
    ensures cache.View() == Refreshed(env, old(cache.View()), SecondOf(env, r)) && cache.text == text
  {
    var buffer := new MemoryBuffer();
    cache.AppendTimestamp(env, buffer, r);
    text := buffer.data;
  }
}
