/**
  The pattern language: what a pattern string means, the token list it compiles
  to, and printing a token list back to a pattern.
 */
module Patterns {
  import opened Records
  import opened Decimals

  datatype Kind =
    | Timestamp | Year | Month | Day | Hour | Minute | Second
    | LevelName | ThreadId | ProcessId | File | Function | Line | LoggerName | Message

  datatype Token = Literal(text: string) | Field(kind: Kind)

  /** The platform functions the formatter calls, fixed but arbitrary. The
      calendar functions take whole seconds, already in local time. */
  datatype Platform = Platform(
    toSeconds: int -> int,
    stamp: int -> string,
    year: int -> string, month: int -> string, day: int -> string,
    hour: int -> string, minute: int -> string, second: int -> string,
    threadHash: int -> nat)

  const STAMP_PATTERN := "%Y-%m-%d %H:%M:%S"
  const DEFAULT_PATTERN := "[%Y-%m-%d %H:%M:%S] [%l] [T%t] %m"

  function NameOf(level: Level): string {
    match level
    case Trace => "TRACE"
    case Debug => "DEBUG"
    case Info => "INFO"
    case Warn => "WARN"
    case Error => "ERROR"
    case Fatal => "FATAL"
    case Off => "OFF"
  }

  function FieldText(env: Platform, kind: Kind, r: LogRecord): string {
    var seconds := env.toSeconds(r.timestamp);
    match kind
    case Timestamp => env.stamp(seconds)
    case Year => env.year(seconds)
    case Month => env.month(seconds)
    case Day => env.day(seconds)
    case Hour => env.hour(seconds)
    case Minute => env.minute(seconds)
    case Second => env.second(seconds)
    case LevelName => NameOf(r.level)
    case ThreadId => Decimal(env.threadHash(r.threadId))
    case ProcessId => Decimal(r.processId)
    case File => r.file
    case Function => r.func
    case Line => Decimal(r.line)
    case LoggerName => r.loggerName
    case Message => r.message
  }

  // ----- what a pattern means, read left to right -----

  /** A piece of output: one character, or one field of the record. */
  datatype Piece = Char(c: char) | Hole(kind: Kind)

  /** The documented table of escapes. */
  function Documented(c: char): Option<Kind> {
    if c == 'Y' then Some(Year)
    else if c == 'd' then Some(Day)
    else if c == 'H' then Some(Hour)
    else if c == 'M' then Some(Minute)
    else if c == 'S' then Some(Second)
    else if c in "lL" then Some(LevelName)
    else if c == 't' then Some(ThreadId)
    else if c == 'p' then Some(ProcessId)
    else if c == 'f' then Some(File)
    else if c == 'F' then Some(Function)
    else if c == '#' then Some(Line)
    else if c == 'n' then Some(LoggerName)
    else if c in "mv" then Some(Message)
    else None
  }

  function EscapeMeaning(c: char): seq<Piece> {
    match Documented(c)
    case Some(kind) => [Hole(kind)]
    case None => if c == '%' then [Char('%')] else [Char('%'), Char(c)]
  }

  /** The full timestamp wins over everything; then `%` escapes; a final lone `%`
      and unknown escapes stand for themselves. */
  function Reading(p: string): seq<Piece> {
    if p == "" then []
    else if STAMP_PATTERN <= p then [Hole(Timestamp)] + Reading(p[|STAMP_PATTERN|..])
    else if p[0] != '%' then [Char(p[0])] + Reading(p[1..])
    else if |p| == 1 then [Char('%')]
    else EscapeMeaning(p[1]) + Reading(p[2..])
  }

  function PieceText(env: Platform, piece: Piece, r: LogRecord): string {
    match piece
    case Char(c) => [c]
    case Hole(kind) => FieldText(env, kind, r)
  }

  function Text(env: Platform, pieces: seq<Piece>, r: LogRecord): string {
    if pieces == [] then "" else PieceText(env, pieces[0], r) + Text(env, pieces[1..], r)
  }

  /** One formatted line: the pattern's meaning and a newline. */
  function FormatLine(env: Platform, pattern: string, r: LogRecord): string {
    Text(env, Reading(pattern), r) + "\n"
  }

  // ----- the compiler's result: tokens, adjacent characters collected in literals -----

  /** The pending literal, if there is one. */
  function Pending(literal: string): seq<Token> {
    if literal == "" then [] else [Literal(literal)]
  }

  /** Tokens still to come when `p` is left to read and `literal` is pending. */
  function CompileFrom(p: string, literal: string): seq<Token> {
    if p == "" then Pending(literal)
    else if STAMP_PATTERN <= p then
      Pending(literal) + [Field(Timestamp)] + CompileFrom(p[|STAMP_PATTERN|..], "")
    else if p[0] != '%' then CompileFrom(p[1..], literal + [p[0]])
    else if |p| == 1 then Pending(literal + "%")
    else
      match Documented(p[1])
      case Some(kind) => Pending(literal) + [Field(kind)] + CompileFrom(p[2..], "")
      case None =>
        if p[1] == '%' then Pending(literal) + [Literal("%")] + CompileFrom(p[2..], "")
        else Pending(literal) + CompileFrom(p[2..], ['%', p[1]])
  }

  function Compile(p: string): seq<Token> { CompileFrom(p, "") }

  function TokenText(env: Platform, token: Token, r: LogRecord): string {
    match token
    case Literal(text) => text
    case Field(kind) => FieldText(env, kind, r)
  }

  function Render(env: Platform, tokens: seq<Token>, r: LogRecord): string {
    if tokens == [] then "" else TokenText(env, tokens[0], r) + Render(env, tokens[1..], r)
  }

  lemma {:induction false} RenderSnoc(env: Platform, tokens: seq<Token>, token: Token, r: LogRecord)
    ensures Render(env, tokens + [token], r) == Render(env, tokens, r) + TokenText(env, token, r)
  {
    if tokens != [] {
      RenderSnoc(env, tokens[1..], token, r);
      assert (tokens + [token])[1..] == tokens[1..] + [token];
    }
  }

  // ----- token lists up to the cutting of literals -----

  function Chars(s: string): (pieces: seq<Piece>)
    ensures |pieces| == |s|
  {
    seq(|s|, i requires 0 <= i < |s| => Char(s[i]))
  }

  function Unfold(token: Token): seq<Piece> {
    match token
    case Literal(text) => Chars(text)
    case Field(kind) => [Hole(kind)]
  }

  /** The pieces a token list stands for: it forgets where literals are cut. */
  function Flatten(tokens: seq<Token>): seq<Piece> {
    if tokens == [] then [] else Unfold(tokens[0]) + Flatten(tokens[1..])
  }

  lemma Associative<T>(a: seq<T>, b: seq<T>, c: seq<T>)
    ensures a + (b + c) == (a + b) + c
  {}

  lemma {:induction false} FlattenConcat(a: seq<Token>, b: seq<Token>)
    ensures Flatten(a + b) == Flatten(a) + Flatten(b)
  {
    if a == [] {
      assert a + b == b;
    } else {
      calc {
        Flatten(a + b);
      == { assert (a + b)[0] == a[0] && (a + b)[1..] == a[1..] + b; }
        Unfold(a[0]) + Flatten(a[1..] + b);
      == { FlattenConcat(a[1..], b); }
        Unfold(a[0]) + (Flatten(a[1..]) + Flatten(b));
      == { Associative(Unfold(a[0]), Flatten(a[1..]), Flatten(b)); }
        Flatten(a) + Flatten(b);
      }
    }
  }

  lemma {:induction false} TextConcat(env: Platform, a: seq<Piece>, b: seq<Piece>, r: LogRecord)
    ensures Text(env, a + b, r) == Text(env, a, r) + Text(env, b, r)
  {
    if a == [] {
      assert a + b == b;
    } else {
      calc {
        Text(env, a + b, r);
      == { assert (a + b)[0] == a[0] && (a + b)[1..] == a[1..] + b; }
        PieceText(env, a[0], r) + Text(env, a[1..] + b, r);
      == { TextConcat(env, a[1..], b, r); }
        PieceText(env, a[0], r) + (Text(env, a[1..], r) + Text(env, b, r));
      == { Associative(PieceText(env, a[0], r), Text(env, a[1..], r), Text(env, b, r)); }
        Text(env, a, r) + Text(env, b, r);
      }
    }
  }

  lemma {:induction false} TextOfChars(env: Platform, s: string, r: LogRecord)
    ensures Text(env, Chars(s), r) == s
  {
    if s != "" {
      TextOfChars(env, s[1..], r);
      assert Chars(s)[1..] == Chars(s[1..]);
      assert s == [s[0]] + s[1..];
    }
  }

  lemma {:induction false} RenderIsTextOfFlatten(env: Platform, tokens: seq<Token>, r: LogRecord)
    ensures Render(env, tokens, r) == Text(env, Flatten(tokens), r)
  {
    if tokens != [] {
      RenderIsTextOfFlatten(env, tokens[1..], r);
      TextConcat(env, Unfold(tokens[0]), Flatten(tokens[1..]), r);
      match tokens[0] {
        case Literal(text) => TextOfChars(env, text, r);
        case Field(kind) => assert Text(env, [Hole(kind)], r) == FieldText(env, kind, r) + Text(env, [], r);
      }
    }
  }

  lemma FlattenPending(literal: string)
    ensures Flatten(Pending(literal)) == Chars(literal)
  {
    if literal != "" {
      assert Flatten([Literal(literal)]) == Chars(literal) + Flatten([]);
    }
  }

  /** Cutting the compiler's output at its first new token. */
  lemma FlattenEmit(literal: string, token: Token, rest: seq<Token>)
    ensures Flatten(Pending(literal) + [token] + rest) == Chars(literal) + Unfold(token) + Flatten(rest)
  {
    FlattenPending(literal);
    FlattenConcat(Pending(literal) + [token], rest);
    FlattenConcat(Pending(literal), [token]);
    assert Flatten([token]) == Unfold(token) + Flatten([]);
  }

  lemma CharsConcat(a: string, b: string)
    ensures Chars(a + b) == Chars(a) + Chars(b)
  {}

  /** The steps of CompileFromMeans at an escape: a field, a percent sign, an unknown one. */
  lemma FieldMeans(p: string, literal: string, kind: Kind)
    requires |p| >= 2 && p[0] == '%' && !(STAMP_PATTERN <= p) && Documented(p[1]) == Some(kind)
    requires Flatten(CompileFrom(p[2..], "")) == Reading(p[2..])
    ensures Flatten(CompileFrom(p, literal)) == Chars(literal) + Reading(p)
  {
    FlattenEmit(literal, Field(kind), CompileFrom(p[2..], ""));
    Associative(Chars(literal), [Hole(kind)], Reading(p[2..]));
    assert Reading(p) == [Hole(kind)] + Reading(p[2..]);
  }

  lemma PercentMeans(p: string, literal: string)
    requires |p| >= 2 && p[0] == '%' && !(STAMP_PATTERN <= p) && p[1] == '%'
    requires Flatten(CompileFrom(p[2..], "")) == Reading(p[2..])
    ensures Flatten(CompileFrom(p, literal)) == Chars(literal) + Reading(p)
  {
    assert Documented('%') == None;
    FlattenEmit(literal, Literal("%"), CompileFrom(p[2..], ""));
    Associative(Chars(literal), [Char('%')], Reading(p[2..]));
    assert Unfold(Literal("%")) == [Char('%')];
    assert Reading(p) == [Char('%')] + Reading(p[2..]);
  }

  lemma UnknownMeans(p: string, literal: string)
    requires |p| >= 2 && p[0] == '%' && !(STAMP_PATTERN <= p) && Documented(p[1]) == None && p[1] != '%'
    requires Flatten(CompileFrom(p[2..], ['%', p[1]])) == [Char('%'), Char(p[1])] + Reading(p[2..])
    ensures Flatten(CompileFrom(p, literal)) == Chars(literal) + Reading(p)
  {
    FlattenPending(literal);
    FlattenConcat(Pending(literal), CompileFrom(p[2..], ['%', p[1]]));
    assert Reading(p) == [Char('%'), Char(p[1])] + Reading(p[2..]);
  }

  lemma EscapeMeans(p: string, literal: string)
    requires |p| >= 2 && p[0] == '%' && !(STAMP_PATTERN <= p)
    requires Flatten(CompileFrom(p[2..], "")) == Reading(p[2..])
    requires Flatten(CompileFrom(p[2..], ['%', p[1]])) == [Char('%'), Char(p[1])] + Reading(p[2..])
    ensures Flatten(CompileFrom(p, literal)) == Chars(literal) + Reading(p)
  {
    match Documented(p[1]) {
      case Some(kind) => FieldMeans(p, literal, kind);
      case None => if p[1] == '%' { PercentMeans(p, literal); } else { UnknownMeans(p, literal); }
    }
  }

  /** The step of CompileFromMeans at a full timestamp. */
  lemma StampMeans(p: string, literal: string)
    requires STAMP_PATTERN <= p
    requires Flatten(CompileFrom(p[|STAMP_PATTERN|..], "")) == Reading(p[|STAMP_PATTERN|..])
    ensures Flatten(CompileFrom(p, literal)) == Chars(literal) + Reading(p)
  {
    FlattenEmit(literal, Field(Timestamp), CompileFrom(p[|STAMP_PATTERN|..], ""));
  }

  /** The step at an ordinary character. */
  lemma PlainMeans(p: string, literal: string)
    requires p != "" && !(STAMP_PATTERN <= p) && p[0] != '%'
    requires Flatten(CompileFrom(p[1..], literal + [p[0]])) == Chars(literal + [p[0]]) + Reading(p[1..])
    ensures Flatten(CompileFrom(p, literal)) == Chars(literal) + Reading(p)
  {
    CharsConcat(literal, [p[0]]);
    assert Chars([p[0]]) == [Char(p[0])];
    Associative(Chars(literal), [Char(p[0])], Reading(p[1..]));
    assert Reading(p) == [Char(p[0])] + Reading(p[1..]);
  }

  /** Compiling keeps the meaning, whatever is pending. */
  lemma {:induction false} CompileFromMeans(p: string, literal: string)
    ensures Flatten(CompileFrom(p, literal)) == Chars(literal) + Reading(p)
  {
    if p == "" {
      FlattenPending(literal);
    } else if STAMP_PATTERN <= p {
      CompileFromMeans(p[|STAMP_PATTERN|..], "");
      StampMeans(p, literal);
    } else if p[0] != '%' {
      CompileFromMeans(p[1..], literal + [p[0]]);
      PlainMeans(p, literal);
    } else if |p| == 1 {
      FlattenPending(literal + "%");
      CharsConcat(literal, "%");
    } else {
      CompileFromMeans(p[2..], "");
      CompileFromMeans(p[2..], ['%', p[1]]);
      assert Chars(['%', p[1]]) == [Char('%'), Char(p[1])];
      EscapeMeans(p, literal);
    }
  }

  /** For every pattern and record, rendering the compiled tokens gives exactly
      what reading the pattern left to right gives. */
  lemma CompilePreservesMeaning(env: Platform, p: string, r: LogRecord)
    ensures Render(env, Compile(p), r) + "\n" == FormatLine(env, p, r)
  {
    CompileFromMeans(p, "");
    RenderIsTextOfFlatten(env, Compile(p), r);
    assert Chars("") + Reading(p) == Reading(p);
  }

  /** The month has no escape of its own, and the compiler emits no empty literal. */
  ghost predicate Printable(tokens: seq<Token>) {
    Field(Month) !in tokens
  }

  lemma {:induction false} CompiledIsPrintable(p: string, literal: string)
    ensures Printable(CompileFrom(p, literal))
    ensures Literal("") !in CompileFrom(p, literal)
  {
    if p == "" || (p[0] == '%' && |p| == 1) {
    } else if STAMP_PATTERN <= p {
      CompiledIsPrintable(p[|STAMP_PATTERN|..], "");
    } else if p[0] != '%' {
      CompiledIsPrintable(p[1..], literal + [p[0]]);
    } else {
      CompiledIsPrintable(p[2..], "");
      CompiledIsPrintable(p[2..], ['%', p[1]]);
    }
  }

  // ----- printing tokens back to a pattern -----

  /** The escape that stands for a field. Message is `v`: `%m` could complete a
      timestamp. The month has none: `%?` reads as two plain characters. */
  function EscapeOf(kind: Kind): char
    requires kind != Timestamp
  {
    match kind
    case Year => 'Y'
    case Month => '?'
    case Day => 'd'
    case Hour => 'H'
    case Minute => 'M'
    case Second => 'S'
    case LevelName => 'l'
    case ThreadId => 't'
    case ProcessId => 'p'
    case File => 'f'
    case Function => 'F'
    case Line => '#'
    case LoggerName => 'n'
    case Message => 'v'
  }

  /** How to write a field so that it reads back as itself. */
  function Spelling(kind: Kind): string {
    if kind == Timestamp then STAMP_PATTERN else ['%', EscapeOf(kind)]
  }

  function PrintPiece(piece: Piece): string {
    match piece
    case Char(c) => if c == '%' then "%%" else [c]
    case Hole(kind) => Spelling(kind)
  }

  function PrintPieces(pieces: seq<Piece>): string {
    if pieces == [] then "" else PrintPiece(pieces[0]) + PrintPieces(pieces[1..])
  }

  /** A token list as a pattern. */
  function Print(tokens: seq<Token>): string { PrintPieces(Flatten(tokens)) }

  /** A text as a pattern: every `%` doubled. */
  function Escape(s: string): string { PrintPieces(Chars(s)) }

  /** No printed piece begins with `%m`. */
  lemma NoPrintedMonth(pieces: seq<Piece>)
    requires Hole(Month) !in pieces
    ensures var s := PrintPieces(pieces);
      s != "" && s[0] == '%' ==> |s| >= 2 && s[1] != 'm'
  {
    if pieces != [] {
      var first := PrintPiece(pieces[0]);
      assert first != "" && PrintPieces(pieces)[0] == first[0];
      assert first[0] == '%' ==> |first| >= 2 && PrintPieces(pieces)[1] == first[1] != 'm';
    }
  }

  /** Printed text starts with the full timestamp only when its first piece is one. */
  lemma OnlyTimestampLooksLikeOne(pieces: seq<Piece>)
    requires pieces != [] && Hole(Month) !in pieces && pieces[0] != Hole(Timestamp)
    ensures !(STAMP_PATTERN <= PrintPieces(pieces))
  {
    var s := PrintPieces(pieces);
    var first := PrintPiece(pieces[0]);
    assert STAMP_PATTERN <= s ==> s[0] == '%' && s[1] == 'Y' && s[2] == '-' && s[3] == '%' && s[4] == 'm';
    if pieces[0] == Hole(Year) && |pieces| > 1 {
      var rest := pieces[1..];
      assert s == "%Y" + PrintPieces(rest);
      var second := PrintPiece(rest[0]);
      assert second != "" && PrintPieces(rest)[0] == second[0] == s[2];
      if rest[0] == Char('-') {
        NoPrintedMonth(rest[1..]);
        assert s == "%Y-" + PrintPieces(rest[1..]);
      }
    } else if pieces[0] == Hole(Year) {
      assert PrintPieces(pieces[1..]) == "";
    } else {
      assert s[0] == first[0] && (|first| > 1 ==> s[1] == first[1]);
    }
  }

  lemma SpellingReads(kind: Kind)
    requires kind != Timestamp && kind != Month
    ensures EscapeMeaning(EscapeOf(kind)) == [Hole(kind)]
  {}

  /** Reading takes one printed piece off the front. */
  lemma PieceReads(piece: Piece, s: string, rest: string)
    requires piece != Hole(Month) && s == PrintPiece(piece) + rest
    requires piece != Hole(Timestamp) ==> !(STAMP_PATTERN <= s)
    ensures Reading(s) == [piece] + Reading(rest)
  {
    var first := PrintPiece(piece);
    assert s[|first|..] == rest && forall i | 0 <= i < |first| :: s[i] == first[i];
    match piece {
      case Char(c) => if c == '%' { assert EscapeMeaning('%') == [Char('%')]; }
      case Hole(kind) =>
        if kind == Timestamp { assert STAMP_PATTERN <= s; } else { SpellingReads(kind); }
    }
  }

  /** Printing pieces and reading them back gives the same pieces. */
  lemma {:induction false} ReadingUndoesPrinting(pieces: seq<Piece>)
    requires Hole(Month) !in pieces
    ensures Reading(PrintPieces(pieces)) == pieces
  {
    if pieces != [] {
      ReadingUndoesPrinting(pieces[1..]);
      if pieces[0] != Hole(Timestamp) { OnlyTimestampLooksLikeOne(pieces); }
      PieceReads(pieces[0], PrintPieces(pieces), PrintPieces(pieces[1..]));
    }
  }

  // ----- the normal form of a token list -----

  /** Joins neighbouring characters into maximal literals. */
  function Merge(pieces: seq<Piece>): seq<Token> {
    if pieces == [] then []
    else
      var rest := Merge(pieces[1..]);
      match pieces[0]
      case Hole(kind) => [Field(kind)] + rest
      case Char(c) =>
        if rest != [] && rest[0].Literal? then [Literal([c] + rest[0].text)] + rest[1..]
        else [Literal([c])] + rest
  }

  /** The list with adjacent literals merged and empty ones dropped. */
  function Normal(tokens: seq<Token>): seq<Token> { Merge(Flatten(tokens)) }

  ghost predicate Merged(tokens: seq<Token>) {
    && Literal("") !in tokens
    && forall i | 0 < i < |tokens| :: !(tokens[i - 1].Literal? && tokens[i].Literal?)
  }

  lemma {:induction false} MergeLiteral(text: string, pieces: seq<Piece>)
    requires text != ""
    requires Merge(pieces) == [] || Merge(pieces)[0].Field?
    ensures Merge(Chars(text) + pieces) == [Literal(text)] + Merge(pieces)
  {
    var all := Chars(text) + pieces;
    assert all[1..] == Chars(text[1..]) + pieces;
    assert text == [text[0]] + text[1..];
    if text[1..] == "" {
      assert all[1..] == pieces;
      assert all[0] == Char(text[0]) && [text[0]] == text;
    } else {
      MergeLiteral(text[1..], pieces);
    }
  }

  /** A list that is already merged is its own normal form. */
  lemma {:induction false} MergedIsNormal(tokens: seq<Token>)
    requires Merged(tokens)
    ensures Normal(tokens) == tokens
  {
    if tokens != [] {
      var rest := tokens[1..];
      assert Merged(rest) by {
        forall i | 0 < i < |rest| ensures !(rest[i - 1].Literal? && rest[i].Literal?) {
          assert rest[i - 1] == tokens[i] && rest[i] == tokens[i + 1];
        }
      }
      MergedIsNormal(rest);
      match tokens[0] {
        case Literal(text) =>
          assert tokens[0] in tokens;
          MergeLiteral(text, Flatten(rest));
        case Field(kind) =>
          assert Flatten(tokens)[1..] == Flatten(rest);
      }
    }
  }

  lemma {:induction false} FlattenPrintable(tokens: seq<Token>)
    requires Printable(tokens)
    ensures Hole(Month) !in Flatten(tokens)
  {
    if tokens != [] {
      assert tokens[0] in tokens;
      FlattenPrintable(tokens[1..]);
    }
  }

  /** Printing any month-free token list and compiling the result gives the same
      list up to merging adjacent literals and dropping empty ones: the very same
      list when it was merged to begin with, and the same text for every record. */
  lemma PatternRoundTrip(tokens: seq<Token>)
    requires Printable(tokens)
    ensures Normal(Compile(Print(tokens))) == Normal(tokens)
    ensures Merged(tokens) ==> Normal(Compile(Print(tokens))) == tokens
    ensures forall env, r :: Render(env, Compile(Print(tokens)), r) == Render(env, tokens, r)
  {
    FlattenPrintable(tokens);
    ReadingUndoesPrinting(Flatten(tokens));
    CompileFromMeans(Print(tokens), "");
    assert Flatten(Compile(Print(tokens))) == Flatten(tokens);
    if Merged(tokens) { MergedIsNormal(tokens); }
    forall env, r ensures Render(env, Compile(Print(tokens)), r) == Render(env, tokens, r) {
      RenderIsTextOfFlatten(env, tokens, r);
      RenderIsTextOfFlatten(env, Compile(Print(tokens)), r);
    }
  }

  /** Any text, once every `%` is doubled, renders as itself. */
  lemma EscapedTextRendersAsItself(env: Platform, s: string, r: LogRecord)
    ensures Render(env, Compile(Escape(s)), r) == s
  {
    var tokens := [Literal(s)];
    assert Flatten(tokens) == Chars(s) + Flatten([]) == Chars(s);
    PatternRoundTrip(tokens);
    assert Render(env, tokens, r) == s + Render(env, [], r);
  }

  /** Every pattern can be replaced by the printed form of its own tokens. */
  lemma PrintedPatternMeansTheSame(env: Platform, p: string, r: LogRecord)
    ensures FormatLine(env, Print(Compile(p)), r) == FormatLine(env, p, r)
  {
    CompiledIsPrintable(p, "");
    PatternRoundTrip(Compile(p));
    CompilePreservesMeaning(env, p, r);
    CompilePreservesMeaning(env, Print(Compile(p)), r);
  }
}
