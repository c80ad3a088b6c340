/** The documented pattern table, row by row, in the text of formatted lines: what each
    token at the front of a pattern adds, whatever follows. With the rows for ordinary
    characters and for the empty pattern they determine every line. */
module PatternTable {
  import opened Records
  import opened Decimals
  import opened Patterns

  /** Taking the first pieces off a line. */
  lemma LineCons(env: Platform, p: string, piece: Piece, rest: string, r: LogRecord)
    requires Reading(p) == [piece] + Reading(rest)
    ensures FormatLine(env, p, r) == PieceText(env, piece, r) + FormatLine(env, rest, r)
  {
    assert Reading(p)[1..] == Reading(rest);
    Associative(PieceText(env, piece, r), Text(env, Reading(rest), r), "\n");
  }

  lemma EmptyPattern(env: Platform, r: LogRecord)
    ensures FormatLine(env, "", r) == "\n"
  {}

  /** A character other than `%` stands for itself. */
  lemma OrdinaryRow(env: Platform, c: char, p: string, r: LogRecord)
    requires c != '%'
    ensures FormatLine(env, [c] + p, r) == [c] + FormatLine(env, p, r)
  {
    var q := [c] + p;
    assert q[0] == c && q[1..] == p && STAMP_PATTERN[0] == '%';
    LineCons(env, q, Char(c), p, r);
  }

  /** The full local timestamp, which wins over the single tokens it is made of. */
  lemma TimestampRow(env: Platform, p: string, r: LogRecord)
    ensures FormatLine(env, "%Y-%m-%d %H:%M:%S" + p, r)
         == env.stamp(env.toSeconds(r.timestamp)) + FormatLine(env, p, r)
  {
    var q := "%Y-%m-%d %H:%M:%S" + p;
    assert STAMP_PATTERN <= q && q[|STAMP_PATTERN|..] == p;
    LineCons(env, q, Hole(Timestamp), p, r);
  }

  lemma EscapeRow(env: Platform, c: char, kind: Kind, p: string, r: LogRecord)
    requires Documented(c) == Some(kind) && !(STAMP_PATTERN <= ['%', c] + p)
    ensures FormatLine(env, ['%', c] + p, r) == FieldText(env, kind, r) + FormatLine(env, p, r)
  {
    var q := ['%', c] + p;
    assert q[0] == '%' && q[1] == c && q[2..] == p && EscapeMeaning(c) == [Hole(kind)];
    LineCons(env, q, Hole(kind), p, r);
  }

  /** Unless the pattern goes on as the full timestamp. */
  lemma YearRow(env: Platform, p: string, r: LogRecord)
    requires !("%Y-%m-%d %H:%M:%S" <= "%Y" + p)
    ensures FormatLine(env, "%Y" + p, r) == env.year(env.toSeconds(r.timestamp)) + FormatLine(env, p, r)
  {
    EscapeRow(env, 'Y', Year, p, r);
  }

  /** No other token is confused with the full timestamp. */
  lemma NotAStamp(c: char, p: string)
    requires c != 'Y'
    ensures !(STAMP_PATTERN <= ['%', c] + p)
  {
    assert STAMP_PATTERN[1] == 'Y' && (['%', c] + p)[1] == c;
  }

  // ----- the documented table: a token and its text; the year has its own row -----

  predicate TimeToken(env: Platform, token: string, text: string, r: LogRecord) {
    var second := env.toSeconds(r.timestamp);
    || (token == "%d" && text == env.day(second))
    || (token == "%H" && text == env.hour(second))
    || (token == "%M" && text == env.minute(second))
    || (token == "%S" && text == env.second(second))
  }

  predicate LevelToken(token: string, text: string, level: Level) {
    && (token == "%l" || token == "%L")
    && match level
       case Trace => text == "TRACE"
       case Debug => text == "DEBUG"
       case Info => text == "INFO"
       case Warn => text == "WARN"
       case Error => text == "ERROR"
       case Fatal => text == "FATAL"
       case Off => text == "OFF"
  }

  predicate NumberToken(env: Platform, token: string, text: string, r: LogRecord) {
    || (token == "%t" && text == Decimal(env.threadHash(r.threadId)))
    || (token == "%p" && text == Decimal(r.processId))
    || (token == "%#" && text == Decimal(r.line))
  }

  predicate TextToken(token: string, text: string, r: LogRecord) {
    || (token == "%f" && text == r.file)
    || (token == "%F" && text == r.func)
    || (token == "%n" && text == r.loggerName)
    || (token == "%m" && text == r.message)
    || (token == "%v" && text == r.message)
  }

  predicate InTable(env: Platform, token: string, text: string, r: LogRecord) {
    || TimeToken(env, token, text, r) || LevelToken(token, text, r.level)
    || NumberToken(env, token, text, r) || TextToken(token, text, r)
  }

  /** The compiler's field for a token of the table. */
  ghost predicate Stands(env: Platform, token: string, kind: Kind, text: string, r: LogRecord) {
    && |token| == 2 && token[0] == '%' && token[1] != 'Y'
    && Documented(token[1]) == Some(kind) && text == FieldText(env, kind, r)
  }

  lemma TimeKind(env: Platform, token: string, text: string, r: LogRecord) returns (kind: Kind)
    requires TimeToken(env, token, text, r)
    ensures Stands(env, token, kind, text, r)
  {
    kind := if token[1] == 'd' then Day else if token[1] == 'H' then Hour
            else if token[1] == 'M' then Minute else Second;
  }

  lemma LevelKind(env: Platform, token: string, text: string, r: LogRecord)
    requires LevelToken(token, text, r.level)
    ensures Stands(env, token, LevelName, text, r)
  {}

  lemma NumberKind(env: Platform, token: string, text: string, r: LogRecord) returns (kind: Kind)
    requires NumberToken(env, token, text, r)
    ensures Stands(env, token, kind, text, r)
  {
    kind := if token[1] == 't' then ThreadId else if token[1] == 'p' then ProcessId else Line;
  }

  lemma TextKind(env: Platform, token: string, text: string, r: LogRecord) returns (kind: Kind)
    requires TextToken(token, text, r)
    ensures Stands(env, token, kind, text, r)
  {
    kind := if token[1] == 'f' then File else if token[1] == 'F' then Function
            else if token[1] == 'n' then LoggerName else Message;
  }

  lemma StandsFor(env: Platform, token: string, kind: Kind, text: string, p: string, r: LogRecord)
    requires Stands(env, token, kind, text, r)
    ensures FormatLine(env, token + p, r) == text + FormatLine(env, p, r)
  {
    assert token == ['%', token[1]];
    NotAStamp(token[1], p);
    EscapeRow(env, token[1], kind, p, r);
  }

  /** A documented token adds its text, whatever follows. */
  lemma TableRow(env: Platform, token: string, text: string, p: string, r: LogRecord)
    requires InTable(env, token, text, r)
    ensures FormatLine(env, token + p, r) == text + FormatLine(env, p, r)
  {
    var kind := LevelName;
    if TimeToken(env, token, text, r) { kind := TimeKind(env, token, text, r); }
    else if LevelToken(token, text, r.level) { LevelKind(env, token, text, r); }
    else if NumberToken(env, token, text, r) { kind := NumberKind(env, token, text, r); }
    else { kind := TextKind(env, token, text, r); }
    StandsFor(env, token, kind, text, p, r);
  }

  /** A pattern that is a documented token alone. */
  lemma TokenAlone(env: Platform, token: string, text: string, r: LogRecord)
    requires InTable(env, token, text, r)
    ensures FormatLine(env, token, r) == text + "\n"
  {
    TableRow(env, token, text, "", r);
    assert token + "" == token;
  }

  /** `%%` is a percent sign, and so is a `%` that ends the pattern. */
  lemma PercentRows(env: Platform, p: string, r: LogRecord)
    ensures FormatLine(env, "%%" + p, r) == "%" + FormatLine(env, p, r)
    ensures FormatLine(env, "%", r) == "%\n"
  {
    var q := "%%" + p;
    NotAStamp('%', p);
    assert q == ['%', '%'] + p && q[0] == '%' && q[1] == '%' && q[2..] == p;
    LineCons(env, q, Char('%'), p, r);
    assert Text(env, [Char('%')], r) == "%" + Text(env, [], r);
  }

  /** An escape that is not documented stands for itself. */
  lemma UnknownRow(env: Platform, c: char, p: string, r: LogRecord)
    requires c !in "YdHMSlLtpfF#nmv%"
    ensures FormatLine(env, ['%', c] + p, r) == ['%', c] + FormatLine(env, p, r)
  {
    var q := ['%', c] + p;
    NotKnown(c);
    NotAStamp(c, p);
    assert q[0] == '%' && q[1] == c && q[2..] == p;
    assert Reading(q) == [Char('%'), Char(c)] + Reading(p);
    TextConcat(env, [Char('%'), Char(c)], Reading(p), r);
    assert [Char('%'), Char(c)] == Chars(['%', c]);
    TextOfChars(env, ['%', c], r);
    Associative(['%', c], Text(env, Reading(p), r), "\n");
  }

  lemma NotKnown(c: char)
    requires c !in "YdHMSlLtpfF#nmv%"
    ensures Documented(c) == None && c != '%' && c != 'Y'
  {
    var known := "YdHMSlLtpfF#nmv%";
    assert known[0] != c && known[1] != c && known[2] != c && known[3] != c;
    assert known[4] != c && known[5] != c && known[6] != c && known[7] != c;
    assert known[8] != c && known[9] != c && known[10] != c && known[11] != c;
    assert known[12] != c && known[13] != c && known[14] != c && known[15] != c;
  }

  /** A text without `%` in front of a pattern stands for itself. */
  lemma {:induction false} TextInFront(env: Platform, s: string, p: string, r: LogRecord)
    requires '%' !in s
    ensures FormatLine(env, s + p, r) == s + FormatLine(env, p, r)
  {
    if s == "" {
      assert s + p == p;
    } else {
      TextInFront(env, s[1..], p, r);
      OrdinaryRow(env, s[0], s[1..] + p, r);
      assert s + p == [s[0]] + (s[1..] + p) && s == [s[0]] + s[1..];
    }
  }

  /** A text without `%`, a documented token, and what follows. */
  lemma TextThenToken(env: Platform, s: string, token: string, text: string, p: string, r: LogRecord)
    requires '%' !in s && InTable(env, token, text, r)
    ensures FormatLine(env, s + (token + p), r) == s + (text + FormatLine(env, p, r))
  {
    TextInFront(env, s, token + p, r);
    TableRow(env, token, text, p, r);
  }

  lemma DefaultCut()
    ensures DEFAULT_PATTERN == "[" + ("%Y-%m-%d %H:%M:%S" + ("] [" + ("%l" + ("] [T" + ("%t" + ("] " + ("%m" + "")))))))
  {}

  /** The line of the default pattern: `level` is the record's level name. */
  lemma DefaultLine(env: Platform, r: LogRecord, level: string)
    requires LevelToken("%l", level, r.level)
    ensures FormatLine(env, DEFAULT_PATTERN, r)
         == "[" + (env.stamp(env.toSeconds(r.timestamp)) + ("] [" + (level + ("] [T"
          + (Decimal(env.threadHash(r.threadId)) + ("] " + (r.message + "\n")))))))
  {
    var p3 := "] " + ("%m" + "");
    var p2 := "] [T" + ("%t" + p3);
    var p1 := "] [" + ("%l" + p2);
    DefaultCut();
    TextInFront(env, "[", "%Y-%m-%d %H:%M:%S" + p1, r);
    TimestampRow(env, p1, r);
    TextThenToken(env, "] [", "%l", level, p2, r);
    TextThenToken(env, "] [T", "%t", Decimal(env.threadHash(r.threadId)), p3, r);
    TextThenToken(env, "] ", "%m", r.message, "", r);
    EmptyPattern(env, r);
  }
}
