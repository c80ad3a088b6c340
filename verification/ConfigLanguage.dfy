/** The key=value configuration language: what a text means, how a configuration
    is written down, and the laws between the two. */
module ConfigLanguage {
  import opened Records
  import opened Decimals

  datatype LoggerMode = Sync | Async

  datatype Config = Config(
    mode: LoggerMode,
    level: Level,
    coloredOutput: bool,
    flushOnError: bool,
    pattern: string,
    enableConsole: bool,
    enableFile: bool,
    filePath: string,
    rotationEnabled: bool,
    rotationMaxFileSize: nat,
    rotationMaxFiles: nat,
    queueCapacity: nat,
    overflowPolicy: OverflowPolicy,
    flushIntervalMs: nat)

  const DEFAULTS := Config(Async, Info, true, true, "[%Y-%m-%d %H:%M:%S] [%l] [T%t] %m",
                           true, false, "logs/application.log", false, 10 * 1024 * 1024, 5,
                           65536, Block, 1000)

  /** One assignment, already understood. */
  datatype Setting =
    | Mode(mode: LoggerMode) | LogLevel(level: Level) | Pattern(text: string) | Capacity(size: nat)
    | Policy(policy: OverflowPolicy) | Console(on: bool) | FileOn(on: bool) | FilePath(text: string)
    | Rotation(on: bool) | RotationSize(size: nat) | RotationFiles(size: nat) | Interval(size: nat)
    | Colored(on: bool) | FlushOnError(on: bool)

  datatype Field =
    | FMode | FLevel | FPattern | FCapacity | FPolicy | FConsole | FFile | FFilePath
    | FRotation | FRotationSize | FRotationFiles | FInterval | FColored | FFlushOnError

  function FieldOf(s: Setting): Field {
    match s
    case Mode(_) => FMode
    case LogLevel(_) => FLevel
    case Pattern(_) => FPattern
    case Capacity(_) => FCapacity
    case Policy(_) => FPolicy
    case Console(_) => FConsole
    case FileOn(_) => FFile
    case FilePath(_) => FFilePath
    case Rotation(_) => FRotation
    case RotationSize(_) => FRotationSize
    case RotationFiles(_) => FRotationFiles
    case Interval(_) => FInterval
    case Colored(_) => FColored
    case FlushOnError(_) => FFlushOnError
  }

  function Assign(c: Config, s: Setting): Config {
    match s
    case Mode(m) => c.(mode := m)
    case LogLevel(l) => c.(level := l)
    case Pattern(t) => c.(pattern := t)
    case Capacity(n) => c.(queueCapacity := n)
    case Policy(p) => c.(overflowPolicy := p)
    case Console(b) => c.(enableConsole := b)
    case FileOn(b) => c.(enableFile := b)
    case FilePath(t) => c.(filePath := t)
    case Rotation(b) => c.(rotationEnabled := b)
    case RotationSize(n) => c.(rotationMaxFileSize := n)
    case RotationFiles(n) => c.(rotationMaxFiles := n)
    case Interval(n) => c.(flushIntervalMs := n)
    case Colored(b) => c.(coloredOutput := b)
    case FlushOnError(b) => c.(flushOnError := b)
  }

  function Get(c: Config, f: Field): Setting {
    match f
    case FMode => Mode(c.mode)
    case FLevel => LogLevel(c.level)
    case FPattern => Pattern(c.pattern)
    case FCapacity => Capacity(c.queueCapacity)
    case FPolicy => Policy(c.overflowPolicy)
    case FConsole => Console(c.enableConsole)
    case FFile => FileOn(c.enableFile)
    case FFilePath => FilePath(c.filePath)
    case FRotation => Rotation(c.rotationEnabled)
    case FRotationSize => RotationSize(c.rotationMaxFileSize)
    case FRotationFiles => RotationFiles(c.rotationMaxFiles)
    case FInterval => Interval(c.flushIntervalMs)
    case FColored => Colored(c.coloredOutput)
    case FFlushOnError => FlushOnError(c.flushOnError)
  }

  // ----- characters and words -----

  predicate IsSpace(c: char) { c in {' ', '\t', '\n', 11 as char, 12 as char, '\r'} }

  function TrimLeft(s: string): string {
    if s != "" && IsSpace(s[0]) then TrimLeft(s[1..]) else s
  }

  function TrimRight(s: string): string {
    if s != "" && IsSpace(s[|s| - 1]) then TrimRight(s[..|s| - 1]) else s
  }

  function Trim(s: string): string { TrimRight(TrimLeft(s)) }

  function LowerChar(c: char): char {
    if 'A' <= c <= 'Z' then (c as int + 32) as char else c
  }

  function Lower(s: string): (r: string)
    ensures |r| == |s|
  {
    seq(|s|, i requires 0 <= i < |s| => LowerChar(s[i]))
  }

  const SIZE_LIMIT: nat := 0x1_0000_0000_0000_0000

  predicate AllDigits(s: string) { forall i | 0 <= i < |s| :: IsDigit(s[i]) }

  function ParseSize(text: string): Option<nat> {
    var s := Trim(text);
    if s != "" && AllDigits(s) && Value(s) < SIZE_LIMIT then Some(Value(s)) else None
  }

  function ParseLevel(text: string): Option<Level> {
    var s := Lower(Trim(text));
    if s == "trace" then Some(Trace)
    else if s == "debug" then Some(Debug)
    else if s == "info" then Some(Info)
    else if s == "warn" || s == "warning" then Some(Warn)
    else if s == "error" then Some(Error)
    else if s == "fatal" then Some(Fatal)
    else if s == "off" then Some(Off)
    else None
  }

  function ParseMode(text: string): Option<LoggerMode> {
    var s := Lower(Trim(text));
    if s == "sync" || s == "synchronous" then Some(Sync)
    else if s == "async" || s == "asynchronous" then Some(Async)
    else None
  }

  function ParsePolicy(text: string): Option<OverflowPolicy> {
    var s := Lower(Trim(text));
    if s == "block" then Some(Block)
    else if s == "dropnewest" || s == "drop_newest" then Some(DropNewest)
    else if s == "dropoldest" || s == "drop_oldest" then Some(DropOldest)
    else if s == "discard" then Some(Discard)
    else None
  }

  function ParseBool(text: string): Option<bool> {
    var s := Lower(Trim(text));
    if s == "true" || s == "yes" || s == "on" || s == "1" then Some(true)
    else if s == "false" || s == "no" || s == "off" || s == "0" then Some(false)
    else None
  }

  // ----- what a line and a text mean -----

  /** The documented keys. */
  function FieldNamed(key: string): Option<Field> {
    if key == "mode" then Some(FMode)
    else if key == "level" then Some(FLevel)
    else if key == "pattern" then Some(FPattern)
    else if key == "queue_size" || key == "queue_capacity" then Some(FCapacity)
    else if key == "overflow_policy" then Some(FPolicy)
    else if key == "console" || key == "console_enabled" then Some(FConsole)
    else if key == "file" || key == "file_enabled" then Some(FFile)
    else if key == "file_path" then Some(FFilePath)
    else if key == "rotation" || key == "rotation_enabled" then Some(FRotation)
    else if key == "rotation_max_file_size" then Some(FRotationSize)
    else if key == "rotation_max_files" then Some(FRotationFiles)
    else if key == "flush_interval" || key == "flush_interval_ms" then Some(FInterval)
    else if key == "colored_output" then Some(FColored)
    else if key == "flush_on_error" then Some(FFlushOnError)
    else None
  }

  function MapOption<A, B>(o: Option<A>, f: A -> B): Option<B> {
    match o
    case None => None
    case Some(a) => Some(f(a))
  }

  function SettingFor(f: Field, value: string): Option<Setting> {
    match f
    case FMode => MapOption(ParseMode(value), m => Mode(m))
    case FLevel => MapOption(ParseLevel(value), l => LogLevel(l))
    case FPattern => Some(Pattern(value))
    case FCapacity => MapOption(ParseSize(value), n => Capacity(n))
    case FPolicy => MapOption(ParsePolicy(value), p => Policy(p))
    case FConsole => MapOption(ParseBool(value), b => Console(b))
    case FFile => MapOption(ParseBool(value), b => FileOn(b))
    case FFilePath => Some(FilePath(value))
    case FRotation => MapOption(ParseBool(value), b => Rotation(b))
    case FRotationSize => MapOption(ParseSize(value), n => RotationSize(n))
    case FRotationFiles => MapOption(ParseSize(value), n => RotationFiles(n))
    case FInterval => MapOption(ParseSize(value), n => Interval(n))
    case FColored => MapOption(ParseBool(value), b => Colored(b))
    case FFlushOnError => MapOption(ParseBool(value), b => FlushOnError(b))
  }

  function Decode(key: string, value: string): Option<Setting> {
    match FieldNamed(Lower(Trim(key)))
    case None => None
    case Some(f) => SettingFor(f, Trim(value))
  }

  /** Position of the first `=`, or the length of the string. */
  function FirstEquals(s: string): (i: nat)
    ensures i <= |s| && '=' !in s[..i] && (i < |s| ==> s[i] == '=')
  {
    if s == "" || s[0] == '=' then 0 else 1 + FirstEquals(s[1..])
  }

  function DecodeLine(line: string): Option<Setting> {
    var s := Trim(line);
    if s == "" || s[0] == '#' || FirstEquals(s) == |s| then None
    else Decode(s[..FirstEquals(s)], s[FirstEquals(s) + 1..])
  }

  function ApplyLine(c: Config, line: string): Config {
    match DecodeLine(line)
    case None => c
    case Some(s) => Assign(c, s)
  }

  function ApplyLines(c: Config, lines: seq<string>): Config
    decreases |lines|
  {
    if lines == [] then c else ApplyLines(ApplyLine(c, lines[0]), lines[1..])
  }

  /** Lines as getline yields them: a final newline ends the last line. */
  function Lines(text: string): (lines: seq<string>)
    ensures lines == [] <==> text == ""
  {
    if text == "" then []
    else if text[0] == '\n' then [""] + Lines(text[1..])
    else if |text| == 1 then [text]
    else Longer(text[0], Lines(text[1..]))
  }

  /** The same lines, the first with one more character in front. */
  function Longer(c: char, lines: seq<string>): (r: seq<string>)
    requires lines != []
    ensures |r| == |lines|
  {
    [[c] + lines[0]] + lines[1..]
  }

  lemma LongerConcat(c: char, a: seq<string>, b: seq<string>)
    requires a != []
    ensures Longer(c, a + b) == Longer(c, a) + b
  {}

  function Parse(text: string): Config { ApplyLines(DEFAULTS, Lines(text)) }

  // ----- last write wins -----

  lemma AssignSetsOneField(c: Config, s: Setting, f: Field)
    ensures Get(Assign(c, s), f) == if FieldOf(s) == f then s else Get(c, f)
  {}

  lemma FirstFieldsDetermine(c: Config, d: Config)
    requires forall f :: Get(c, f) == Get(d, f)
    ensures c.mode == d.mode && c.level == d.level && c.pattern == d.pattern
    ensures c.queueCapacity == d.queueCapacity && c.overflowPolicy == d.overflowPolicy
    ensures c.enableConsole == d.enableConsole && c.enableFile == d.enableFile
  {
    assert Get(c, FMode) == Get(d, FMode) && Get(c, FLevel) == Get(d, FLevel);
    assert Get(c, FPattern) == Get(d, FPattern) && Get(c, FCapacity) == Get(d, FCapacity);
    assert Get(c, FPolicy) == Get(d, FPolicy) && Get(c, FConsole) == Get(d, FConsole);
    assert Get(c, FFile) == Get(d, FFile);
  }

  lemma OtherFieldsDetermine(c: Config, d: Config)
    requires forall f :: Get(c, f) == Get(d, f)
    ensures c.filePath == d.filePath && c.rotationEnabled == d.rotationEnabled
    ensures c.rotationMaxFileSize == d.rotationMaxFileSize && c.rotationMaxFiles == d.rotationMaxFiles
    ensures c.flushIntervalMs == d.flushIntervalMs && c.coloredOutput == d.coloredOutput
    ensures c.flushOnError == d.flushOnError
  {
    assert Get(c, FFilePath) == Get(d, FFilePath) && Get(c, FRotation) == Get(d, FRotation);
    assert Get(c, FRotationSize) == Get(d, FRotationSize) && Get(c, FRotationFiles) == Get(d, FRotationFiles);
    assert Get(c, FInterval) == Get(d, FInterval) && Get(c, FColored) == Get(d, FColored);
    assert Get(c, FFlushOnError) == Get(d, FFlushOnError);
  }

  lemma FieldsDetermineConfig(c: Config, d: Config)
    requires forall f :: Get(c, f) == Get(d, f)
    ensures c == d
  {
    FirstFieldsDetermine(c, d);
    OtherFieldsDetermine(c, d);
  }

  /** The last line that validly sets the field, if any does. */
  function LastWrite(lines: seq<string>, f: Field): Option<Setting> {
    if lines == [] then None
    else
      var last := |lines| - 1;
      var here := DecodeLine(lines[last]);
      if here.Some? && FieldOf(here.value) == f then here else LastWrite(lines[..last], f)
  }

  lemma {:induction false} ApplyLinesConcat(c: Config, a: seq<string>, b: seq<string>)
    ensures ApplyLines(c, a + b) == ApplyLines(ApplyLines(c, a), b)
    decreases |a|
  {
    if a == [] {
      assert a + b == b;
    } else {
      ApplyLinesConcat(ApplyLine(c, a[0]), a[1..], b);
      assert (a + b)[1..] == a[1..] + b;
    }
  }

  lemma ApplyOne(c: Config, line: string)
    ensures ApplyLines(c, [line]) == ApplyLine(c, line)
  {
    assert [line][1..] == [];
  }

  /** Every field ends as its last valid line set it, or as it was. */
  lemma {:induction false} LastWriteWins(c: Config, lines: seq<string>, f: Field)
    ensures Get(ApplyLines(c, lines), f) ==
      match LastWrite(lines, f) case Some(s) => s case None => Get(c, f)
  {
    if lines != [] {
      var last := |lines| - 1;
      LastWriteWins(c, lines[..last], f);
      assert lines == lines[..last] + [lines[last]];
      ApplyLinesConcat(c, lines[..last], [lines[last]]);
      var before := ApplyLines(c, lines[..last]);
      ApplyOne(before, lines[last]);
      if DecodeLine(lines[last]).Some? { AssignSetsOneField(before, DecodeLine(lines[last]).value, f); }
    }
  }

  /** Lines in which nothing is set: blank, comment, without `=`, unknown key or
      invalid value. */
  predicate Ignored(line: string) { DecodeLine(line) == None }

  lemma {:induction false} LinesPrepend(text: string, k: nat)
    requires k <= |text| && text != "" && '\n' !in text[..k] && (k == |text| || text[k] == '\n')
    ensures Lines(text) == [text[..k]] + (if k == |text| then [] else Lines(text[k + 1..]))
  {
    if k == 0 {
    } else if |text| == 1 {
      assert text[..k] == text;
    } else {
      assert text[0] == text[..k][0];
      assert text[1..][..k - 1] == text[..k][1..];
      LinesPrepend(text[1..], k - 1);
      assert [text[0]] + text[1..][..k - 1] == text[..k];
    }
  }

  predicate WholeLines(text: string) { text == "" || text[|text| - 1] == '\n' }

  /** Cutting a text after a newline cuts its lines there. */
  lemma {:induction false} LinesConcat(a: string, b: string)
    requires WholeLines(a)
    ensures Lines(a + b) == Lines(a) + Lines(b)
  {
    if a == "" {
      assert a + b == b;
    } else {
      var t := a[1..];
      assert (a + b)[0] == a[0] && (a + b)[1..] == t + b;
      LinesConcat(t, b);
      if a[0] != '\n' {
        LongerConcat(a[0], Lines(t), Lines(b));
      }
    }
  }

  /** How a line can end: with a newline, or with the text. */
  predicate LineEnd(end: string, rest: string) { end == "\n" || (end == "" && rest == "") }

  lemma LinesOfOne(line: string, end: string)
    requires '\n' !in line && LineEnd(end, "")
    ensures Lines(line + end) == if line + end == "" then [] else [line]
  {
    if line + end != "" {
      LinesPrepend(line + end, |line|);
      if end != "" { assert (line + end)[|line| + 1..] == ""; }
    }
  }

  /** The meaning of a text that begins with a given line. */
  lemma FirstLineOf(c: Config, line: string, end: string, rest: string)
    requires '\n' !in line && LineEnd(end, rest)
    ensures ApplyLines(c, Lines((line + end) + rest)) == ApplyLines(ApplyLine(c, line), Lines(rest))
  {
    LinesOfOne(line, end);
    ApplyOne(c, line);
    if end == "" {
      assert line + end + rest == line + end;
    } else {
      LinesConcat(line + end, rest);
      ApplyLinesConcat(c, [line], Lines(rest));
    }
  }

  lemma ParseAfter(a: string, b: string)
    requires WholeLines(a)
    ensures Parse(a + b) == ApplyLines(ApplyLines(DEFAULTS, Lines(a)), Lines(b))
  {
    LinesConcat(a, b);
    ApplyLinesConcat(DEFAULTS, Lines(a), Lines(b));
  }

  /** An ignored line can be deleted, wherever it stands. */
  lemma DeletingIgnoredLine(a: string, line: string, end: string, b: string)
    requires WholeLines(a) && '\n' !in line && LineEnd(end, b) && Ignored(line)
    ensures Parse(a + ((line + end) + b)) == Parse(a + b)
  {
    ParseAfter(a, (line + end) + b);
    ParseAfter(a, b);
    FirstLineOf(ApplyLines(DEFAULTS, Lines(a)), line, end, b);
  }

  /** Neighbouring lines that set different fields can be swapped, wherever they stand. */
  lemma SwappingLines(a: string, x: string, y: string, end: string, b: string)
    requires WholeLines(a) && '\n' !in x && '\n' !in y && LineEnd(end, b)
    requires Ignored(x) || Ignored(y) || FieldOf(DecodeLine(x).value) != FieldOf(DecodeLine(y).value)
    ensures Parse(a + ((x + "\n") + ((y + end) + b))) == Parse(a + ((y + "\n") + ((x + end) + b)))
  {
    var c := ApplyLines(DEFAULTS, Lines(a));
    ParseAfter(a, (x + "\n") + ((y + end) + b));
    ParseAfter(a, (y + "\n") + ((x + end) + b));
    FirstLineOf(c, x, "\n", (y + end) + b);
    FirstLineOf(c, y, "\n", (x + end) + b);
    FirstLineOf(ApplyLine(c, x), y, end, b);
    FirstLineOf(ApplyLine(c, y), x, end, b);
    AssignmentsCommute(c, x, y);
  }

  lemma AssignmentsCommute(c: Config, x: string, y: string)
    requires Ignored(x) || Ignored(y) || FieldOf(DecodeLine(x).value) != FieldOf(DecodeLine(y).value)
    ensures ApplyLine(ApplyLine(c, x), y) == ApplyLine(ApplyLine(c, y), x)
  {
    if DecodeLine(x).Some? && DecodeLine(y).Some? {
      SettingsCommute(c, DecodeLine(x).value, DecodeLine(y).value);
    }
  }

  lemma SettingsCommute(c: Config, s: Setting, t: Setting)
    requires FieldOf(s) != FieldOf(t)
    ensures Assign(Assign(c, s), t) == Assign(Assign(c, t), s)
  {
    forall f ensures Get(Assign(Assign(c, s), t), f) == Get(Assign(Assign(c, t), s), f) {
      AssignSetsOneField(Assign(c, s), t, f);
      AssignSetsOneField(Assign(c, t), s, f);
      AssignSetsOneField(c, s, f);
      AssignSetsOneField(c, t, f);
    }
    FieldsDetermineConfig(Assign(Assign(c, s), t), Assign(Assign(c, t), s));
  }

  // ----- line endings -----

  /** Every LF written as CR LF. */
  function WithCrLf(text: string): string {
    if text == "" then "" else (if text[0] == '\n' then "\r\n" else [text[0]]) + WithCrLf(text[1..])
  }

  lemma {:induction false} TrimLeftSnoc(s: string, c: char)
    requires IsSpace(c)
    ensures TrimLeft(s + [c]) == if TrimLeft(s) == "" then "" else TrimLeft(s) + [c]
  {
    if s == "" {
      assert s + [c] == [c];
      assert TrimLeft([c][1..]) == "";
    } else if IsSpace(s[0]) {
      assert (s + [c])[1..] == s[1..] + [c];
      TrimLeftSnoc(s[1..], c);
    }
  }

  lemma TrimIgnoresTrailingSpace(s: string, c: char)
    requires IsSpace(c)
    ensures Trim(s + [c]) == Trim(s)
  {
    TrimLeftSnoc(s, c);
    var t := TrimLeft(s);
    assert (t + [c])[..|t|] == t;
  }

  ghost predicate SameUpToCr(a: seq<string>, b: seq<string>) {
    |a| == |b| && forall i | 0 <= i < |a| :: b[i] == a[i] || b[i] == a[i] + "\r"
  }

  lemma {:induction false} CrLfLines(text: string)
    ensures SameUpToCr(Lines(text), Lines(WithCrLf(text)))
  {
    if text != "" {
      var t, u := text[1..], WithCrLf(text[1..]);
      CrLfLines(t);
      if text[0] == '\n' {
        var whole := "\r\n" + u;
        assert whole[1..] == "\n" + u && whole[1..][1..] == u;
        assert Lines(whole[1..]) == [""] + Lines(u);
        assert ['\r'] + "" == "\r" && ([""] + Lines(u))[1..] == Lines(u);
        assert Lines(whole) == [['\r'] + ""] + Lines(u);
        assert [""][0] + "\r" == "\r";
      } else {
        var whole := [text[0]] + u;
        assert whole[1..] == u;
        if t == "" {
          assert u == "" && whole == text;
        } else {
          var a, b := Lines(t), Lines(u);
          assert u != "";
          assert Lines(whole) == [[text[0]] + b[0]] + b[1..];
          assert [text[0]] + (a[0] + "\r") == ([text[0]] + a[0]) + "\r";
        }
      }
    }
  }

  lemma {:induction false} SameLinesSameConfig(c: Config, a: seq<string>, b: seq<string>)
    requires SameUpToCr(a, b)
    ensures ApplyLines(c, a) == ApplyLines(c, b)
    decreases |a|
  {
    if a != [] {
      assert a[0] + "\r" == a[0] + ['\r'];
      TrimIgnoresTrailingSpace(a[0], '\r');
      assert ApplyLine(c, a[0]) == ApplyLine(c, b[0]);
      SameLinesSameConfig(ApplyLine(c, a[0]), a[1..], b[1..]);
    }
  }

  /** Line endings do not matter. */
  lemma CrLfParsesTheSame(text: string)
    ensures Parse(WithCrLf(text)) == Parse(text)
  {
    CrLfLines(text);
    SameLinesSameConfig(DEFAULTS, Lines(text), Lines(WithCrLf(text)));
  }
}
