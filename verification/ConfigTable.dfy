/** The documented key table, field by field of the configuration, and whole texts. */
module ConfigTable {
  import opened Records
  import opened ConfigLanguage
  import opened ConfigSpelling
  import Patterns

  /** The line gives this key, in any case, this value, with any white space around
      either. */
  ghost predicate Gives(line: string, key: string, v: string) {
    TrimStable(v) && exists w1, k, w2, w3, w4 :: Written(line, key, v, w1, k, w2, w3, w4)
  }

  ghost predicate Written(line: string, key: string, v: string, w1: string, k: string, w2: string, w3: string,
                          w4: string) {
    && AllSpace(w1) && AllSpace(w2) && AllSpace(w3) && AllSpace(w4) && AnyCase(k, key)
    && line == w1 + (k + w2 + "=" + w3 + v) + w4
  }

  lemma GivenSetting(line: string, s: Setting, key: string, v: string)
    requires Gives(line, key, v) && key in KeyWords(FieldOf(s)) && Spells(v, s)
    ensures DecodeLine(line) == Some(s)
  {
    var w1, k, w2, w3, w4 :| Written(line, key, v, w1, k, w2, w3, w4);
    ShapeDecodes(line, s, w1, k, w2, w3, v, w4);
  }

  // ----- the documented table: which field of the configuration changes, and to what -----

  ghost predicate ModeWord(v: string, m: LoggerMode) {
    OneOf(v, if m == Sync then ["sync", "synchronous"] else ["async", "asynchronous"])
  }

  ghost predicate LevelWord(v: string, l: Level) {
    match l
    case Trace => AnyCase(v, "trace")
    case Debug => AnyCase(v, "debug")
    case Info => AnyCase(v, "info")
    case Warn => AnyCase(v, "warn") || AnyCase(v, "warning")
    case Error => AnyCase(v, "error")
    case Fatal => AnyCase(v, "fatal")
    case Off => AnyCase(v, "off")
  }

  ghost predicate PolicyWord(v: string, p: OverflowPolicy) {
    match p
    case Block => AnyCase(v, "block")
    case DropNewest => AnyCase(v, "drop_newest") || AnyCase(v, "dropnewest")
    case DropOldest => AnyCase(v, "drop_oldest") || AnyCase(v, "dropoldest")
    case Discard => AnyCase(v, "discard")
  }

  ghost predicate Switch(v: string, on: bool) {
    if on then OneOf(v, ["true", "yes", "on", "1"]) else OneOf(v, ["false", "no", "off", "0"])
  }

  // A key, the value it was given, and the configuration that c becomes.

  ghost predicate NamedRow(c: Config, key: string, v: string, d: Config) {
    || (key == "mode" && exists m :: ModeWord(v, m) && d == c.(mode := m))
    || (key == "level" && exists l :: LevelWord(v, l) && d == c.(level := l))
    || (key == "overflow_policy" && exists p :: PolicyWord(v, p) && d == c.(overflowPolicy := p))
  }

  predicate TextRow(c: Config, key: string, v: string, d: Config) {
    || (key == "pattern" && d == c.(pattern := v))
    || (key == "file_path" && d == c.(filePath := v))
  }

  predicate SinkRow(c: Config, key: string, on: bool, d: Config) {
    || ((key == "console" || key == "console_enabled") && d == c.(enableConsole := on))
    || ((key == "file" || key == "file_enabled") && d == c.(enableFile := on))
  }

  predicate RotationRow(c: Config, key: string, on: bool, d: Config) {
    (key == "rotation" || key == "rotation_enabled") && d == c.(rotationEnabled := on)
  }

  predicate OutputRow(c: Config, key: string, on: bool, d: Config) {
    || (key == "colored_output" && d == c.(coloredOutput := on))
    || (key == "flush_on_error" && d == c.(flushOnError := on))
  }

  predicate SwitchRow(c: Config, key: string, on: bool, d: Config) {
    SinkRow(c, key, on, d) || RotationRow(c, key, on, d) || OutputRow(c, key, on, d)
  }

  predicate SizeRow(c: Config, key: string, n: nat, d: Config) {
    || ((key == "queue_size" || key == "queue_capacity") && d == c.(queueCapacity := n))
    || (key == "rotation_max_file_size" && d == c.(rotationMaxFileSize := n))
    || (key == "rotation_max_files" && d == c.(rotationMaxFiles := n))
    || ((key == "flush_interval" || key == "flush_interval_ms") && d == c.(flushIntervalMs := n))
  }

  ghost predicate Row(c: Config, key: string, v: string, d: Config) {
    || NamedRow(c, key, v, d) || TextRow(c, key, v, d)
    || (exists on :: Switch(v, on) && SwitchRow(c, key, on, d))
    || (exists n :: SpellsSize(v, n) && SizeRow(c, key, n, d))
  }

  /** By the documented table the line turns configuration c into d. */
  ghost predicate TableRow(c: Config, line: string, d: Config) {
    exists key, v :: Gives(line, key, v) && Row(c, key, v, d)
  }

  lemma LevelSpelled(v: string, l: Level)
    ensures LevelWord(v, l) <==> OneOf(v, LevelWords(l))
  {
    if LevelWord(v, l) { assert AnyCase(v, LevelWords(l)[0]) || AnyCase(v, LevelWords(l)[|LevelWords(l)| - 1]); }
  }

  lemma PolicySpelled(v: string, p: OverflowPolicy)
    ensures PolicyWord(v, p) <==> OneOf(v, PolicyWords(p))
  {
    if PolicyWord(v, p) { assert AnyCase(v, PolicyWords(p)[0]) || AnyCase(v, PolicyWords(p)[|PolicyWords(p)| - 1]); }
  }

  /** The setting a key with its value stands for. */
  ghost predicate Means(c: Config, key: string, v: string, s: Setting, d: Config) {
    key in KeyWords(FieldOf(s)) && Spells(v, s) && Assign(c, s) == d
  }

  lemma NamedRowMeans(c: Config, key: string, v: string, d: Config) returns (s: Setting)
    requires NamedRow(c, key, v, d)
    ensures Means(c, key, v, s, d)
  {
    if key == "mode" {
      var m :| ModeWord(v, m) && d == c.(mode := m);
      s := Mode(m);
    } else if key == "level" {
      var l :| LevelWord(v, l) && d == c.(level := l);
      s := LogLevel(l);
      LevelSpelled(v, l);
    } else {
      var p :| PolicyWord(v, p) && d == c.(overflowPolicy := p);
      s := Policy(p);
      PolicySpelled(v, p);
    }
  }

  lemma TextRowMeans(c: Config, key: string, v: string, d: Config) returns (s: Setting)
    requires TextRow(c, key, v, d)
    ensures Means(c, key, v, s, d)
  {
    s := if key == "pattern" then Pattern(v) else FilePath(v);
  }

  lemma SinkRowMeans(c: Config, key: string, v: string, on: bool, d: Config) returns (s: Setting)
    requires Switch(v, on) && SinkRow(c, key, on, d)
    ensures Means(c, key, v, s, d)
  {
    s := if key == "console" || key == "console_enabled" then Console(on) else FileOn(on);
  }

  lemma RotationRowMeans(c: Config, key: string, v: string, on: bool, d: Config) returns (s: Setting)
    requires Switch(v, on) && RotationRow(c, key, on, d)
    ensures Means(c, key, v, s, d)
  {
    s := Rotation(on);
  }

  lemma OutputRowMeans(c: Config, key: string, v: string, on: bool, d: Config) returns (s: Setting)
    requires Switch(v, on) && OutputRow(c, key, on, d)
    ensures Means(c, key, v, s, d)
  {
    s := if key == "colored_output" then Colored(on) else FlushOnError(on);
  }

  lemma SwitchRowMeans(c: Config, key: string, v: string, on: bool, d: Config) returns (s: Setting)
    requires Switch(v, on) && SwitchRow(c, key, on, d)
    ensures Means(c, key, v, s, d)
  {
    if SinkRow(c, key, on, d) { s := SinkRowMeans(c, key, v, on, d); }
    else if RotationRow(c, key, on, d) { s := RotationRowMeans(c, key, v, on, d); }
    else { s := OutputRowMeans(c, key, v, on, d); }
  }

  lemma SizeRowMeans(c: Config, key: string, v: string, n: nat, d: Config) returns (s: Setting)
    requires SpellsSize(v, n) && SizeRow(c, key, n, d)
    ensures Means(c, key, v, s, d)
  {
    s := if key == "queue_size" || key == "queue_capacity" then Capacity(n)
         else if key == "rotation_max_file_size" then RotationSize(n)
         else if key == "rotation_max_files" then RotationFiles(n)
         else Interval(n);
  }

  lemma RowMeans(c: Config, key: string, v: string, d: Config) returns (s: Setting)
    requires Row(c, key, v, d)
    ensures Means(c, key, v, s, d)
  {
    if NamedRow(c, key, v, d) {
      s := NamedRowMeans(c, key, v, d);
    } else if TextRow(c, key, v, d) {
      s := TextRowMeans(c, key, v, d);
    } else if on :| Switch(v, on) && SwitchRow(c, key, on, d) {
      s := SwitchRowMeans(c, key, v, on, d);
    } else {
      var n :| SpellsSize(v, n) && SizeRow(c, key, n, d);
      s := SizeRowMeans(c, key, v, n, d);
    }
  }

  lemma RowSets(c: Config, line: string, d: Config)
    requires TableRow(c, line, d)
    ensures DecodeLine(line).Some? && ApplyLine(c, line) == d
  {
    var key, v :| Gives(line, key, v) && Row(c, key, v, d);
    var s := RowMeans(c, key, v, d);
    GivenSetting(line, s, key, v);
  }

  /** The key and the value of a line that sets something. */
  lemma SetIsGiven(line: string, s: Setting) returns (key: string, v: string)
    requires DecodeLine(line) == Some(s)
    ensures key in KeyWords(FieldOf(s)) && Gives(line, key, v) && Spells(v, s)
  {
    DecodedHasShape(line, s);
    var w1, k, w2, w3, v', w4 :| Shape(line, s, w1, k, w2, w3, v', w4);
    var i :| 0 <= i < |KeyWords(FieldOf(s))| && AnyCase(k, KeyWords(FieldOf(s))[i]);
    key, v := KeyWords(FieldOf(s))[i], v';
    assert Written(line, key, v, w1, k, w2, w3, w4);
  }

  lemma NamedIsRow(c: Config, s: Setting, key: string, v: string)
    requires (s.Mode? || s.LogLevel? || s.Policy?) && key in KeyWords(FieldOf(s)) && Spells(v, s)
    ensures NamedRow(c, key, v, Assign(c, s))
  {
    match s {
      case Mode(m) =>
      case LogLevel(l) => LevelSpelled(v, l);
      case Policy(p) => PolicySpelled(v, p);
    }
  }

  lemma SwitchIsRow(c: Config, s: Setting, key: string, v: string)
    requires s.Console? || s.FileOn? || s.Rotation? || s.Colored? || s.FlushOnError?
    requires key in KeyWords(FieldOf(s)) && Spells(v, s)
    ensures Switch(v, s.on) && SwitchRow(c, key, s.on, Assign(c, s))
  {}

  lemma SizeIsRow(c: Config, s: Setting, key: string, v: string)
    requires s.Capacity? || s.RotationSize? || s.RotationFiles? || s.Interval?
    requires key in KeyWords(FieldOf(s)) && Spells(v, s)
    ensures SpellsSize(v, s.size) && SizeRow(c, key, s.size, Assign(c, s))
  {}

  lemma SettingIsRow(c: Config, s: Setting, key: string, v: string)
    requires key in KeyWords(FieldOf(s)) && Spells(v, s)
    ensures Row(c, key, v, Assign(c, s))
  {
    if s.Mode? || s.LogLevel? || s.Policy? { NamedIsRow(c, s, key, v); }
    else if s.Capacity? || s.RotationSize? || s.RotationFiles? || s.Interval? { SizeIsRow(c, s, key, v); }
    else if !s.Pattern? && !s.FilePath? { SwitchIsRow(c, s, key, v); }
  }

  lemma SetIsRow(c: Config, line: string, s: Setting)
    requires DecodeLine(line) == Some(s)
    ensures TableRow(c, line, Assign(c, s))
  {
    var key, v := SetIsGiven(line, s);
    SettingIsRow(c, s, key, v);
  }

  /** A line does to a configuration exactly what the documented table says: one field
      changes, or, if no row applies, nothing does. */
  lemma TableIff(c: Config, line: string, d: Config)
    ensures ApplyLine(c, line) == d <==>
      TableRow(c, line, d) || (d == c && forall e :: !TableRow(c, line, e))
  {
    if DecodeLine(line).Some? { SetIsRow(c, line, DecodeLine(line).value); }
    forall e | TableRow(c, line, e) ensures DecodeLine(line).Some? && ApplyLine(c, line) == e {
      RowSets(c, line, e);
    }
  }

  lemma NameIsWord(l: Level)
    ensures TrimStable(Patterns.NameOf(l)) && AnyCase(Patterns.NameOf(l), LevelWords(l)[0])
  {}

  /** The level names that lines show can be written in a configuration. */
  lemma LevelNamesRead(l: Level)
    ensures ParseLevel(Patterns.NameOf(l)) == Some(l)
  {
    NameIsWord(l);
    LevelIff(Patterns.NameOf(l), l);
  }

  // ----- whole texts -----

  /** The configuration of a text that sets nothing. */
  lemma EmptyTextGivesDefaults()
    ensures Parse("").mode == Async && Parse("").level == Info
    ensures Parse("").coloredOutput && Parse("").flushOnError
    ensures Parse("").pattern == "[%Y-%m-%d %H:%M:%S] [%l] [T%t] %m"
    ensures Parse("").enableConsole && !Parse("").enableFile && Parse("").filePath == "logs/application.log"
    ensures !Parse("").rotationEnabled
    ensures Parse("").rotationMaxFileSize == 10485760 && Parse("").rotationMaxFiles == 5
    ensures Parse("").queueCapacity == 65536 && Parse("").overflowPolicy == Block
    ensures Parse("").flushIntervalMs == 1000
  {}

  /** The lines one after the other, each ended by a newline. */
  function JoinLines(lines: seq<string>): string {
    if lines == [] then "" else (lines[0] + "\n") + JoinLines(lines[1..])
  }

  /** A text of whole lines means its lines. */
  lemma {:induction false} JoinedLinesRead(c: Config, lines: seq<string>)
    requires forall i | 0 <= i < |lines| :: '\n' !in lines[i]
    ensures ApplyLines(c, Lines(JoinLines(lines))) == ApplyLines(c, lines)
    decreases |lines|
  {
    if lines != [] {
      FirstLineOf(c, lines[0], "\n", JoinLines(lines[1..]));
      JoinedLinesRead(ApplyLine(c, lines[0]), lines[1..]);
    }
  }

  /** A line that starts with `#`, after white space or not, sets nothing. */
  lemma CommentSetsNothing(c: Config, w: string, comment: string)
    requires AllSpace(w) && comment != "" && comment[0] == '#'
    ensures ApplyLine(c, w + comment) == c
  {
    var w1, w2 := TrimCuts(comment);
    assert w1 != "" ==> White(comment[0]);
    assert w + comment == w + Trim(comment) + w2;
    TrimsTo(w, Trim(comment), w2);
    if Trim(comment) != "" { assert Trim(comment)[0] == comment[0]; }
  }
}
