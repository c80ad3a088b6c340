/** Writing a configuration down in the documented format, and reading it back. */
module ConfigPrinting {
  import opened Records
  import opened Decimals
  import opened ConfigLanguage
  import opened ConfigSpelling

  /** The first documented word stands for the rest. */
  function KeyOf(f: Field): string { KeyWords(f)[0] }

  function ValueText(s: Setting): string {
    match s
    case Mode(m) => ModeWords(m)[0]
    case LogLevel(l) => LevelWords(l)[0]
    case Pattern(t) => t
    case Capacity(n) => Decimal(n)
    case Policy(p) => PolicyWords(p)[0]
    case Console(b) => BoolWords(b)[0]
    case FileOn(b) => BoolWords(b)[0]
    case FilePath(t) => t
    case Rotation(b) => BoolWords(b)[0]
    case RotationSize(n) => Decimal(n)
    case RotationFiles(n) => Decimal(n)
    case Interval(n) => Decimal(n)
    case Colored(b) => BoolWords(b)[0]
    case FlushOnError(b) => BoolWords(b)[0]
  }

  function PrintSetting(s: Setting): string { KeyOf(FieldOf(s)) + "=" + ValueText(s) }

  const FIELDS: seq<Field> := [FMode, FLevel, FPattern, FCapacity, FPolicy, FConsole, FFile, FFilePath,
                               FRotation, FRotationSize, FRotationFiles, FInterval, FColored, FFlushOnError]

  function PrintFields(c: Config, fields: seq<Field>): string {
    if fields == [] then "" else PrintSetting(Get(c, fields[0])) + "\n" + PrintFields(c, fields[1..])
  }

  function Print(c: Config): string { PrintFields(c, FIELDS) }

  /** What the format can carry: sizes below 2^64, texts on one line without white
      space at their ends. */
  predicate Representable(s: Setting) {
    match s
    case Pattern(t) => TrimStable(t) && '\n' !in t
    case FilePath(t) => TrimStable(t) && '\n' !in t
    case Capacity(n) => n <= 18446744073709551615
    case RotationSize(n) => n <= 18446744073709551615
    case RotationFiles(n) => n <= 18446744073709551615
    case Interval(n) => n <= 18446744073709551615
    case _ => true
  }

  // ----- printed settings are spelled as documented -----

  lemma LowerWordStays(s: string)
    requires LowerWord(s)
    ensures Lower(s) == s && TrimStable(s) && '\n' !in s
  {
    assert forall i | 0 <= i < |s| :: LowerChar(s[i]) == s[i];
  }

  lemma DecimalIsSpelling(n: nat)
    ensures TrimStable(Decimal(n)) && '\n' !in Decimal(n)
    ensures SpellsSize(Decimal(n), n) <==> n <= 18446744073709551615
  {
    DecimalRoundTrip(n);
  }

  /** A number reads back exactly when it fits the machine's size type. */
  lemma SizeReads(n: nat)
    ensures ParseSize(Decimal(n)) == if n <= 18446744073709551615 then Some(n) else None
  {
    DecimalIsSpelling(n);
    TrimsAlone(Decimal(n));
    DecimalRoundTrip(n);
  }

  lemma LevelIsWord(l: Level)
    ensures LowerWord(LevelWords(l)[0])
  {}

  lemma PolicyIsWord(p: OverflowPolicy)
    ensures LowerWord(PolicyWords(p)[0])
  {}

  lemma ModeIsWord(m: LoggerMode)
    ensures LowerWord(ModeWords(m)[0])
  {}

  lemma BoolIsWord(b: bool)
    ensures LowerWord(BoolWords(b)[0])
  {}

  lemma SizeIsSpelled(s: Setting)
    requires s.Capacity? || s.RotationSize? || s.RotationFiles? || s.Interval?
    requires Representable(s)
    ensures TrimStable(ValueText(s)) && '\n' !in ValueText(s) && Spells(ValueText(s), s)
  {
    DecimalIsSpelling(s.size);
  }

  lemma BoolIsSpelled(s: Setting)
    requires s.Console? || s.FileOn? || s.Rotation? || s.Colored? || s.FlushOnError?
    ensures TrimStable(ValueText(s)) && '\n' !in ValueText(s) && Spells(ValueText(s), s)
  {
    BoolIsWord(s.on);
    LowerWordStays(BoolWords(s.on)[0]);
  }

  lemma ValueIsSpelled(s: Setting)
    requires Representable(s)
    ensures TrimStable(ValueText(s)) && '\n' !in ValueText(s) && Spells(ValueText(s), s)
  {
    match s {
      case Mode(m) => ModeIsWord(m); LowerWordStays(ModeWords(m)[0]);
      case LogLevel(l) => LevelIsWord(l); LowerWordStays(LevelWords(l)[0]);
      case Policy(p) => PolicyIsWord(p); LowerWordStays(PolicyWords(p)[0]);
      case Pattern(_) =>
      case FilePath(_) =>
      case Capacity(_) => SizeIsSpelled(s);
      case RotationSize(_) => SizeIsSpelled(s);
      case RotationFiles(_) => SizeIsSpelled(s);
      case Interval(_) => SizeIsSpelled(s);
      case _ => BoolIsSpelled(s);
    }
  }

  lemma LineReads(s: Setting, k: string, v: string)
    requires k in KeyWords(FieldOf(s)) && TrimStable(v) && Spells(v, s)
    ensures DecodeLine(k + "=" + v) == Some(s)
  {
    var line := k + "=" + v;
    assert line == "" + (k + "" + "=" + "" + v) + "";
    assert AnyCase(k, k);
    ShapeDecodes(line, s, "", k, "", "", v, "");
  }

  /** Every setting the format can carry, once printed, is understood as itself. */
  lemma SettingReads(s: Setting)
    requires Representable(s)
    ensures '\n' !in PrintSetting(s) && DecodeLine(PrintSetting(s)) == Some(s)
  {
    var k := KeyOf(FieldOf(s));
    KeysAreKnown(k, FieldOf(s));
    LowerWordStays(k);
    ValueIsSpelled(s);
    LineReads(s, k, ValueText(s));
  }

  // ----- the round trip -----

  lemma PrintedSettingReads(d: Config, s: Setting, rest: string)
    requires Representable(s)
    ensures ApplyLines(d, Lines(PrintSetting(s) + "\n" + rest)) == ApplyLines(Assign(d, s), Lines(rest))
  {
    SettingReads(s);
    FirstLineOf(d, PrintSetting(s), "\n", rest);
  }

  ghost predicate RepresentableConfig(c: Config) {
    forall f :: Representable(Get(c, f))
  }

  lemma SettingOfField(c: Config, f: Field)
    ensures FieldOf(Get(c, f)) == f
  {}

  lemma {:induction false} PrintedFieldsRead(c: Config, d: Config, fields: seq<Field>, f: Field)
    requires RepresentableConfig(c)
    ensures Get(ApplyLines(d, Lines(PrintFields(c, fields))), f) == if f in fields then Get(c, f) else Get(d, f)
    decreases |fields|
  {
    if fields != [] {
      var s := Get(c, fields[0]);
      assert Representable(s);
      PrintedSettingReads(d, s, PrintFields(c, fields[1..]));
      PrintedFieldsRead(c, Assign(d, s), fields[1..], f);
      AssignSetsOneField(d, s, f);
      SettingOfField(c, fields[0]);
    }
  }

  lemma AllFieldsListed(f: Field)
    ensures f in FIELDS
  {
    match f
    case FMode => assert FIELDS[0] == f;
    case FLevel => assert FIELDS[1] == f;
    case FPattern => assert FIELDS[2] == f;
    case FCapacity => assert FIELDS[3] == f;
    case FPolicy => assert FIELDS[4] == f;
    case FConsole => assert FIELDS[5] == f;
    case FFile => assert FIELDS[6] == f;
    case FFilePath => assert FIELDS[7] == f;
    case FRotation => assert FIELDS[8] == f;
    case FRotationSize => assert FIELDS[9] == f;
    case FRotationFiles => assert FIELDS[10] == f;
    case FInterval => assert FIELDS[11] == f;
    case FColored => assert FIELDS[12] == f;
    case FFlushOnError => assert FIELDS[13] == f;
  }

  lemma ConfigRoundTrip(c: Config)
    requires RepresentableConfig(c)
    ensures Parse(Print(c)) == c
  {
    forall f ensures Get(Parse(Print(c)), f) == Get(c, f) {
      PrintedFieldsRead(c, DEFAULTS, FIELDS, f);
      AllFieldsListed(f);
    }
    FieldsDetermineConfig(Parse(Print(c)), c);
  }

  // ----- nothing else can come out of the parser -----

  lemma DecodedIsRepresentable(line: string, s: Setting)
    requires '\n' !in line && DecodeLine(line) == Some(s)
    ensures Representable(s)
  {
    DecodedHasShape(line, s);
    var w1, k, w2, w3, v, w4 :| Shape(line, s, w1, k, w2, w3, v, w4);
    assert forall c | c in v :: c in line;
  }

  lemma {:induction false} LinesAreLines(text: string)
    ensures forall i | 0 <= i < |Lines(text)| :: '\n' !in Lines(text)[i]
  {
    if text != "" && text != [text[0]] { LinesAreLines(text[1..]); }
  }

  lemma AssignKeepsRepresentable(c: Config, s: Setting)
    requires RepresentableConfig(c) && Representable(s)
    ensures RepresentableConfig(Assign(c, s))
  {
    forall f ensures Representable(Get(Assign(c, s), f)) {
      AssignSetsOneField(c, s, f);
    }
  }

  lemma {:induction false} LinesKeepRepresentable(c: Config, lines: seq<string>)
    requires RepresentableConfig(c) && forall i | 0 <= i < |lines| :: '\n' !in lines[i]
    ensures RepresentableConfig(ApplyLines(c, lines))
    decreases |lines|
  {
    if lines != [] {
      var decoded := DecodeLine(lines[0]);
      if decoded.Some? {
        DecodedIsRepresentable(lines[0], decoded.value);
        AssignKeepsRepresentable(c, decoded.value);
      }
      LinesKeepRepresentable(ApplyLine(c, lines[0]), lines[1..]);
    }
  }

  lemma DefaultPatternIsText()
    ensures TrimStable(DEFAULTS.pattern) && '\n' !in DEFAULTS.pattern
  {}

  lemma DefaultPathIsText()
    ensures TrimStable(DEFAULTS.filePath) && '\n' !in DEFAULTS.filePath
  {}

  lemma DefaultIsRepresentable(f: Field)
    ensures Representable(Get(DEFAULTS, f))
  {
    match f {
      case FPattern => DefaultPatternIsText();
      case FFilePath => DefaultPathIsText();
      case _ =>
    }
  }

  /** Whatever the text, the configuration that comes out is one the format can carry. */
  lemma ParsedIsRepresentable(text: string)
    ensures RepresentableConfig(Parse(text))
  {
    LinesAreLines(text);
    forall f ensures Representable(Get(DEFAULTS, f)) { DefaultIsRepresentable(f); }
    LinesKeepRepresentable(DEFAULTS, Lines(text));
  }

  /** Printing every key of a configuration and parsing the text gives it back exactly
      when the format can carry it. */
  lemma ConfigRoundTripIff(c: Config)
    ensures Parse(Print(c)) == c <==> RepresentableConfig(c)
  {
    if RepresentableConfig(c) { ConfigRoundTrip(c); }
    ParsedIsRepresentable(Print(c));
  }
}
