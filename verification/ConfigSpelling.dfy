/** Every way to write a setting on a line: exactly these lines set it. */
module ConfigSpelling {
  import opened Records
  import opened Decimals
  import opened ConfigLanguage

  // ----- the documented words -----

  function KeyWords(f: Field): seq<string> {
    match f
    case FMode => ["mode"]
    case FLevel => ["level"]
    case FPattern => ["pattern"]
    case FCapacity => ["queue_capacity", "queue_size"]
    case FPolicy => ["overflow_policy"]
    case FConsole => ["console", "console_enabled"]
    case FFile => ["file", "file_enabled"]
    case FFilePath => ["file_path"]
    case FRotation => ["rotation", "rotation_enabled"]
    case FRotationSize => ["rotation_max_file_size"]
    case FRotationFiles => ["rotation_max_files"]
    case FInterval => ["flush_interval_ms", "flush_interval"]
    case FColored => ["colored_output"]
    case FFlushOnError => ["flush_on_error"]
  }

  function ModeWords(m: LoggerMode): seq<string> {
    match m
    case Sync => ["sync", "synchronous"]
    case Async => ["async", "asynchronous"]
  }

  function LevelWords(l: Level): seq<string> {
    match l
    case Trace => ["trace"]
    case Debug => ["debug"]
    case Info => ["info"]
    case Warn => ["warn", "warning"]
    case Error => ["error"]
    case Fatal => ["fatal"]
    case Off => ["off"]
  }

  function PolicyWords(p: OverflowPolicy): seq<string> {
    match p
    case Block => ["block"]
    case DropNewest => ["drop_newest", "dropnewest"]
    case DropOldest => ["drop_oldest", "dropoldest"]
    case Discard => ["discard"]
  }

  function BoolWords(b: bool): seq<string> {
    if b then ["true", "yes", "on", "1"] else ["false", "no", "off", "0"]
  }

  /** A size: digits, leading zeros allowed, of a number that 64 bits can hold. */
  predicate SpellsSize(v: string, n: nat) {
    v != "" && AllDigits(v) && Value(v) == n && n <= 18446744073709551615
  }

  /** The same letter, small in `w`, in either case in `c`. */
  predicate SameLetter(c: char, w: char) {
    c == w || ('a' <= w <= 'z' && 'A' <= c <= 'Z' && c as int - 'A' as int == w as int - 'a' as int)
  }

  predicate AnyCase(v: string, word: string) {
    |v| == |word| && forall i | 0 <= i < |v| :: SameLetter(v[i], word[i])
  }

  /** v is one of the words, in any mixture of upper and lower case. */
  ghost predicate OneOf(v: string, words: seq<string>) {
    exists i | 0 <= i < |words| :: AnyCase(v, words[i])
  }

  /** v, free of outer white space, is a way to write the setting's value: words in any
      case, texts as they are. */
  ghost predicate Spells(v: string, s: Setting) {
    match s
    case Mode(m) => OneOf(v, ModeWords(m))
    case LogLevel(l) => OneOf(v, LevelWords(l))
    case Pattern(t) => v == t
    case Capacity(n) => SpellsSize(v, n)
    case Policy(p) => OneOf(v, PolicyWords(p))
    case Console(b) => OneOf(v, BoolWords(b))
    case FileOn(b) => OneOf(v, BoolWords(b))
    case FilePath(t) => v == t
    case Rotation(b) => OneOf(v, BoolWords(b))
    case RotationSize(n) => SpellsSize(v, n)
    case RotationFiles(n) => SpellsSize(v, n)
    case Interval(n) => SpellsSize(v, n)
    case Colored(b) => OneOf(v, BoolWords(b))
    case FlushOnError(b) => OneOf(v, BoolWords(b))
  }

  // ----- trimming -----

  /** The six characters of std::isspace in the C locale. */
  predicate White(c: char) {
    c == ' ' || c == '\t' || c == '\n' || c == '\U{0B}' || c == '\U{0C}' || c == '\r'
  }

  predicate AllSpace(s: string) { forall i | 0 <= i < |s| :: White(s[i]) }

  /** No white space at either end. */
  predicate TrimStable(s: string) { s == "" || (!White(s[0]) && !White(s[|s| - 1])) }

  lemma {:induction false} TrimLeftCuts(s: string) returns (w: string)
    ensures AllSpace(w) && s == w + TrimLeft(s)
    ensures TrimLeft(s) != "" ==> !White(TrimLeft(s)[0])
  {
    w := "";
    if s != "" && IsSpace(s[0]) {
      w := TrimLeftCuts(s[1..]);
      w := [s[0]] + w;
    }
  }

  lemma {:induction false} TrimRightCuts(s: string) returns (w: string)
    ensures AllSpace(w) && s == TrimRight(s) + w
    ensures TrimRight(s) != "" ==> !White(TrimRight(s)[|TrimRight(s)| - 1])
  {
    w := "";
    if s != "" && IsSpace(s[|s| - 1]) {
      w := TrimRightCuts(s[..|s| - 1]);
      w := w + [s[|s| - 1]];
    }
  }

  lemma TrimCuts(s: string) returns (w1: string, w2: string)
    ensures AllSpace(w1) && AllSpace(w2) && TrimStable(Trim(s)) && s == w1 + Trim(s) + w2
  {
    w1 := TrimLeftCuts(s);
    w2 := TrimRightCuts(TrimLeft(s));
    if Trim(s) != "" { assert Trim(s)[0] == TrimLeft(s)[0]; }
  }

  lemma {:induction false} TrimLeftSkips(w: string, t: string)
    requires AllSpace(w) && (t != "" ==> !White(t[0]))
    ensures TrimLeft(w + t) == t
  {
    if w == "" {
      assert w + t == t;
    } else {
      assert (w + t)[1..] == w[1..] + t;
      TrimLeftSkips(w[1..], t);
    }
  }

  lemma {:induction false} TrimRightSkips(t: string, w: string)
    requires AllSpace(w) && (t != "" ==> !White(t[|t| - 1]))
    ensures TrimRight(t + w) == t
  {
    if w == "" {
      assert t + w == t;
    } else {
      assert (t + w)[..|t + w| - 1] == t + w[..|w| - 1];
      TrimRightSkips(t, w[..|w| - 1]);
    }
  }

  lemma TrimsTo(w1: string, t: string, w2: string)
    requires AllSpace(w1) && AllSpace(w2) && TrimStable(t)
    ensures Trim(w1 + t + w2) == t
  {
    if t == "" {
      assert w1 + t + w2 == (w1 + w2) + "";
      TrimLeftSkips(w1 + w2, "");
    } else {
      assert w1 + t + w2 == w1 + (t + w2);
      TrimLeftSkips(w1, t + w2);
      TrimRightSkips(t, w2);
    }
  }

  /** Trimming removes the outer white space and nothing else. */
  lemma TrimmedIff(s: string, t: string)
    ensures Trim(s) == t <==>
      TrimStable(t) && exists w1, w2 :: AllSpace(w1) && AllSpace(w2) && s == w1 + t + w2
  {
    var u1, u2 := TrimCuts(s);
    forall w1, w2 | AllSpace(w1) && AllSpace(w2) && TrimStable(t) && s == w1 + t + w2 ensures Trim(s) == t {
      TrimsTo(w1, t, w2);
    }
  }

  /** A word in lower case, as the parsers compare it. */
  predicate LowerWord(s: string) {
    s != "" && forall i | 0 <= i < |s| :: 'a' <= s[i] <= 'z' || s[i] == '_'
  }

  // ----- the parsers accept exactly the documented words -----

  predicate NoCapitals(s: string) { forall i | 0 <= i < |s| :: !('A' <= s[i] <= 'Z') }

  /** Comparing in lower case is comparing without regard to case. */
  lemma LowerIsAnyCase(v: string, word: string)
    requires NoCapitals(word)
    ensures Lower(v) == word <==> AnyCase(v, word)
  {
    if Lower(v) == word {
      forall i | 0 <= i < |v| ensures SameLetter(v[i], word[i]) { assert Lower(v)[i] == LowerChar(v[i]); }
    }
    if AnyCase(v, word) {
      forall i | 0 <= i < |v| ensures Lower(v)[i] == word[i] { assert SameLetter(v[i], word[i]); }
    }
  }

  lemma LowerIsOneOf(v: string, words: seq<string>)
    requires forall i | 0 <= i < |words| :: NoCapitals(words[i])
    ensures Lower(v) in words <==> OneOf(v, words)
  {
    forall i | 0 <= i < |words| ensures Lower(v) == words[i] <==> AnyCase(v, words[i]) {
      LowerIsAnyCase(v, words[i]);
    }
  }

  lemma ModeWordsAreSmall(m: LoggerMode)
    ensures forall i | 0 <= i < |ModeWords(m)| :: NoCapitals(ModeWords(m)[i])
  {}

  lemma LevelWordsAreSmall(l: Level)
    ensures forall i | 0 <= i < |LevelWords(l)| :: NoCapitals(LevelWords(l)[i])
  {}

  lemma PolicyWordsAreSmall(p: OverflowPolicy)
    ensures forall i | 0 <= i < |PolicyWords(p)| :: NoCapitals(PolicyWords(p)[i])
  {}

  lemma BoolWordsAreSmall(b: bool)
    ensures forall i | 0 <= i < |BoolWords(b)| :: NoCapitals(BoolWords(b)[i])
  {}

  lemma KeyWordsAreSmall(f: Field)
    ensures forall i | 0 <= i < |KeyWords(f)| :: NoCapitals(KeyWords(f)[i])
  {
    forall i | 0 <= i < |KeyWords(f)| ensures NoCapitals(KeyWords(f)[i]) { KeysAreKnown(KeyWords(f)[i], f); }
  }

  lemma ModeIff(v: string, m: LoggerMode)
    requires TrimStable(v)
    ensures ParseMode(v) == Some(m) <==> OneOf(v, ModeWords(m))
  {
    TrimsAlone(v);
    ModeWordsAreSmall(m);
    LowerIsOneOf(v, ModeWords(m));
  }

  lemma LevelIff(v: string, l: Level)
    requires TrimStable(v)
    ensures ParseLevel(v) == Some(l) <==> OneOf(v, LevelWords(l))
  {
    TrimsAlone(v);
    LevelWordsAreSmall(l);
    LowerIsOneOf(v, LevelWords(l));
  }

  lemma PolicyIff(v: string, p: OverflowPolicy)
    requires TrimStable(v)
    ensures ParsePolicy(v) == Some(p) <==> OneOf(v, PolicyWords(p))
  {
    TrimsAlone(v);
    PolicyWordsAreSmall(p);
    LowerIsOneOf(v, PolicyWords(p));
  }

  lemma BoolIff(v: string, b: bool)
    requires TrimStable(v)
    ensures ParseBool(v) == Some(b) <==> OneOf(v, BoolWords(b))
  {
    TrimsAlone(v);
    BoolWordsAreSmall(b);
    LowerIsOneOf(v, BoolWords(b));
  }

  lemma SizeIff(v: string, n: nat)
    requires TrimStable(v)
    ensures ParseSize(v) == Some(n) <==> SpellsSize(v, n)
  {
    TrimsAlone(v);
  }

  lemma TrimsAlone(v: string)
    requires TrimStable(v)
    ensures Trim(v) == v
  {
    assert "" + v + "" == v;
    TrimsTo("", v, "");
  }

  // A few words at a time: the solver compares each with every key.

  lemma GeneralName(key: string, f: Field)
    requires (f == FMode || f == FLevel || f == FPattern) && FieldNamed(key) == Some(f)
    ensures key in KeyWords(f)
  {}

  lemma QueueName(key: string, f: Field)
    requires (f == FCapacity || f == FPolicy) && FieldNamed(key) == Some(f)
    ensures key in KeyWords(f)
  {}

  lemma FlushName(key: string, f: Field)
    requires (f == FInterval || f == FFlushOnError) && FieldNamed(key) == Some(f)
    ensures key in KeyWords(f)
  {}

  lemma SinkName(key: string, f: Field)
    requires (f == FConsole || f == FFile || f == FFilePath || f == FColored) && FieldNamed(key) == Some(f)
    ensures key in KeyWords(f)
  {}

  lemma RotationName(key: string, f: Field)
    requires (f == FRotation || f == FRotationSize || f == FRotationFiles) && FieldNamed(key) == Some(f)
    ensures key in KeyWords(f)
  {}

  lemma KeyNames(key: string, f: Field)
    requires FieldNamed(key) == Some(f)
    ensures key in KeyWords(f)
  {
    match f {
      case FMode => GeneralName(key, f);
      case FLevel => GeneralName(key, f);
      case FPattern => GeneralName(key, f);
      case FCapacity => QueueName(key, f);
      case FPolicy => QueueName(key, f);
      case FConsole => SinkName(key, f);
      case FFile => SinkName(key, f);
      case FFilePath => SinkName(key, f);
      case FRotation => RotationName(key, f);
      case FRotationSize => RotationName(key, f);
      case FRotationFiles => RotationName(key, f);
      case FInterval => FlushName(key, f);
      case FColored => SinkName(key, f);
      case FFlushOnError => FlushName(key, f);
    }
  }

  lemma ModeKey(key: string, f: Field)
    requires (f == FMode || f == FLevel || f == FPattern) && key in KeyWords(f)
    ensures FieldNamed(key) == Some(f) && LowerWord(key)
  {}

  lemma QueueKey(key: string, f: Field)
    requires (f == FCapacity || f == FPolicy) && key in KeyWords(f)
    ensures FieldNamed(key) == Some(f) && LowerWord(key)
  {}

  lemma IntervalKey(key: string, f: Field)
    requires f == FInterval && key in KeyWords(f)
    ensures FieldNamed(key) == Some(f) && LowerWord(key)
  {}

  lemma OnErrorKey(key: string, f: Field)
    requires f == FFlushOnError && key in KeyWords(f)
    ensures FieldNamed(key) == Some(f) && LowerWord(key)
  {}

  lemma ConsoleKey(key: string, f: Field)
    requires f == FConsole && key in KeyWords(f)
    ensures FieldNamed(key) == Some(f) && LowerWord(key)
  {}

  lemma ColorKey(key: string, f: Field)
    requires f == FColored && key in KeyWords(f)
    ensures FieldNamed(key) == Some(f) && LowerWord(key)
  {}

  lemma FileKey(key: string, f: Field)
    requires (f == FFile || f == FFilePath) && key in KeyWords(f)
    ensures FieldNamed(key) == Some(f) && LowerWord(key)
  {}

  lemma RotationKey(key: string, f: Field)
    requires f == FRotation && key in KeyWords(f)
    ensures FieldNamed(key) == Some(f) && LowerWord(key)
  {}

  lemma SizeKey(key: string, f: Field)
    requires f == FRotationSize && key in KeyWords(f)
    ensures FieldNamed(key) == Some(f) && LowerWord(key)
  {}

  lemma CountKey(key: string, f: Field)
    requires f == FRotationFiles && key in KeyWords(f)
    ensures FieldNamed(key) == Some(f) && LowerWord(key)
  {}

  lemma KeysAreKnown(key: string, f: Field)
    requires key in KeyWords(f)
    ensures FieldNamed(key) == Some(f) && LowerWord(key)
  {
    match f {
      case FMode => ModeKey(key, f);
      case FLevel => ModeKey(key, f);
      case FPattern => ModeKey(key, f);
      case FCapacity => QueueKey(key, f);
      case FPolicy => QueueKey(key, f);
      case FConsole => ConsoleKey(key, f);
      case FFile => FileKey(key, f);
      case FFilePath => FileKey(key, f);
      case FRotation => RotationKey(key, f);
      case FRotationSize => SizeKey(key, f);
      case FRotationFiles => CountKey(key, f);
      case FInterval => IntervalKey(key, f);
      case FColored => ColorKey(key, f);
      case FFlushOnError => OnErrorKey(key, f);
    }
  }

  lemma SettingForField(f: Field, v: string)
    ensures SettingFor(f, v).Some? ==> FieldOf(SettingFor(f, v).value) == f
  {}

  lemma WordSettingIff(s: Setting, v: string)
    requires TrimStable(v) && (s.Mode? || s.LogLevel? || s.Policy? || s.Pattern? || s.FilePath?)
    ensures SettingFor(FieldOf(s), v) == Some(s) <==> Spells(v, s)
  {
    match s {
      case Mode(m) => ModeIff(v, m);
      case LogLevel(l) => LevelIff(v, l);
      case Policy(p) => PolicyIff(v, p);
      case Pattern(_) =>
      case FilePath(_) =>
    }
  }

  lemma SizeSettingIff(s: Setting, v: string)
    requires TrimStable(v) && (s.Capacity? || s.RotationSize? || s.RotationFiles? || s.Interval?)
    ensures SettingFor(FieldOf(s), v) == Some(s) <==> Spells(v, s)
  {
    SizeIff(v, s.size);
  }

  lemma BoolSettingIff(s: Setting, v: string)
    requires TrimStable(v) && (s.Console? || s.FileOn? || s.Rotation? || s.Colored? || s.FlushOnError?)
    ensures SettingFor(FieldOf(s), v) == Some(s) <==> Spells(v, s)
  {
    BoolIff(v, s.on);
  }

  lemma SettingIff(s: Setting, v: string)
    requires TrimStable(v)
    ensures SettingFor(FieldOf(s), v) == Some(s) <==> Spells(v, s)
  {
    if s.Capacity? || s.RotationSize? || s.RotationFiles? || s.Interval? { SizeSettingIff(s, v); }
    else if s.Mode? || s.LogLevel? || s.Policy? || s.Pattern? || s.FilePath? { WordSettingIff(s, v); }
    else { BoolSettingIff(s, v); }
  }

  // ----- whole lines -----

  /** A key of the setting's field in any case, `=`, a spelling of its value, and white
      space anywhere around the two. */
  ghost predicate Shape(line: string, s: Setting, w1: string, k: string, w2: string, w3: string, v: string,
                        w4: string) {
    && AllSpace(w1) && AllSpace(w2) && AllSpace(w3) && AllSpace(w4)
    && OneOf(k, KeyWords(FieldOf(s))) && TrimStable(v) && Spells(v, s)
    && line == w1 + (k + w2 + "=" + w3 + v) + w4
  }

  ghost predicate Documented(line: string, s: Setting) {
    exists w1, k, w2, w3, v, w4 :: Shape(line, s, w1, k, w2, w3, v, w4)
  }

  lemma WordInAnyCase(k: string)
    requires LowerWord(Lower(k))
    ensures k != "" && TrimStable(k) && '=' !in k && k[0] != '#'
  {
    assert forall i | 0 <= i < |k| :: Lower(k)[i] == LowerChar(k[i]);
  }

  lemma {:induction false} FirstEqualsAfter(key: string, rest: string)
    requires '=' !in key
    ensures FirstEquals(key + "=" + rest) == |key|
  {
    var s := key + "=" + rest;
    if key == "" {
      assert s[0] == '=';
    } else {
      assert s[0] == key[0] && s[1..] == key[1..] + "=" + rest;
      FirstEqualsAfter(key[1..], rest);
    }
  }

  /** What is left of such a line when it is trimmed. */
  function Core(k: string, w2: string, w3: string, v: string): string {
    if v == "" then k + w2 + "=" else k + w2 + "=" + w3 + v
  }

  lemma Slide(w1: string, a: string, w3: string, w4: string)
    ensures w1 + (a + w3 + "") + w4 == w1 + a + (w3 + w4)
  {}

  lemma TrimsToCore(line: string, w1: string, k: string, w2: string, w3: string, v: string, w4: string)
    requires AllSpace(w1) && AllSpace(w3) && AllSpace(w4)
    requires k != "" && TrimStable(k) && TrimStable(v) && line == w1 + (k + w2 + "=" + w3 + v) + w4
    ensures Trim(line) == Core(k, w2, w3, v)
  {
    var core := Core(k, w2, w3, v);
    assert core[0] == k[0];
    if v == "" {
      Slide(w1, core, w3, w4);
      TrimsTo(w1, core, w3 + w4);
    } else {
      TrimsTo(w1, core, w4);
    }
  }

  lemma CoreSplits(k: string, w2: string, w3: string, v: string)
    requires k != "" && '=' !in k && TrimStable(k) && TrimStable(v) && AllSpace(w2) && AllSpace(w3)
    ensures var t := Core(k, w2, w3, v);
      && t[0] == k[0] && FirstEquals(t) == |k + w2| < |t|
      && Trim(t[..|k + w2|]) == k && Trim(t[|k + w2| + 1..]) == v
  {
    var t, w := Core(k, w2, w3, v), if v == "" then "" else w3;
    FirstEqualsAfter(k + w2, w + v);
    assert t == (k + w2) + "=" + (w + v);
    assert t[..|k + w2|] == "" + k + w2 && t[|k + w2| + 1..] == w + v + "";
    TrimsTo("", k, w2);
    TrimsTo(w, v, "");
  }

  lemma KeyInAnyCase(k: string, f: Field)
    requires OneOf(k, KeyWords(f))
    ensures FieldNamed(Lower(k)) == Some(f)
    ensures k != "" && TrimStable(k) && '=' !in k && k[0] != '#'
  {
    KeyWordsAreSmall(f);
    LowerIsOneOf(k, KeyWords(f));
    KeysAreKnown(Lower(k), f);
    WordInAnyCase(k);
  }

  lemma PartsDecode(line: string, t: string, i: nat)
    requires Trim(line) == t && FirstEquals(t) == i < |t| && t[0] != '#'
    ensures DecodeLine(line) == Decode(t[..i], t[i + 1..])
  {}

  lemma KeyAndValueDecode(key: string, value: string, f: Field, v: string)
    requires FieldNamed(Lower(Trim(key))) == Some(f) && Trim(value) == v
    ensures Decode(key, value) == SettingFor(f, v)
  {}

  lemma CoreMeans(line: string, k: string, w2: string, w3: string, v: string, f: Field)
    requires FieldNamed(Lower(k)) == Some(f) && k != "" && TrimStable(k) && '=' !in k && k[0] != '#'
    requires AllSpace(w2) && AllSpace(w3) && TrimStable(v) && Trim(line) == Core(k, w2, w3, v)
    ensures DecodeLine(line) == SettingFor(f, v)
  {
    var t, i := Core(k, w2, w3, v), |k + w2|;
    CoreSplits(k, w2, w3, v);
    PartsDecode(line, t, i);
    KeyAndValueDecode(t[..i], t[i + 1..], f, v);
  }

  lemma ShapeDecodes(line: string, s: Setting, w1: string, k: string, w2: string, w3: string, v: string, w4: string)
    requires Shape(line, s, w1, k, w2, w3, v, w4)
    ensures DecodeLine(line) == Some(s)
  {
    KeyInAnyCase(k, FieldOf(s));
    TrimsToCore(line, w1, k, w2, w3, v, w4);
    CoreMeans(line, k, w2, w3, v, FieldOf(s));
    SettingIff(s, v);
  }

  lemma Regroup(line: string, a: string, t: string, d: string, keyPart: string, b: string, k: string, w2: string,
                valuePart: string, w3: string, v: string, c: string)
    requires line == a + t + d && t == keyPart + "=" + valuePart
    requires keyPart == b + k + w2 && valuePart == w3 + v + c
    ensures line == (a + b) + (k + w2 + "=" + w3 + v) + (c + d)
  {}

  /** The parts of a line with a key and a value, and the white space around them. */
  lemma Dissect(line: string, key: string, value: string) returns (w1: string, w2: string, w3: string, w4: string)
    requires Trim(line) == key + "=" + value
    ensures AllSpace(w1) && AllSpace(w2) && AllSpace(w3) && AllSpace(w4) && TrimStable(Trim(value))
    ensures line == w1 + (Trim(key) + w2 + "=" + w3 + Trim(value)) + w4
  {
    var a, d := TrimCuts(line);
    var b, c;
    b, w2 := TrimCuts(key);
    w3, c := TrimCuts(value);
    Regroup(line, a, Trim(line), d, key, b, Trim(key), w2, value, w3, Trim(value), c);
    w1, w4 := a + b, c + d;
  }

  lemma CutAtEquals(t: string, i: nat)
    requires i < |t| && t[i] == '='
    ensures t == t[..i] + "=" + t[i + 1..]
  {}

  lemma DecodedHasShape(line: string, s: Setting)
    requires DecodeLine(line) == Some(s)
    ensures Documented(line, s)
  {
    var t := Trim(line);
    var i := FirstEquals(t);
    CutAtEquals(t, i);
    var w1, w2, w3, w4 := Dissect(line, t[..i], t[i + 1..]);
    var k, v := Trim(t[..i]), Trim(t[i + 1..]);
    var f := FieldNamed(Lower(k)).value;
    KeyNames(Lower(k), f);
    KeyWordsAreSmall(f);
    LowerIsOneOf(k, KeyWords(f));
    SettingForField(f, v);
    SettingIff(s, v);
    assert Shape(line, s, w1, k, w2, w3, v, w4);
  }

  /** A line sets something exactly when it is written in a documented way: any of the
      field's keys, any of the value's spellings, in any case, white space around
      either. Every other line is ignored. */
  lemma DocumentedIff(line: string, s: Setting)
    ensures DecodeLine(line) == Some(s) <==> Documented(line, s)
  {
    if DecodeLine(line) == Some(s) {
      DecodedHasShape(line, s);
    } else if Documented(line, s) {
      var w1, k, w2, w3, v, w4 :| Shape(line, s, w1, k, w2, w3, v, w4);
      ShapeDecodes(line, s, w1, k, w2, w3, v, w4);
    }
  }
}
