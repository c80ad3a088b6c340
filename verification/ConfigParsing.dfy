/** The parser as it runs: a stream read line by line, a configuration updated in place. */
module ConfigParsing {
  import opened Records
  import opened ConfigLanguage

  /** The line that starts at `start` and stops before `stop`. */
  lemma LineAt(text: string, start: nat, stop: nat)
    requires start < |text| && start <= stop <= |text| && '\n' !in text[start..stop]
    requires stop < |text| ==> text[stop] == '\n'
    ensures Lines(text[start..]) == [text[start..stop]] + Lines(text[(if stop < |text| then stop + 1 else stop)..])
  {
    LinesPrepend(text[start..], stop - start);
    assert text[start..][..stop - start] == text[start..stop];
    if stop < |text| { assert text[start..][stop - start + 1..] == text[stop + 1..]; }
  }

  class InputStream {
    const text: string
    var position: nat

    ghost predicate Valid()
      reads this
    {
      position <= |text|
    }

    /** The lines not read yet. */
    ghost function Remaining(): seq<string>
      reads this
      requires Valid()
    {
      Lines(text[position..])
    }

    constructor (text: string)
      ensures Valid() && Remaining() == Lines(text)
    {
      this.text := text;
      position := 0;
      new;
      assert text[0..] == text;
    }

    method GetLine() returns (ok: bool, line: string)
      requires Valid()
      modifies this
      ensures Valid()
      ensures ok <==> old(Remaining()) != []
      ensures !ok ==> Remaining() == []
      ensures ok ==> [line] + Remaining() == old(Remaining()) && position > old(position)
    {
      var start := position;
      if start == |text| { return false, ""; }
      var i := start;
      while i < |text| && text[i] != '\n'
        invariant start <= i <= |text|
        invariant '\n' !in text[start..i]
      {
        assert text[start..i + 1] == text[start..i] + [text[i]];
        i := i + 1;
      }
      ok, line := true, text[start..i];
      position := if i < |text| then i + 1 else i;
      LineAt(text, start, i);
    }
  }

  class ConfigCell {
    var value: Config

    constructor ()
      ensures value == DEFAULTS
    {
      value := DEFAULTS;
    }

    /** The chain of key comparisons, then the field's own parser; an unknown key
        or an invalid value changes nothing. */
    method Apply(key: string, text: string)
      modifies this
      ensures value == match Decode(key, text) case None => old(value) case Some(s) => Assign(old(value), s)
    {
      match FieldNamed(Lower(Trim(key))) {
        case None =>
        case Some(field) => Store(field, Trim(text));
      }
    }

    method Store(field: Field, text: string)
      modifies this
      ensures value == match SettingFor(field, text) case None => old(value) case Some(s) => Assign(old(value), s)
    {
      match field {
        case FMode =>
          match ParseMode(text) { case Some(mode) => value := value.(mode := mode); case None => }
        case FLevel =>
          match ParseLevel(text) { case Some(level) => value := value.(level := level); case None => }
        case FPattern => value := value.(pattern := text);
        case FCapacity =>
          match ParseSize(text) { case Some(size) => value := value.(queueCapacity := size); case None => }
        case FPolicy =>
          match ParsePolicy(text) { case Some(policy) => value := value.(overflowPolicy := policy); case None => }
        case FConsole =>
          match ParseBool(text) { case Some(on) => value := value.(enableConsole := on); case None => }
        case FFile =>
          match ParseBool(text) { case Some(on) => value := value.(enableFile := on); case None => }
        case FFilePath => value := value.(filePath := text);
        case FRotation =>
          match ParseBool(text) { case Some(on) => value := value.(rotationEnabled := on); case None => }
        case FRotationSize =>
          match ParseSize(text) { case Some(size) => value := value.(rotationMaxFileSize := size); case None => }
        case FRotationFiles =>
          match ParseSize(text) { case Some(files) => value := value.(rotationMaxFiles := files); case None => }
        case FInterval =>
          match ParseSize(text) { case Some(ms) => value := value.(flushIntervalMs := ms); case None => }
        case FColored =>
          match ParseBool(text) { case Some(on) => value := value.(coloredOutput := on); case None => }
        case FFlushOnError =>
          match ParseBool(text) { case Some(on) => value := value.(flushOnError := on); case None => }
      }
    }
  }

  /** The loop of ConfigParser::parse. */
  method ParseStream(input: InputStream) returns (config: Config)
    requires input.Valid()
    modifies input
    ensures config == ApplyLines(DEFAULTS, old(input.Remaining()))
  {
    var cell := new ConfigCell();
    var ok, line := input.GetLine();
    assert (if ok then [line] else []) + input.Remaining() == old(input.Remaining());
    while ok
      invariant input.Valid() && fresh(cell)
      invariant ApplyLines(cell.value, (if ok then [line] else []) + input.Remaining())
             == ApplyLines(DEFAULTS, old(input.Remaining()))
      invariant !ok ==> input.Remaining() == []
      decreases |input.text| - input.position, ok
    {
      ghost var before, rest := cell.value, input.Remaining();
      var stripped := Trim(line);
      if stripped != "" && stripped[0] != '#' {
        var delimiter := FirstEquals(stripped);
        if delimiter < |stripped| {
          cell.Apply(stripped[..delimiter], stripped[delimiter + 1..]);
        }
      }
      assert cell.value == ApplyLine(before, line);
      assert ([line] + rest)[1..] == rest;
      ok, line := input.GetLine();
      assert rest == (if ok then [line] else []) + input.Remaining();
    }
    config := cell.value;
    assert [] + input.Remaining() == [];
  }

  method ParseText(text: string) returns (config: Config)
    ensures config == Parse(text)
  {
    var input := new InputStream(text);
    config := ParseStream(input);
  }
}
