/**
  The `/etc/default/grub` reader and writer. `read_grub_config` turns `KEY=value` lines into an
  insertion-ordered settings dict; `save_grub_config` writes a settings dict back, one line per
  entry. The file itself is replaced by what opening it yields.
*/
module GrubConfig {
  import opened Wrappers
  import opened Text
  import opened Dicts

  /** What opening `/etc/default/grub` for reading yields. */
  datatype ReadOutcome = Contents(text: string) | NotFound | PermissionDenied

  const NotFoundMessage: string := "GRUB configuration file not found."
  const PermissionMessage: string := "Permission denied. Please run with elevated privileges."

  // ---------------------------------------------------------------------------
  // read_grub_config
  // ---------------------------------------------------------------------------

  predicate NotEqualsSign(c: char) { c != '=' }

  /** One line of the file: after `strip()`, a line that is not blank, not a comment and holds an
      `=` is split at its first `=`; the key is stripped, and the value is stripped, then stripped
      of `"` and then of `'` at both ends. */
  function ParseSetting(line: string): Option<Entry<string>> {
    var s := Strip(line);
    if s == [] || s[0] == '#' then None
    else
      var i := Span(s, 0, NotEqualsSign);
      if i == |s| then None
      else Some(Entry(Strip(s[..i]), StripQuotes(Strip(s[i + 1..]))))
  }

  /** A line yields a setting exactly when, stripped, it is not blank, is not a comment and
      contains `=`; the key is then the text before the first `=` and the value the text after it. */
  lemma ParseSettingIff(line: string)
    ensures ParseSetting(line).Some? <==>
      Strip(line) != [] && Strip(line)[0] != '#' && '=' in Strip(line)
    ensures ParseSetting(line).Some? ==>
      exists i :: 0 <= i < |Strip(line)| && Strip(line)[i] == '=' && '=' !in Strip(line)[..i]
        && ParseSetting(line).value == Entry(Strip(Strip(line)[..i]), StripQuotes(Strip(Strip(line)[i + 1..])))
  {
    var s := Strip(line);
    if s != [] && s[0] != '#' {
      var i := Span(s, 0, NotEqualsSign);
      SpanFacts(s, 0, NotEqualsSign);
      if i < |s| {
        assert s[i] == '=';
        assert '=' !in s[..i];
      } else {
        assert '=' !in s;
      }
    }
  }

  /** The settings after reading `lines` in order: `settings[key] = value`, so a later duplicate
      overwrites the value but keeps the key's first position. */
  function SettingsOf(lines: seq<string>): Dict<string> {
    if lines == [] then [] else SettingStep(SettingsOf(lines[..|lines| - 1]), lines[|lines| - 1])
  }

  /** One line read into the settings read so far. */
  function SettingStep(settings: Dict<string>, line: string): Dict<string> {
    match ParseSetting(line)
    case Some(e) => Put(settings, e.key, e.value)
    case None => settings
  }

  /** A step adds at most the key of its line. */
  lemma SettingStepKeys(settings: Dict<string>, line: string, key: string)
    ensures HasKey(SettingStep(settings, line), key) <==>
      HasKey(settings, key) || (ParseSetting(line).Some? && ParseSetting(line).value.key == key)
  {
    match ParseSetting(line)
    case Some(e) => PutHasKey(settings, e.key, e.value, key);
    case None =>
  }

  /** What `read_grub_config` returns: the settings, or a one-entry dict naming the error. */
  function ReadConfig(outcome: ReadOutcome): Dict<string> {
    match outcome
    case Contents(text) => SettingsOf(SplitNewlines(text))
    case NotFound => [Entry("error", NotFoundMessage)]
    case PermissionDenied => [Entry("error", PermissionMessage)]
  }

  /** `read_grub_config`. */
  method ReadGrubConfig(outcome: ReadOutcome) returns (settings: Dict<string>)
    ensures settings == ReadConfig(outcome)
    ensures outcome.NotFound? ==> settings == [Entry("error", NotFoundMessage)]
    ensures outcome.PermissionDenied? ==> settings == [Entry("error", PermissionMessage)]
  {
    match outcome
    case NotFound =>
      return [Entry("error", NotFoundMessage)];
    case PermissionDenied =>
      return [Entry("error", PermissionMessage)];
    case Contents(text) =>
      var lines := SplitNewlines(text);
      settings := [];
      var i := 0;
      while i < |lines|
        invariant 0 <= i <= |lines|
        invariant settings == SettingsOf(lines[..i])
      {
        SettingsOfSnoc(lines, i);
        var line := Strip(lines[i]);
        if line != [] && line[0] != '#' {
          var eq := Span(line, 0, NotEqualsSign);
          if eq < |line| {
            settings := Put(settings, Strip(line[..eq]), StripQuotes(Strip(line[eq + 1..])));
          }
        }
        i := i + 1;
      }
      assert lines[..i] == lines;
  }

  /** Reading one more line is one more step. */
  lemma SettingsOfSnoc(lines: seq<string>, i: nat)
    requires i < |lines|
    ensures SettingsOf(lines[..i + 1]) == SettingStep(SettingsOf(lines[..i]), lines[i])
  {
    assert lines[..i + 1][..i] == lines[..i];
  }

  /** The last line that yields a setting for `key` decides its value. */
  lemma {:induction false} SettingsLastWins(lines: seq<string>, i: nat, key: string)
    requires i < |lines| && ParseSetting(lines[i]).Some? && ParseSetting(lines[i]).value.key == key
    requires forall j :: i < j < |lines| ==> ParseSetting(lines[j]).None? || ParseSetting(lines[j]).value.key != key
    ensures Get(SettingsOf(lines), key) == Some(ParseSetting(lines[i]).value.value)
    decreases |lines|
  {
    var prefix := lines[..|lines| - 1];
    if i < |lines| - 1 {
      assert forall j :: i < j < |prefix| ==> prefix[j] == lines[j];
      SettingsLastWins(prefix, i, key);
    }
  }

  /** A key that some line yields a setting for is read. */
  lemma {:induction false} SettingsKeyRead(lines: seq<string>, j: nat)
    requires j < |lines| && ParseSetting(lines[j]).Some?
    ensures HasKey(SettingsOf(lines), ParseSetting(lines[j]).value.key)
    decreases |lines|
  {
    var prefix := lines[..|lines| - 1];
    SettingStepKeys(SettingsOf(prefix), lines[|lines| - 1], ParseSetting(lines[j]).value.key);
    if j < |prefix| {
      assert prefix[j] == lines[j];
      SettingsKeyRead(prefix, j);
    }
  }

  /** Conversely, every key read comes from a line that yields a setting for it. */
  lemma {:induction false} SettingsKeySource(lines: seq<string>, key: string) returns (j: nat)
    requires HasKey(SettingsOf(lines), key)
    ensures j < |lines| && ParseSetting(lines[j]).Some? && ParseSetting(lines[j]).value.key == key
    decreases |lines|
  {
    var prefix := lines[..|lines| - 1];
    var last := ParseSetting(lines[|lines| - 1]);
    SettingStepKeys(SettingsOf(prefix), lines[|lines| - 1], key);
    if last.Some? && last.value.key == key {
      j := |lines| - 1;
    } else {
      j := SettingsKeySource(prefix, key);
      assert prefix[j] == lines[j];
    }
  }

  /** Reading never produces the same key twice. */
  lemma {:induction false} SettingsDistinct(lines: seq<string>)
    ensures DistinctKeys(SettingsOf(lines))
    decreases |lines|
  {
    if lines != [] {
      SettingsDistinct(lines[..|lines| - 1]);
      match ParseSetting(lines[|lines| - 1])
      case Some(e) => PutDistinct(SettingsOf(lines[..|lines| - 1]), e.key, e.value);
      case None =>
    }
  }

  // ---------------------------------------------------------------------------
  // save_grub_config
  // ---------------------------------------------------------------------------

  /** The line written for one entry: quoted when the value holds a space or is not all digits. */
  function ConfigLine(e: Entry<string>): string {
    if ' ' in e.value || !IsDigits(e.value) then e.key + "=\"" + e.value + "\"" else e.key + "=" + e.value
  }

  /** The space test is subsumed by the digit test: a value is written bare exactly when it is all digits. */
  lemma ConfigLineBareIff(e: Entry<string>)
    ensures ConfigLine(e) == if IsDigits(e.value) then e.key + "=" + e.value else e.key + "=\"" + e.value + "\""
  {
    if IsDigits(e.value) {
      forall k | 0 <= k < |e.value|
        ensures e.value[k] != ' '
      {
        assert IsDigit(e.value[k]);
      }
    }
  }

  /** The lines written, one per entry, in dict order. */
  function ConfigLines(settings: Dict<string>): seq<string> {
    if settings == [] then [] else ConfigLines(settings[..|settings| - 1]) + [ConfigLine(settings[|settings| - 1])]
  }

  /** The file `save_grub_config` writes: every line followed by a newline. */
  function ConfigText(settings: Dict<string>): string {
    Terminated(ConfigLines(settings))
  }

  /** `save_grub_config`'s loop, writing one line per entry. */
  method SaveGrubConfig(settings: Dict<string>) returns (text: string)
    ensures text == ConfigText(settings)
  {
    text := "";
    var i := 0;
    while i < |settings|
      invariant 0 <= i <= |settings|
      invariant text == ConfigText(settings[..i])
    {
      assert settings[..i + 1][..i] == settings[..i];
      TerminatedAppend(ConfigLines(settings[..i]), [ConfigLine(settings[i])]);
      var value := settings[i].value;
      if ' ' in value || !IsDigits(value) {
        text := text + settings[i].key + "=\"" + value + "\"" + "\n";
      } else {
        text := text + settings[i].key + "=" + value + "\n";
      }
      i := i + 1;
    }
    assert settings[..i] == settings;
  }

  // ---------------------------------------------------------------------------
  // Reading back what was written
  // ---------------------------------------------------------------------------

  /** A key the reader gives back unchanged: non-empty, no `=` or newline, no whitespace at
      either end, and not starting a comment. */
  predicate CleanKey(key: string) {
    key != [] && !IsSpace(key[0]) && !IsSpace(key[|key| - 1]) && key[0] != '#'
    && '=' !in key && '\n' !in key
  }

  /** A value the reader gives back unchanged once quoted: one line, with no quote at either end. */
  predicate CleanValue(value: string) {
    '\n' !in value
    && (value == [] || (!IsDoubleQuote(value[0]) && !IsSingleQuote(value[0])
                        && !IsDoubleQuote(value[|value| - 1]) && !IsSingleQuote(value[|value| - 1])))
  }

  predicate CleanSettings(settings: Dict<string>) {
    forall i :: 0 <= i < |settings| ==> CleanKey(settings[i].key) && CleanValue(settings[i].value)
  }

  /** `"v"` with the quotes stripped off is `v`, when `v` has no `"` at either end. */
  lemma StripQuotedValue(v: string)
    requires v == [] || (!IsDoubleQuote(v[0]) && !IsDoubleQuote(v[|v| - 1]))
    ensures StripBy("\"" + v + "\"", IsDoubleQuote) == v
  {
    var q := "\"" + v + "\"";
    var w := v + "\"";
    assert q[0] == '"' && q[1..] == w;
    assert TrimStart(q, IsDoubleQuote) == TrimStart(w, IsDoubleQuote);
    assert w[|w| - 1] == '"' && w[..|w| - 1] == v;
    if v == [] {
      assert w[0] == '"' && w[1..] == [];
      assert TrimStart(w, IsDoubleQuote) == TrimStart([], IsDoubleQuote) == [];
      assert TrimEnd([], IsDoubleQuote) == [];
    } else {
      assert w[0] == v[0];
      assert TrimStart(w, IsDoubleQuote) == w;
      assert TrimEnd(w, IsDoubleQuote) == TrimEnd(v, IsDoubleQuote);
      assert TrimEnd(v, IsDoubleQuote) == v;
    }
  }

  /** A quoted line `key="value"` is read back as the pair it was written from. */
  lemma ParseQuotedLine(key: string, value: string)
    requires CleanKey(key)
    requires value == [] || (!IsDoubleQuote(value[0]) && !IsDoubleQuote(value[|value| - 1]))
    ensures ParseSetting(key + "=\"" + value + "\"") == Some(Entry(key, StripBy(value, IsSingleQuote)))
  {
    var line := key + "=\"" + value + "\"";
    var rest := "\"" + value + "\"";
    assert line == key + ['='] + rest;
    assert line[0] == key[0] && line[|line| - 1] == '"';
    StripByIdentity(line, IsSpace);
    assert forall k :: 0 <= k < |key| ==> line[k] == key[k];
    SpanUnique(line, 0, NotEqualsSign, |key|);
    assert line[..|key|] == key;
    assert line[|key| + 1..] == rest;
    StripByIdentity(key, IsSpace);
    assert rest[0] == '"' && rest[|rest| - 1] == '"';
    StripByIdentity(rest, IsSpace);
    StripQuotedValue(value);
  }

  /** A bare line `key=digits` is read back as the pair it was written from. */
  lemma ParseBareLine(key: string, value: string)
    requires CleanKey(key) && IsDigits(value)
    ensures ParseSetting(key + "=" + value) == Some(Entry(key, value))
  {
    var line := key + "=" + value;
    assert line == key + ['='] + value;
    assert line[0] == key[0] && line[|line| - 1] == value[|value| - 1];
    assert IsDigit(value[0]) && IsDigit(value[|value| - 1]);
    StripByIdentity(line, IsSpace);
    assert forall k :: 0 <= k < |key| ==> line[k] == key[k];
    SpanUnique(line, 0, NotEqualsSign, |key|);
    assert line[..|key|] == key;
    assert line[|key| + 1..] == value;
    StripByIdentity(key, IsSpace);
    StripByIdentity(value, IsSpace);
    StripByIdentity(value, IsDoubleQuote);
    StripByIdentity(value, IsSingleQuote);
  }

  /** Every line `save_grub_config` writes for a clean entry reads back as that entry. */
  lemma ParseConfigLine(e: Entry<string>)
    requires CleanKey(e.key) && CleanValue(e.value)
    ensures ParseSetting(ConfigLine(e)) == Some(e)
    ensures '\n' !in ConfigLine(e)
  {
    ConfigLineBareIff(e);
    if IsDigits(e.value) {
      ParseBareLine(e.key, e.value);
    } else {
      ParseQuotedLine(e.key, e.value);
      StripByIdentity(e.value, IsSingleQuote);
    }
  }

  /** Reading lines that each hold one clean entry, with distinct keys, rebuilds those entries. */
  lemma {:induction false} SettingsOfConfigLines(settings: Dict<string>)
    requires CleanSettings(settings) && DistinctKeys(settings)
    ensures SettingsOf(ConfigLines(settings)) == settings
    decreases |settings|
  {
    if settings != [] {
      var prefix := settings[..|settings| - 1];
      var last := settings[|settings| - 1];
      var lines := ConfigLines(prefix) + [ConfigLine(last)];
      SettingsOfConfigLines(prefix);
      ParseConfigLine(last);
      assert lines[..|lines| - 1] == ConfigLines(prefix);
      PutNew(prefix, last.key, last.value);
      assert prefix + [Entry(last.key, last.value)] == settings;
    }
  }

  /** Every written line of clean settings is one line. */
  lemma {:induction false} ConfigLinesOneLine(settings: Dict<string>)
    requires CleanSettings(settings)
    ensures forall i :: 0 <= i < |ConfigLines(settings)| ==> '\n' !in ConfigLines(settings)[i]
    decreases |settings|
  {
    if settings != [] {
      var prefix := settings[..|settings| - 1];
      assert CleanSettings(prefix);
      ConfigLinesOneLine(prefix);
      ParseConfigLine(settings[|settings| - 1]);
    }
  }

  /** Writing then reading gives back the very settings written, when their keys and values are clean. */
  lemma SaveThenRead(settings: Dict<string>)
    requires CleanSettings(settings) && DistinctKeys(settings)
    ensures ReadConfig(Contents(ConfigText(settings))) == settings
  {
    var lines := ConfigLines(settings);
    SettingsOfConfigLines(settings);
    ConfigLinesOneLine(settings);
    SplitNewlinesTerminated(lines);
    SettingsOfBlankLast(lines);
  }

  /** A final empty piece adds nothing. */
  lemma SettingsOfBlankLast(lines: seq<string>)
    ensures SettingsOf(lines + [""]) == SettingsOf(lines)
  {
    assert (lines + [""])[..|lines|] == lines;
    assert Strip("") == "";
  }
}
