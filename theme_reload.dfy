/**
  Saving then parsing, the top-level lines: how the line pass and the append pass of
  `save_theme` change the map the top-level pass of `parse_theme` reads, and the full round trip
  for theme text without blocks.
*/
module ThemeReload {
  import opened Wrappers
  import opened Text
  import opened Dicts
  import opened ThemeSchema
  import opened ThemeSyntax
  import opened ThemeParser
  import opened ThemeRoundTrip

  // ---------------------------------------------------------------------------
  // What one line records
  // ---------------------------------------------------------------------------

  /** A character missing from a line is missing from the stripped line. */
  lemma StripLacks(s: string, c: char)
    requires c !in s
    ensures c !in Strip(s)
  {
    var t := TrimStart(s, IsSpace);
    TrimStartFacts(s, IsSpace);
    TrimEndFacts(t, IsSpace);
    assert forall k :: 0 <= k < |t| ==> t[k] == s[|s| - |t| + k];
    assert forall k :: 0 <= k < |Strip(s)| ==> Strip(s)[k] == t[k];
  }

  /** The top-level pattern needs a colon. */
  lemma MatchGlobalColon(line: string)
    requires ':' !in line
    ensures MatchGlobal(line).None?
  {
    var k := Span(line, 0, IsKeyChar);
    var c := Span(line, k, IsSpace);
    if c < |line| {
      assert line[c] in line;
    }
  }

  /** A line with no colon records nothing. */
  lemma LineWithoutColon(line: string)
    requires ':' !in line
    ensures LineRecord(line).None?
  {
    StripLacks(line, ':');
    MatchGlobalColon(Strip(line));
  }

  /** Every key written as a plain top-level line is made of key characters. */
  lemma PlainKeyText(key: string)
    requires IsPlain(key)
    ensures IsKeyText(key)
  {
    if key == "title-text" {
      TitleTextKeyText();
    } else if key == "title-font" {
      TitleFontKeyText();
    } else if key == "title-color" {
      TitleColorKeyText();
    } else if key == "desktop-image" {
      DesktopImageKeyText();
    } else if key == "desktop-color" {
      DesktopColorKeyText();
    } else if key == "terminal-font" {
      TerminalFontKeyText();
    } else if key == "message-font" {
      MessageFontKeyText();
    } else {
      MessageColorKeyText();
    }
  }

  lemma TitleTextKeyText() ensures IsKeyText("title-text") {}
  lemma TitleFontKeyText() ensures IsKeyText("title-font") {}
  lemma TitleColorKeyText() ensures IsKeyText("title-color") {}
  lemma DesktopImageKeyText() ensures IsKeyText("desktop-image") {}
  lemma DesktopColorKeyText() ensures IsKeyText("desktop-color") {}
  lemma TerminalFontKeyText() ensures IsKeyText("terminal-font") {}
  lemma MessageFontKeyText() ensures IsKeyText("message-font") {}
  lemma MessageColorKeyText() ensures IsKeyText("message-color") {}

  /** A value `save_theme` can write on one line and `parse_theme` reads back whole. */
  predicate WritableValue(v: string) {
    NoDoubleQuote(v) && NoLineBreak(v) && '{' !in v
  }

  /** Every value the data holds for a plain key is writable. */
  predicate WritableData(data: Dict<string>) {
    forall i :: 0 <= i < |data| && IsPlain(data[i].key) ==> WritableValue(data[i].value)
  }

  lemma WritableGet(data: Dict<string>, key: string)
    requires WritableData(data) && IsPlain(key) && HasKey(data, key)
    ensures WritableValue(Get(data, key).value)
  {
    var m := GetIndex(data, key);
  }

  /** The line written for a plain key records that key and value. */
  lemma FormatRecord(key: string, value: string)
    requires IsPlain(key) && NoDoubleQuote(value)
    ensures LineRecord(FormatGlobal(key, value)) == Some(Assignment(key, value))
  {
    PlainKeyText(key);
    StripFormatGlobal(key, value);
    MatchFormatGlobal(key, value);
    assert FormatGlobal(key, value)[0] == key[0];
  }

  /** The line pass's decision, read off what the line records. */
  function ClassOf(record: Option<Assignment>, data: Dict<string>): LineAction {
    match record
    case None => Keep
    case Some(a) =>
      if IsPlain(a.key) && HasKey(data, a.key) then Replace(a.key)
      else if IsVirtual(a.key) then Drop
      else Keep
  }

  /** On a line with no `{`, the line pass replaces exactly the lines recording a plain key of
      the data, drops exactly those recording a virtual key, and keeps the rest. */
  lemma ClassifyByRecord(line: string, data: Dict<string>)
    requires '{' !in line
    ensures Classify(line, data) == ClassOf(LineRecord(line), data)
  {
    StripLacks(line, '{');
    var s := Strip(line);
    if s != [] {
      assert s[..1] == [s[0]];
    }
  }
  /** A line holding `{` is kept by the writer even when it assigns a virtual key, and the parser
      still records that key: `box-bg-color: "#000" {` survives a save and is read back. */
  lemma BracedVirtualKept(data: Dict<string>)
    ensures var line := "box-bg-color: \"#000\" {";
      IsVirtual("box-bg-color") && Classify(line, data) == Keep
      && LineRecord(line) == Some(Assignment("box-bg-color", "#000"))
  {
    var line := "box-bg-color: \"#000\" {";
    BracedLineMatch(line);
    assert line[0] != '#' && line[21] == '{';
  }

  /** The braced line is its own strip and matches the top-level pattern. */
  lemma BracedLineMatch(line: string)
    requires line == "box-bg-color: \"#000\" {"
    ensures Strip(line) == line
    ensures MatchGlobal(line) == Some(Assignment("box-bg-color", "#000"))
  {
    BracedLineStrip(line);
    BracedKeySpan(line);
    BracedSpaceSpans(line);
    BracedValueSpan(line);
    MatchGlobalIntro(line, 12, 12, 14, 15, 19);
    assert line[..12] == "box-bg-color";
    assert line[15..19] == "#000";
  }

  /** Neither end of the braced line is whitespace. */
  lemma BracedLineStrip(line: string)
    requires line == "box-bg-color: \"#000\" {"
    ensures Strip(line) == line
  {
    assert line[0] == 'b' && line[|line| - 1] == '{';
    StripByIdentity(line, IsSpace);
  }

  /** The key run of the braced line. */
  lemma BracedKeySpan(line: string)
    requires line == "box-bg-color: \"#000\" {"
    ensures Span(line, 0, IsKeyChar) == 12
  {
    SpanUnique(line, 0, IsKeyChar, 12);
  }

  /** The spaces before the colon and before the opening quote. */
  lemma BracedSpaceSpans(line: string)
    requires line == "box-bg-color: \"#000\" {"
    ensures Span(line, 12, IsSpace) == 12 && line[12] == ':'
    ensures Span(line, 13, IsSpace) == 14 && line[14] == '"'
  {
    SpanUnique(line, 12, IsSpace, 12);
    SpanUnique(line, 13, IsSpace, 14);
  }

  /** The value run up to the closing quote. */
  lemma BracedValueSpan(line: string)
    requires line == "box-bg-color: \"#000\" {"
    ensures Span(line, 15, NotDoubleQuote) == 19
  {
    SpanUnique(line, 15, NotDoubleQuote, 19);
  }




  lemma GlobalsOfSnoc(lines: seq<string>, line: string)
    ensures GlobalsOf(lines + [line]) == GlobalStep(GlobalsOf(lines), line)
  {
    assert (lines + [line])[..|lines|] == lines;
  }

  /** The top-level map after the line pass: plain keys of the data take the data's value,
      virtual keys disappear, everything else is as it was. */
  function Retarget(props: Properties, data: Dict<string>): Properties {
    map k | k in props && IsPlain(k) :: if HasKey(data, k) then Get(data, k).value else props[k]
  }

  lemma RetargetVirtual(props: Properties, data: Dict<string>, key: string, value: string)
    requires !IsPlain(key)
    ensures Retarget(props[key := value], data) == Retarget(props, data)
  {
  }

  lemma RetargetReplaced(props: Properties, data: Dict<string>, key: string, value: string)
    requires IsPlain(key) && HasKey(data, key)
    ensures Retarget(props[key := value], data) == Retarget(props, data)[key := Get(data, key).value]
  {
  }

  lemma RetargetKept(props: Properties, data: Dict<string>, key: string, value: string)
    requires IsPlain(key) && !HasKey(data, key)
    ensures Retarget(props[key := value], data) == Retarget(props, data)[key := value]
  {
  }

  /** One line of the line pass, on the map the top-level pass reads. */
  lemma RewriteGlobalsStep(out: seq<string>, props: Properties, line: string, data: Dict<string>)
    requires '{' !in line && WritableData(data)
    requires GlobalsOf(out) == Retarget(props, data)
    ensures GlobalsOf(out + Rewritten(line, data)) == Retarget(GlobalStep(props, line), data)
  {
    ClassifyByRecord(line, data);
    match LineRecord(line)
    case None =>
      GlobalsOfSnoc(out, line);
    case Some(a) =>
      if IsPlain(a.key) && HasKey(data, a.key) {
        RetargetReplaced(props, data, a.key, a.value);
        WritableGet(data, a.key);
        FormatRecord(a.key, Get(data, a.key).value);
        GlobalsOfSnoc(out, DataLine(data, a.key));
      } else if IsVirtual(a.key) {
        RetargetVirtual(props, data, a.key, a.value);
        assert out + [] == out;
      } else {
        RetargetKept(props, data, a.key, a.value);
        GlobalsOfSnoc(out, line);
      }
  }

  lemma {:induction false} RewriteGlobals(lines: seq<string>, data: Dict<string>)
    requires forall i :: 0 <= i < |lines| ==> '{' !in lines[i]
    requires WritableData(data)
    ensures GlobalsOf(Rewrite(lines, data)) == Retarget(GlobalsOf(lines), data)
    decreases |lines|
  {
    if lines != [] {
      var init := lines[..|lines| - 1];
      RewriteGlobals(init, data);
      RewriteGlobalsStep(Rewrite(init, data), GlobalsOf(init), lines[|lines| - 1], data);
    }
  }

  /** The keys the line pass replaced are the plain keys of the data the text records. */
  lemma {:induction false} ReplacedKeys(lines: seq<string>, data: Dict<string>)
    requires forall i :: 0 <= i < |lines| ==> '{' !in lines[i]
    ensures Replaced(lines, data) == set k | k in GlobalsOf(lines) && IsPlain(k) && HasKey(data, k)
    decreases |lines|
  {
    if lines != [] {
      ReplacedKeys(lines[..|lines| - 1], data);
      ClassifyByRecord(lines[|lines| - 1], data);
    }
  }

  /** What the append pass adds to the top-level map: the plain keys of the data no line replaced. */
  function MissingMap(data: Dict<string>, replaced: set<string>): Properties {
    map k | k in Keys(data) && IsPlain(k) && k !in replaced :: Get(data, k).value
  }

  /** A key no entry has is not in the dict. */
  lemma {:induction false} KeyAbsent(d: Dict<string>, k: string)
    requires forall m :: 0 <= m < |d| ==> d[m].key != k
    ensures !HasKey(d, k)
  {
    if d != [] {
      KeyAbsent(d[1..], k);
    }
  }

  /** The last entry of a dict with distinct keys has a key no earlier entry has. */
  lemma LastKeyFresh(data: Dict<string>)
    requires DistinctKeys(data) && data != []
    ensures !HasKey(data[..|data| - 1], data[|data| - 1].key)
  {
    var d := data[..|data| - 1];
    forall m | 0 <= m < |d|
      ensures d[m].key != data[|data| - 1].key
    {
      assert d[m] == data[m];
    }
    KeyAbsent(d, data[|data| - 1].key);
  }

  lemma MissingMapSnoc(d: Dict<string>, e: Entry<string>, replaced: set<string>)
    requires !HasKey(d, e.key)
    ensures MissingMap(d + [e], replaced)
      == if IsPlain(e.key) && e.key !in replaced then MissingMap(d, replaced)[e.key := e.value] else MissingMap(d, replaced)
  {
    KeysSnoc(d, e);
    forall k | k in Keys(d + [e])
      ensures Get(d + [e], k) == if k == e.key then Some(e.value) else Get(d, k)
    {
      GetSnoc(d, e, k);
    }
  }

  lemma MissingSnoc(d: Dict<string>, e: Entry<string>, replaced: set<string>)
    ensures Missing(d + [e], replaced)
      == Missing(d, replaced) + if IsPlain(e.key) && e.key !in replaced then [FormatGlobal(e.key, e.value)] else []
  {
    assert (d + [e])[..|d|] == d;
  }

  lemma UnionUpdate(props: Properties, m: Properties, key: string, value: string)
    ensures (props + m)[key := value] == props + m[key := value]
  {
  }

  /** One entry of the append pass, on the map the top-level pass reads. */
  lemma MissingGlobalsStep(before: seq<string>, props: Properties, d: Dict<string>, e: Entry<string>, replaced: set<string>)
    requires !HasKey(d, e.key) && (IsPlain(e.key) ==> WritableValue(e.value))
    requires GlobalsOf(before) == props + MissingMap(d, replaced)
    ensures GlobalsOf(before + if IsPlain(e.key) && e.key !in replaced then [FormatGlobal(e.key, e.value)] else [])
      == props + MissingMap(d + [e], replaced)
  {
    MissingMapSnoc(d, e, replaced);
    if IsPlain(e.key) && e.key !in replaced {
      var line := FormatGlobal(e.key, e.value);
      FormatRecord(e.key, e.value);
      GlobalsOfSnoc(before, line);
      assert GlobalStep(GlobalsOf(before), line) == GlobalsOf(before)[e.key := e.value];
      UnionUpdate(props, MissingMap(d, replaced), e.key, e.value);
    } else {
      assert before + [] == before;
    }
  }

  /** The append pass writes one line per missing plain key, each read back as written. */
  lemma {:induction false} MissingGlobals(prefix: seq<string>, data: Dict<string>, replaced: set<string>)
    requires DistinctKeys(data) && WritableData(data)
    ensures GlobalsOf(prefix + Missing(data, replaced)) == GlobalsOf(prefix) + MissingMap(data, replaced)
    decreases |data|
  {
    if data == [] {
      assert prefix + [] == prefix;
    } else {
      var d := data[..|data| - 1];
      var e := data[|data| - 1];
      assert data == d + [e];
      LastKeyFresh(data);
      MissingGlobals(prefix, d, replaced);
      MissingSnoc(d, e, replaced);
      var tail := if IsPlain(e.key) && e.key !in replaced then [FormatGlobal(e.key, e.value)] else [];
      assert prefix + Missing(data, replaced) == prefix + Missing(d, replaced) + tail;
      MissingGlobalsStep(prefix + Missing(d, replaced), GlobalsOf(prefix), d, e, replaced);
    }
  }

  // ---------------------------------------------------------------------------
  // The kept text
  // ---------------------------------------------------------------------------

  /** A line that stays one line and opens no block. */
  predicate CleanLine(line: string) {
    NoLineBreak(line) && '{' !in line
  }

  lemma FormatGlobalClean(key: string, value: string)
    requires IsPlain(key) && WritableValue(value)
    ensures CleanLine(FormatGlobal(key, value))
  {
    PlainKeyText(key);
    var line := FormatGlobal(key, value);
    forall k | 0 <= k < |line|
      ensures !IsLineBreak(line[k]) && line[k] != '{'
    {
      if k < |key| {
        assert line[k] == key[k];
      } else if |key| + 3 <= k < |key| + 3 + |value| {
        assert line[k] == value[k - |key| - 3];
      }
    }
  }

  lemma {:induction false} RewriteClean(lines: seq<string>, data: Dict<string>)
    requires forall i :: 0 <= i < |lines| ==> CleanLine(lines[i])
    requires WritableData(data)
    ensures forall j :: 0 <= j < |Rewrite(lines, data)| ==> CleanLine(Rewrite(lines, data)[j])
    decreases |lines|
  {
    if lines != [] {
      var line := lines[|lines| - 1];
      RewriteClean(lines[..|lines| - 1], data);
      match Classify(line, data)
      case Replace(key) =>
        WritableGet(data, key);
        FormatGlobalClean(key, Get(data, key).value);
      case _ =>
    }
  }

  lemma {:induction false} MissingClean(data: Dict<string>, replaced: set<string>)
    requires WritableData(data)
    ensures forall j :: 0 <= j < |Missing(data, replaced)| ==> CleanLine(Missing(data, replaced)[j])
    decreases |data|
  {
    if data != [] {
      var e := data[|data| - 1];
      MissingClean(data[..|data| - 1], replaced);
      if IsPlain(e.key) {
        FormatGlobalClean(e.key, e.value);
      }
    }
  }

  /** Lines without a colon after the top-level lines change nothing the top-level pass reads. */
  lemma {:induction false} GlobalsOfInert(a: seq<string>, b: seq<string>)
    requires forall i :: 0 <= i < |b| ==> ':' !in b[i]
    ensures GlobalsOf(a + b) == GlobalsOf(a)
    decreases |b|
  {
    if b == [] {
      assert a + b == a;
    } else {
      var init := b[..|b| - 1];
      GlobalsOfInert(a, init);
      assert a + b == (a + init) + [b[|b| - 1]];
      GlobalsOfSnoc(a + init, b[|b| - 1]);
      LineWithoutColon(b[|b| - 1]);
    }
  }

  /** The top-level map `parse_theme` reads from the saved text, block-free theme text first. */
  function SavedGlobals(lines: seq<string>, data: Dict<string>): Properties {
    Retarget(GlobalsOf(lines), data) + MissingMap(data, Replaced(lines, data))
  }

  /** The kept text has no `{`, and the top-level pass reads the saved globals from it whatever
      colon-free text follows. */
  lemma KeptGlobals(text: string, data: Dict<string>, tail: string)
    requires '{' !in text && DistinctKeys(data) && WritableData(data) && ':' !in tail
    ensures '{' !in KeptText(SplitLines(text), data)
    ensures GlobalsOf(SplitLines(KeptText(SplitLines(text), data) + tail)) == SavedGlobals(SplitLines(text), data)
  {
    var lines := SplitLines(text);
    SplitLinesLacks(text, '{');
    SplitLinesNoBreak(text);
    KeptLines(lines, data);
    JoinedGlobals(Rewrite(lines, data) + Missing(data, Replaced(lines, data)), tail);
  }

  /** The kept lines are clean, and the top-level pass reads the saved globals from them. */
  lemma KeptLines(lines: seq<string>, data: Dict<string>)
    requires forall i :: 0 <= i < |lines| ==> CleanLine(lines[i])
    requires DistinctKeys(data) && WritableData(data)
    ensures var out := Rewrite(lines, data) + Missing(data, Replaced(lines, data));
      (forall j :: 0 <= j < |out| ==> CleanLine(out[j])) && GlobalsOf(out) == SavedGlobals(lines, data)
  {
    var rewritten := Rewrite(lines, data);
    RewriteClean(lines, data);
    MissingClean(data, Replaced(lines, data));
    RewriteGlobals(lines, data);
    MissingGlobals(rewritten, data, Replaced(lines, data));
  }

  /** Clean lines joined and followed by colon-free text read back as those lines. */
  lemma JoinedGlobals(out: seq<string>, tail: string)
    requires forall j :: 0 <= j < |out| ==> CleanLine(out[j])
    requires ':' !in tail
    ensures '{' !in JoinLines(out)
    ensures GlobalsOf(SplitLines(JoinLines(out) + tail)) == GlobalsOf(out)
  {
    var terminated := if out == [] then [""] else out;
    JoinLinesAsTerminated(out);
    TerminatedLacks(terminated, '{');
    SplitTerminatedAppend(terminated, tail);
    SplitLinesLacks(tail, ':');
    GlobalsOfInert(terminated, SplitLines(tail));
    if out == [] {
      assert terminated == [] + [""];
      GlobalsOfSnoc([], "");
    }
  }

  /** Each plain key of the saved globals: the data's value when the data has the key, the
      text's value otherwise. */
  lemma SavedGlobalsPlain(lines: seq<string>, data: Dict<string>, key: string)
    requires forall i :: 0 <= i < |lines| ==> '{' !in lines[i]
    requires IsPlain(key)
    ensures HasKey(data, key) ==> key in SavedGlobals(lines, data) && SavedGlobals(lines, data)[key] == Get(data, key).value
    ensures !HasKey(data, key) ==> (key in SavedGlobals(lines, data) <==> key in GlobalsOf(lines))
    ensures !HasKey(data, key) && key in GlobalsOf(lines) ==> SavedGlobals(lines, data)[key] == GlobalsOf(lines)[key]
  {
    ReplacedKeys(lines, data);
  }

  /** The saved globals hold plain keys only. */
  lemma SavedGlobalsOnlyPlain(lines: seq<string>, data: Dict<string>, key: string)
    requires key in SavedGlobals(lines, data)
    ensures IsPlain(key)
  {
  }

  // ---------------------------------------------------------------------------
  // The round trip
  // ---------------------------------------------------------------------------

  /** Text with no `{` has no block. */
  lemma NoBlocks(s: string, name: BlockName)
    requires '{' !in s
    ensures FindBlock(s, name).None?
  {
    assert forall k :: 0 <= k < |s| ==> s[k] != '{';
    forall q | 0 <= q < |s|
      ensures BlockAt(s, q, name).None?
    {
      assert OpenerAt(s, q, NameText(name)).None?;
    }
  }

  /** Parsing text with no block reads the top-level lines alone. */
  lemma ParsedWithoutBlocks(text: string)
    requires '{' !in text
    ensures ParsedTheme(Some(text)) == GlobalsOf(SplitLines(text))
  {
    NoBlocks(text, ProgressBar);
    NoBlocks(text, BootMenu);
  }

  /** The coordinates of every position are coordinate text. */
  lemma CoordsText(name: string)
    requires CoordsOf(name).Some?
    ensures IsCoordText(CoordsOf(name).value.left) && IsCoordText(CoordsOf(name).value.top)
  {
  }

  /** The hypotheses of the round trip on the data: distinct keys, writable plain values, and
      progress colours (or their defaults) that are colour text. */
  predicate SaveableData(data: Dict<string>) {
    DistinctKeys(data) && WritableData(data)
    && ColorText(GetOr(data, "progress-color", "#fff")) && ColorText(GetOr(data, "progress-bg-color", "#000"))
  }

  /** The map `parse_theme` reads back from what `save_theme` writes: the saved globals, the
      progress colours and style, and the position when the data names one. */
  function Reloaded(text: string, data: Dict<string>): Properties {
    var bar := SavedGlobals(SplitLines(text), data)
      ["progress-color" := GetOr(data, "progress-color", "#fff")]
      ["progress-bg-color" := GetOr(data, "progress-bg-color", "#000")]
      ["progress-style" := "bar"];
    if Placed(data) then bar["menu-position" := Get(data, "menu-position").value] else bar
  }

  /** The data names a position of the table. */
  predicate Placed(data: Dict<string>) {
    Get(data, "menu-position").Some? && CoordsOf(Get(data, "menu-position").value).Some?
  }

  /** Rebuilding the progress bar of text with no `{` appends the block to the text unchanged. */
  lemma WithProgressBarKept(kept: string, data: Dict<string>)
    requires '{' !in kept
    ensures WithProgressBar(kept, data)
      == kept + ProgressBlock(GetOr(data, "progress-color", "#fff"), GetOr(data, "progress-bg-color", "#000"))
  {
    assert forall k :: 0 <= k < |kept| ==> kept[k] != '{';
    RemoveBlocksNoBrace(kept, ProgressBar, 0);
    assert kept[0..] == kept;
  }

  /** Text with no boot menu gets a new one exactly when the data names a position. */
  lemma PlaceBootMenuFresh(s: string, data: Dict<string>)
    requires !HasOpener(s, BootMenu)
    ensures !Placed(data) ==> PlaceBootMenu(s, data) == s
    ensures Placed(data) ==>
      var c := CoordsOf(Get(data, "menu-position").value).value;
      PlaceBootMenu(s, data) == s + NewBootMenu(c.left, c.top)
  {
  }

  /** The text `save_theme` writes for theme text with no block: the kept text, the progress bar
      block, and a boot menu block when the data names a position. */
  lemma SavedTextOf(text: string, data: Dict<string>)
    requires '{' !in text && SaveableData(data)
    ensures var kept := KeptText(SplitLines(text), data);
      var block := ProgressBlock(GetOr(data, "progress-color", "#fff"), GetOr(data, "progress-bg-color", "#000"));
      SavedTheme(Some(text), data) == Some(if Placed(data)
        then kept + block + NewBootMenu(CoordsOf(Get(data, "menu-position").value).value.left, CoordsOf(Get(data, "menu-position").value).value.top)
        else kept + block)
  {
    var kept := KeptText(SplitLines(text), data);
    var color := GetOr(data, "progress-color", "#fff");
    var bg := GetOr(data, "progress-bg-color", "#000");
    KeptGlobals(text, data, "");
    WithProgressBarKept(kept, data);
    SavedProgressBar(kept, color, bg, map[]);
    PlaceBootMenuFresh(kept + ProgressBlock(color, bg), data);
  }

  /** `parse_theme` as the composition of its three passes. */
  lemma ParsedOf(s: string, globals: Properties, bar: Properties, result: Properties)
    requires GlobalsOf(SplitLines(s)) == globals && ProgressPass(s, globals) == bar && PositionPass(s, bar) == result
    ensures ParsedTheme(Some(s)) == result
  {
  }

  lemma SavedParsedUnplaced(text: string, data: Dict<string>)
    requires '{' !in text && SaveableData(data) && !Placed(data)
    ensures ParsedTheme(SavedTheme(Some(text), data)) == Reloaded(text, data)
  {
    var kept := KeptText(SplitLines(text), data);
    var color := GetOr(data, "progress-color", "#fff");
    var bg := GetOr(data, "progress-bg-color", "#000");
    var block := ProgressBlock(color, bg);
    var globals := SavedGlobals(SplitLines(text), data);
    var bar := globals["progress-color" := color]["progress-bg-color" := bg]["progress-style" := "bar"];
    SavedTextOf(text, data);
    KeptGlobals(text, data, "");
    SavedProgressBar(kept, color, bg, globals);
    KeptGlobals(text, data, block);
    SavedProgressBar(kept, color, bg, bar);
    ParsedOf(kept + block, globals, bar, bar);
  }

  lemma SavedParsedPlaced(text: string, data: Dict<string>)
    requires '{' !in text && SaveableData(data) && Placed(data)
    ensures ParsedTheme(SavedTheme(Some(text), data)) == Reloaded(text, data)
  {
    var kept := KeptText(SplitLines(text), data);
    var color := GetOr(data, "progress-color", "#fff");
    var bg := GetOr(data, "progress-bg-color", "#000");
    var block := ProgressBlock(color, bg);
    var name := Get(data, "menu-position").value;
    var c := CoordsOf(name).value;
    var menu := NewBootMenu(c.left, c.top);
    var globals := SavedGlobals(SplitLines(text), data);
    var bar := globals["progress-color" := color]["progress-bg-color" := bg]["progress-style" := "bar"];
    SavedTextOf(text, data);
    KeptGlobals(text, data, "");
    CoordsText(name);
    SavedProgressBar(kept, color, bg, globals);
    SavedBootMenu(kept, color, bg, c.left, c.top, globals);
    assert ':' !in block + menu;
    KeptGlobals(text, data, block + menu);
    Assoc(kept, block, menu);
    SavedBootMenu(kept, color, bg, c.left, c.top, bar);
    PositionRoundTrip(name, c.left, c.top);
    ParsedOf(kept + block + menu, globals, bar, bar["menu-position" := name]);
  }

  /** For theme text with no block, parsing the saved text gives the reloaded map. */
  lemma SavedParsed(text: string, data: Dict<string>)
    requires '{' !in text && SaveableData(data)
    ensures ParsedTheme(SavedTheme(Some(text), data)) == Reloaded(text, data)
  {
    if Placed(data) {
      SavedParsedPlaced(text, data);
    } else {
      SavedParsedUnplaced(text, data);
    }
  }

  /** Away from the progress and position keys, the reloaded map is the saved globals. */
  lemma ReloadedAway(text: string, data: Dict<string>, key: string)
    requires key != "progress-color" && key != "progress-bg-color" && key != "progress-style" && key != "menu-position"
    ensures key in Reloaded(text, data) <==> key in SavedGlobals(SplitLines(text), data)
    ensures key in Reloaded(text, data) ==> Reloaded(text, data)[key] == SavedGlobals(SplitLines(text), data)[key]
  {
    var g := SavedGlobals(SplitLines(text), data);
    var bar := g["progress-color" := GetOr(data, "progress-color", "#fff")]
      ["progress-bg-color" := GetOr(data, "progress-bg-color", "#000")]["progress-style" := "bar"];
    assert key in bar <==> key in g;
    assert key in g ==> bar[key] == g[key];
    if Placed(data) {
      var r := bar["menu-position" := Get(data, "menu-position").value];
      assert Reloaded(text, data) == r;
    } else {
      assert Reloaded(text, data) == bar;
    }
  }

  /** The reloaded map on a plain key: the data's value, or the text's. */
  lemma ReloadedPlain(text: string, data: Dict<string>, key: string)
    requires '{' !in text && IsPlain(key)
    ensures var r := Reloaded(text, data);
      var g := GlobalsOf(SplitLines(text));
      && (HasKey(data, key) ==> key in r && r[key] == Get(data, key).value)
      && (!HasKey(data, key) ==> (key in r <==> key in g))
      && (!HasKey(data, key) && key in g ==> r[key] == g[key])
  {
    assert !IsVirtual(key);
    ReloadedAway(text, data, key);
    SplitLinesLacks(text, '{');
    SavedGlobalsPlain(SplitLines(text), data, key);
  }

  /** Save then parse, for theme text with no block: a plain key of the data reads back the
      data's value, and any other plain key reads back what the text alone gives. */
  lemma SaveThenParsePlain(text: string, data: Dict<string>, key: string)
    requires '{' !in text && SaveableData(data) && IsPlain(key)
    ensures var after := ParsedTheme(SavedTheme(Some(text), data));
      var before := ParsedTheme(Some(text));
      && (HasKey(data, key) ==> key in after && after[key] == Get(data, key).value)
      && (!HasKey(data, key) ==> (key in after <==> key in before))
      && (!HasKey(data, key) && key in before ==> after[key] == before[key])
  {
    SavedParsed(text, data);
    ParsedWithoutBlocks(text);
    ReloadedPlain(text, data, key);
  }

  /** The reloaded map on the progress and position keys. */
  lemma ReloadedVirtual(text: string, data: Dict<string>)
    ensures var r := Reloaded(text, data);
      && "progress-color" in r && r["progress-color"] == GetOr(data, "progress-color", "#fff")
      && "progress-bg-color" in r && r["progress-bg-color"] == GetOr(data, "progress-bg-color", "#000")
      && "progress-style" in r && r["progress-style"] == "bar"
      && ("menu-position" in r <==> Placed(data))
      && (Placed(data) ==> r["menu-position"] == Get(data, "menu-position").value)
  {
    if "menu-position" in SavedGlobals(SplitLines(text), data) {
      SavedGlobalsOnlyPlain(SplitLines(text), data, "menu-position");
    }
  }

  /** Save then parse, for theme text with no block: the progress colours read back the data's
      (or the defaults) with the bar style, and the position reads back exactly when the data
      names one of the table. */
  lemma SaveThenParseVirtual(text: string, data: Dict<string>)
    requires '{' !in text && SaveableData(data)
    ensures var after := ParsedTheme(SavedTheme(Some(text), data));
      && "progress-color" in after && after["progress-color"] == GetOr(data, "progress-color", "#fff")
      && "progress-bg-color" in after && after["progress-bg-color"] == GetOr(data, "progress-bg-color", "#000")
      && "progress-style" in after && after["progress-style"] == "bar"
      && ("menu-position" in after <==> Placed(data))
      && (Placed(data) ==> after["menu-position"] == Get(data, "menu-position").value)
  {
    SavedParsed(text, data);
    ReloadedVirtual(text, data);
  }

  /** The reloaded map holds the plain keys, the progress keys and the position only. */
  lemma ReloadedOnly(text: string, data: Dict<string>, key: string)
    requires key in Reloaded(text, data)
    ensures IsPlain(key) || key == "progress-color" || key == "progress-bg-color" || key == "progress-style"
      || key == "menu-position"
  {
    if key in SavedGlobals(SplitLines(text), data) {
      SavedGlobalsOnlyPlain(SplitLines(text), data, key);
    }
  }

  /** Save then parse, for theme text with no block: no key appears beyond the plain keys, the
      progress keys and the position. */
  lemma SaveThenParseOnly(text: string, data: Dict<string>, key: string)
    requires '{' !in text && SaveableData(data)
    requires key in ParsedTheme(SavedTheme(Some(text), data))
    ensures IsPlain(key) || key == "progress-color" || key == "progress-bg-color" || key == "progress-style"
      || key == "menu-position"
  {
    SavedParsed(text, data);
    ReloadedOnly(text, data, key);
  }
}
