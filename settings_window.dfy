/**
  The main settings window: it holds the settings read from `/etc/default/grub`, one widget per
  shown key, and on Save gathers the widgets back into the settings and builds the text that
  replaces `/etc/default/grub`.
*/
module SettingsWindow {
  import opened Wrappers
  import opened Text
  import opened Dicts
  import opened GrubConfig

  const ThemeKey: string := "GRUB_THEME"
  const ThemesDir: string := "/boot/grub/themes/"
  const DefaultThemePath: string := "/boot/grub/themes/GrubTamer/theme.txt"

  /** The editing widget of one row. */
  datatype Widget =
    | ThemeDropdown(selected: nat, themes: seq<string>)  // the theme drop-down and its theme names
    | TextEntry(text: string)                          // a text entry
    | Switch(active: bool)                             // an on/off switch

  /** The `theme.txt` path of an installed theme. */
  function ThemePath(name: string): string {
    ThemesDir + name + "/theme.txt"
  }

  // ---------------------------------------------------------------------------
  // ensure_theme_ready
  // ---------------------------------------------------------------------------

  /** The settings after `ensure_theme_ready`: an empty or missing `GRUB_THEME` becomes the
      default theme's path. */
  function ThemeReady(settings: Dict<string>): Dict<string> {
    if StripQuotes(GetOr(settings, ThemeKey, "")) == [] then Put(settings, ThemeKey, DefaultThemePath)
    else settings
  }

  /** Afterwards `GRUB_THEME` names a theme file, a non-empty one is kept, and no other key changes. */
  lemma ThemeReadyFacts(settings: Dict<string>, key: string)
    ensures StripQuotes(GetOr(ThemeReady(settings), ThemeKey, "")) != []
    ensures StripQuotes(GetOr(settings, ThemeKey, "")) != [] ==> ThemeReady(settings) == settings
    ensures key != ThemeKey ==> Get(ThemeReady(settings), key) == Get(settings, key)
  {
    assert DefaultThemePath == ThemePath("GrubTamer");
    StripByIdentity(DefaultThemePath, IsDoubleQuote);
    StripByIdentity(DefaultThemePath, IsSingleQuote);
  }

  /** A second call changes nothing. */
  lemma ThemeReadyIdempotent(settings: Dict<string>)
    ensures ThemeReady(ThemeReady(settings)) == ThemeReady(settings)
  {
    ThemeReadyFacts(settings, ThemeKey);
  }

  // ---------------------------------------------------------------------------
  // Switches
  // ---------------------------------------------------------------------------

  /** How a toggle row reads its current value: `str(v).lower() in ["true", "y", "yes", "1"]`. */
  predicate IsSwitchOn(value: string) {
    Lower(value) in ["true", "y", "yes", "1"]
  }

  /** What Save writes for a switch. */
  function SwitchText(active: bool): string {
    if active then "true" else "false"
  }

  /** A switch's saved text reads back as the same switch position. */
  lemma SwitchRoundTrip(active: bool)
    ensures IsSwitchOn(SwitchText(active)) == active
  {
    if !active {
      assert Lower("false") == "false";
      assert "false" != "true" && "false" != "yes";
    } else {
      assert Lower("true") == "true";
    }
  }

  // ---------------------------------------------------------------------------
  // Theme preselection
  // ---------------------------------------------------------------------------

  /** The drop-down index `create_row` selects, as written: the first theme whose name occurs
      anywhere in the current path, else 0. */
  function FirstContaining(themes: seq<string>, path: string, i: nat): (r: nat)
    requires i <= |themes|
    ensures r == 0 || (i <= r < |themes| && Contains(path, themes[r]))
    decreases |themes| - i
  {
    if i == |themes| then 0
    else if Contains(path, themes[i]) then i
    else FirstContaining(themes, path, i + 1)
  }

  /** The search finds the first theme contained in the path, and 0 when none is. */
  lemma {:induction false} FirstContainingIsFirst(themes: seq<string>, path: string, i: nat, m: nat)
    requires i <= m < |themes|
    requires Contains(path, themes[m])
    ensures i <= FirstContaining(themes, path, i) <= m
    ensures Contains(path, themes[FirstContaining(themes, path, i)])
    decreases |themes| - i
  {
    if !Contains(path, themes[i]) {
      FirstContainingIsFirst(themes, path, i + 1, m);
    }
  }

  /** No theme the search passes over occurs in the path. */
  lemma {:induction false} FirstContainingSkips(themes: seq<string>, path: string, i: nat, k: nat)
    requires i <= |themes| && i <= k < FirstContaining(themes, path, i)
    ensures !Contains(path, themes[k])
    decreases |themes| - i
  {
    if k > i {
      FirstContainingSkips(themes, path, i + 1, k);
    }
  }

  /** The preselection loop of `create_row`, which stops at the first match. */
  method PreselectTheme(themes: seq<string>, path: string) returns (selected: nat)
    ensures selected == FirstContaining(themes, path, 0)
  {
    selected := 0;
    var i := 0;
    while i < |themes|
      invariant 0 <= i <= |themes|
      invariant FirstContaining(themes, path, i) == FirstContaining(themes, path, 0)
    {
      if Contains(path, themes[i]) {
        selected := i;
        break;
      }
      i := i + 1;
    }
  }

  /** With themes `Vimix` and `Vimix-dark` installed and `Vimix-dark` configured, the preselection
      picks `Vimix`, whose path is a different file: `Vimix` occurs inside `Vimix-dark`'s path. */
  lemma PreselectPicksWrongTheme()
    ensures FirstContaining(["Vimix", "Vimix-dark"], ThemePath("Vimix-dark"), 0) == 0
    ensures ThemePath("Vimix") != ThemePath("Vimix-dark")
  {
    var path := ThemePath("Vimix-dark");
    assert path[18..23] == "Vimix";
    assert At(path, 18, "Vimix");
    assert |ThemePath("Vimix")| != |path|;
  }

  /** The first theme, from entry `i` on, whose path is exactly `path`. */
  function ExactFrom(themes: seq<string>, path: string, i: nat): (r: Option<nat>)
    requires i <= |themes|
    ensures r.Some? ==> i <= r.value < |themes| && ThemePath(themes[r.value]) == path
    decreases |themes| - i
  {
    if i == |themes| then None
    else if ThemePath(themes[i]) == path then Some(i)
    else ExactFrom(themes, path, i + 1)
  }

  lemma {:induction false} ExactFromFinds(themes: seq<string>, path: string, i: nat, m: nat)
    requires i <= m < |themes| && ThemePath(themes[m]) == path
    ensures ExactFrom(themes, path, i).Some?
    decreases |themes| - i
  {
    if ThemePath(themes[i]) != path {
      ExactFromFinds(themes, path, i + 1, m);
    }
  }

  /** The corrected preselection: the theme whose path is the configured one, falling back to
      the substring match for paths outside the themes directory. */
  function SelectTheme(themes: seq<string>, path: string): (r: nat)
    ensures themes != [] ==> r < |themes|
  {
    match ExactFrom(themes, path, 0)
    case Some(i) => i
    case None => FirstContaining(themes, path, 0)
  }

  /** When the configured path is an installed theme's path, that theme is selected. */
  lemma SelectThemeExact(themes: seq<string>, path: string, m: nat)
    requires m < |themes| && ThemePath(themes[m]) == path
    ensures SelectTheme(themes, path) < |themes| && ThemePath(themes[SelectTheme(themes, path)]) == path
  {
    ExactFromFinds(themes, path, 0, m);
  }

  // ---------------------------------------------------------------------------
  // Rows
  // ---------------------------------------------------------------------------

  /** The widget `create_row` builds for a key from its current value. */
  function InitialWidget(key: string, isToggle: bool, current: string, themes: seq<string>): Widget {
    if isToggle then Switch(IsSwitchOn(current))
    else if key == "GRUB_DEFAULT" then TextEntry(current)
    else if key == ThemeKey then ThemeDropdown(FirstContaining(themes, StripQuotes(current), 0), themes)
    else TextEntry(current)
  }

  /** A widget Save can read: the theme key holds a drop-down whose selection is in range. */
  predicate ValidWidget(key: string, w: Widget) {
    key == ThemeKey ==> w.ThemeDropdown? && w.selected < |w.themes|
  }

  predicate ValidWidgets(widgets: Dict<Widget>) {
    forall i :: 0 <= i < |widgets| ==> ValidWidget(widgets[i].key, widgets[i].value)
  }

  /** Every row `create_row` builds is one Save can read, given the non-empty theme list. */
  lemma InitialWidgetValid(key: string, isToggle: bool, current: string, themes: seq<string>)
    requires themes != [] && (key == ThemeKey ==> !isToggle)
    ensures ValidWidget(key, InitialWidget(key, isToggle, current, themes))
  {
  }

  /** The theme row selects the first theme whose name occurs in the configured path: any theme
      whose name occurs there is at or after the selection, and none before it does. */
  lemma ThemeRowFirst(current: string, themes: seq<string>, k: nat)
    requires k < |themes|
    ensures var w := InitialWidget(ThemeKey, false, current, themes);
      Contains(StripQuotes(current), themes[k]) ==> w.selected <= k && Contains(StripQuotes(current), themes[w.selected])
    ensures k < InitialWidget(ThemeKey, false, current, themes).selected ==> !Contains(StripQuotes(current), themes[k])
  {
    var path := StripQuotes(current);
    if Contains(path, themes[k]) {
      FirstContainingIsFirst(themes, path, 0, k);
    }
    if k < FirstContaining(themes, path, 0) {
      FirstContainingSkips(themes, path, 0, k);
    }
  }

  // ---------------------------------------------------------------------------
  // Gathering the widgets on Save
  // ---------------------------------------------------------------------------

  /** Whether Save writes a setting for this widget: a drop-down under another key is skipped. */
  predicate Writes(key: string, w: Widget) {
    key == ThemeKey || !w.ThemeDropdown?
  }

  /** The value Save writes for a widget. */
  function WidgetText(key: string, w: Widget): string
    requires ValidWidget(key, w) && Writes(key, w)
  {
    if key == ThemeKey then ThemePath(w.themes[w.selected])
    else match w
      case TextEntry(text) => Strip(text)
      case Switch(active) => SwitchText(active)
  }

  /** One widget gathered into the settings. */
  function GatherStep(settings: Dict<string>, e: Entry<Widget>): Dict<string>
    requires ValidWidget(e.key, e.value)
  {
    if Writes(e.key, e.value) then Put(settings, e.key, WidgetText(e.key, e.value)) else settings
  }

  /** The settings after gathering every widget, in the widgets' order. */
  function Gathered(settings: Dict<string>, widgets: Dict<Widget>): Dict<string>
    requires ValidWidgets(widgets)
  {
    if widgets == [] then settings
    else GatherStep(Gathered(settings, widgets[..|widgets| - 1]), widgets[|widgets| - 1])
  }

  /** After gathering, each writing widget's key holds that widget's value. */
  lemma {:induction false} GatheredValue(settings: Dict<string>, widgets: Dict<Widget>, j: nat)
    requires ValidWidgets(widgets) && DistinctKeys(widgets)
    requires j < |widgets| && Writes(widgets[j].key, widgets[j].value)
    ensures Get(Gathered(settings, widgets), widgets[j].key) == Some(WidgetText(widgets[j].key, widgets[j].value))
    decreases |widgets|
  {
    var prefix := widgets[..|widgets| - 1];
    if j < |prefix| {
      assert prefix[j] == widgets[j];
      GatheredValue(settings, prefix, j);
    }
  }

  /** The gathering loop of `on_save_clicked`. */
  method Gather(settings: Dict<string>, widgets: Dict<Widget>) returns (gathered: Dict<string>)
    requires ValidWidgets(widgets)
    ensures gathered == Gathered(settings, widgets)
  {
    gathered := settings;
    var i := 0;
    while i < |widgets|
      invariant 0 <= i <= |widgets|
      invariant gathered == Gathered(settings, widgets[..i])
    {
      assert widgets[..i + 1][..i] == widgets[..i];
      var key := widgets[i].key;
      var w := widgets[i].value;
      if key == ThemeKey {
        gathered := Put(gathered, key, ThemePath(w.themes[w.selected]));
      } else if w.TextEntry? {
        gathered := Put(gathered, key, Strip(w.text));
      } else if w.Switch? {
        gathered := Put(gathered, key, if w.active then "true" else "false");
      }
      i := i + 1;
    }
    assert widgets[..i] == widgets;
  }

  /** A key without a widget keeps its value. */
  lemma {:induction false} GatheredUntouched(settings: Dict<string>, widgets: Dict<Widget>, key: string)
    requires ValidWidgets(widgets)
    requires forall i :: 0 <= i < |widgets| ==> widgets[i].key != key
    ensures Get(Gathered(settings, widgets), key) == Get(settings, key)
    decreases |widgets|
  {
    if widgets != [] {
      GatheredUntouched(settings, widgets[..|widgets| - 1], key);
    }
  }

  /** Gathering keeps the keys of the settings distinct. */
  lemma {:induction false} GatheredDistinct(settings: Dict<string>, widgets: Dict<Widget>)
    requires ValidWidgets(widgets) && DistinctKeys(settings)
    ensures DistinctKeys(Gathered(settings, widgets))
    decreases |widgets|
  {
    if widgets != [] {
      var prefix := widgets[..|widgets| - 1];
      var last := widgets[|widgets| - 1];
      GatheredDistinct(settings, prefix);
      if Writes(last.key, last.value) {
        PutDistinct(Gathered(settings, prefix), last.key, WidgetText(last.key, last.value));
      }
    }
  }

  // ---------------------------------------------------------------------------
  // The payload
  // ---------------------------------------------------------------------------

  /** `val.replace('"', '')`. */
  function RemoveDoubleQuotes(value: string): (r: string)
    ensures forall k :: 0 <= k < |r| ==> r[k] != '"' && r[k] in value
  {
    if value == [] then []
    else (if value[0] == '"' then [] else [value[0]]) + RemoveDoubleQuotes(value[1..])
  }

  /** Removing quotes from a value without any leaves it alone. */
  lemma {:induction false} RemoveDoubleQuotesIdentity(value: string)
    requires '"' !in value
    ensures RemoveDoubleQuotes(value) == value
  {
    if value != [] {
      RemoveDoubleQuotesIdentity(value[1..]);
    }
  }

  /** Removal keeps a character exactly when it is not a double quote. */
  lemma RemoveDoubleQuotesChar(c: char)
    ensures RemoveDoubleQuotes([c]) == if c == '"' then [] else [c]
  {
    assert [c][1..] == [];
  }

  /** Removal works piece by piece, so every other character is kept, in order. */
  lemma {:induction false} RemoveDoubleQuotesAppend(a: string, b: string)
    ensures RemoveDoubleQuotes(a + b) == RemoveDoubleQuotes(a) + RemoveDoubleQuotes(b)
    decreases |a|
  {
    if a != [] {
      assert (a + b)[0] == a[0] && (a + b)[1..] == a[1..] + b;
      RemoveDoubleQuotesAppend(a[1..], b);
    } else {
      assert a + b == b;
    }
  }

  /** A value Save skips: empty or blank. */
  predicate IsBlank(value: string) {
    Strip(value) == []
  }

  /** The line Save writes for one setting: digits bare, anything else quoted with its own
      double quotes removed. */
  function PayloadLine(e: Entry<string>): string {
    if !IsDigits(e.value) then e.key + "=\"" + RemoveDoubleQuotes(e.value) + "\""
    else e.key + "=" + e.value
  }

  /** The lines Save writes, in the settings' order, skipping blank values. */
  function PayloadLines(settings: Dict<string>): seq<string> {
    if settings == [] then []
    else
      var last := settings[|settings| - 1];
      PayloadLines(settings[..|settings| - 1]) + (if IsBlank(last.value) then [] else [PayloadLine(last)])
  }

  /** The text written to `/etc/default/grub`. */
  function Payload(settings: Dict<string>): string {
    JoinLines(PayloadLines(settings))
  }

  /** The payload loop of `on_save_clicked`. */
  method BuildPayload(settings: Dict<string>) returns (payload: string)
    ensures payload == Payload(settings)
  {
    var lines := [];
    var i := 0;
    while i < |settings|
      invariant 0 <= i <= |settings|
      invariant lines == PayloadLines(settings[..i])
    {
      assert settings[..i + 1][..i] == settings[..i];
      var k := settings[i].key;
      var v := settings[i].value;
      if Strip(v) != [] {
        if !IsDigits(v) {
          lines := lines + [k + "=\"" + RemoveDoubleQuotes(v) + "\""];
        } else {
          lines := lines + [k + "=" + v];
        }
      }
      i := i + 1;
    }
    assert settings[..i] == settings;
    payload := JoinLines(lines);
  }

  /** What reading the payload back gives for a value: digits as written; anything else without
      its double quotes and without single quotes at either end. */
  function SavedValue(value: string): string {
    if IsDigits(value) then value else StripBy(RemoveDoubleQuotes(value), IsSingleQuote)
  }

  /** The settings the payload holds: the non-blank ones, with their saved values. */
  function Reloaded(settings: Dict<string>): Dict<string> {
    if settings == [] then []
    else
      var last := settings[|settings| - 1];
      Reloaded(settings[..|settings| - 1])
      + (if IsBlank(last.value) then [] else [Entry(last.key, SavedValue(last.value))])
  }

  /** Settings the reader can take back: keys it reads unchanged, values on one line. */
  predicate PayloadReady(settings: Dict<string>) {
    forall i :: 0 <= i < |settings| ==> CleanKey(settings[i].key) && '\n' !in settings[i].value
  }

  /** Each payload line is one line, and reads back as its key with the saved value. */
  lemma ParsePayloadLine(e: Entry<string>)
    requires CleanKey(e.key) && '\n' !in e.value
    ensures ParseSetting(PayloadLine(e)) == Some(Entry(e.key, SavedValue(e.value)))
    ensures '\n' !in PayloadLine(e)
  {
    if IsDigits(e.value) {
      ParseBareLine(e.key, e.value);
    } else {
      var v := RemoveDoubleQuotes(e.value);
      ParseQuotedLine(e.key, v);
      assert PayloadLine(e) == e.key + "=\"" + v + "\"";
    }
  }

  /** The reloaded settings only hold keys of the settings. */
  lemma {:induction false} ReloadedKeysFrom(settings: Dict<string>, key: string)
    requires forall i :: 0 <= i < |settings| ==> settings[i].key != key
    ensures forall i :: 0 <= i < |Reloaded(settings)| ==> Reloaded(settings)[i].key != key
    decreases |settings|
  {
    if settings != [] {
      ReloadedKeysFrom(settings[..|settings| - 1], key);
    }
  }

  /** Reading the payload lines rebuilds the reloaded settings. */
  lemma {:induction false} SettingsOfPayloadLines(settings: Dict<string>)
    requires PayloadReady(settings) && DistinctKeys(settings)
    ensures SettingsOf(PayloadLines(settings)) == Reloaded(settings)
    ensures forall i :: 0 <= i < |PayloadLines(settings)| ==> '\n' !in PayloadLines(settings)[i]
    decreases |settings|
  {
    if settings != [] {
      var prefix := settings[..|settings| - 1];
      var last := settings[|settings| - 1];
      SettingsOfPayloadLines(prefix);
      if !IsBlank(last.value) {
        var lines := PayloadLines(prefix) + [PayloadLine(last)];
        ParsePayloadLine(last);
        assert lines[..|lines| - 1] == PayloadLines(prefix);
        ReloadedKeysFrom(prefix, last.key);
        PutNew(Reloaded(prefix), last.key, SavedValue(last.value));
      } else {
        assert PayloadLines(prefix) + [] == PayloadLines(prefix);
        assert Reloaded(prefix) + [] == Reloaded(prefix);
      }
    }
  }

  /** Reading the saved `/etc/default/grub` back gives the non-blank settings with their saved
      values, in the same order. */
  lemma PayloadReadBack(settings: Dict<string>)
    requires PayloadReady(settings) && DistinctKeys(settings)
    ensures ReadConfig(Contents(Payload(settings))) == Reloaded(settings)
  {
    var lines := PayloadLines(settings);
    SettingsOfPayloadLines(settings);
    if lines == [] {
      SplitNewlinesTerminated([""]);
      assert Payload(settings) == Terminated([""]);
      SettingsOfBlankLast([""]);
      SettingsOfBlankLast([]);
    } else {
      JoinLinesTerminated(lines);
      SplitNewlinesTerminated(lines);
      SettingsOfBlankLast(lines);
    }
  }

  /** Where a non-blank setting sits in the reloaded settings. */
  lemma {:induction false} ReloadedEntry(settings: Dict<string>, j: nat) returns (i: nat)
    requires j < |settings| && !IsBlank(settings[j].value)
    ensures i < |Reloaded(settings)|
    ensures Reloaded(settings)[i] == Entry(settings[j].key, SavedValue(settings[j].value))
    decreases |settings|
  {
    var prefix := settings[..|settings| - 1];
    if j < |prefix| {
      assert prefix[j] == settings[j];
      i := ReloadedEntry(prefix, j);
    } else {
      i := |Reloaded(prefix)|;
    }
  }

  /** The reloaded settings keep distinct keys. */
  lemma {:induction false} ReloadedDistinct(settings: Dict<string>)
    requires DistinctKeys(settings)
    ensures DistinctKeys(Reloaded(settings))
    decreases |settings|
  {
    if settings != [] {
      var prefix := settings[..|settings| - 1];
      ReloadedDistinct(prefix);
      ReloadedKeysFrom(prefix, settings[|settings| - 1].key);
    }
  }

  /** A non-blank setting reads back under its key with its saved value. */
  lemma ReloadedGet(settings: Dict<string>, m: nat)
    requires DistinctKeys(settings) && m < |settings| && !IsBlank(settings[m].value)
    ensures Get(Reloaded(settings), settings[m].key) == Some(SavedValue(settings[m].value))
  {
    var i := ReloadedEntry(settings, m);
    ReloadedDistinct(settings);
    GetAt(Reloaded(settings), i);
  }

  /** A switch's text is written and read back unchanged. */
  lemma SwitchTextSaved(active: bool)
    ensures !IsBlank(SwitchText(active)) && SavedValue(SwitchText(active)) == SwitchText(active)
  {
    var text := SwitchText(active);
    assert text[0] == 't' || text[0] == 'f';
    assert text[|text| - 1] == 'e';
    assert forall k :: 0 <= k < |text| ==> 'a' <= text[k] <= 'z';
    WordSaved(text);
  }

  /** A non-empty lower-case word is not blank and is written and read back unchanged. */
  lemma WordSaved(text: string)
    requires text != [] && forall k :: 0 <= k < |text| ==> 'a' <= text[k] <= 'z'
    ensures !IsBlank(text) && SavedValue(text) == text
  {
    StripEmptyIff(text);
    assert !IsSpace(text[0]);
    RemoveDoubleQuotesIdentity(text);
    StripByIdentity(text, IsSingleQuote);
  }

  /** A switch survives Save and a later start: its saved value reads back as the same position. */
  lemma SwitchSurvivesSave(settings: Dict<string>, widgets: Dict<Widget>, j: nat)
    requires ValidWidgets(widgets) && DistinctKeys(widgets) && DistinctKeys(settings)
    requires j < |widgets| && widgets[j].value.Switch? && widgets[j].key != ThemeKey
    requires PayloadReady(Gathered(settings, widgets))
    ensures Get(ReadConfig(Contents(Payload(Gathered(settings, widgets)))), widgets[j].key)
      == Some(SwitchText(widgets[j].value.active))
    ensures IsSwitchOn(SwitchText(widgets[j].value.active)) == widgets[j].value.active
  {
    var s := Gathered(settings, widgets);
    GatheredValue(settings, widgets, j);
    GatheredDistinct(settings, widgets);
    var m := GetIndex(s, widgets[j].key);
    SwitchTextSaved(widgets[j].value.active);
    ReloadedGet(s, m);
    PayloadReadBack(s);
    SwitchRoundTrip(widgets[j].value.active);
  }

  /** A theme's name occurs in its own path. */
  lemma ThemePathContains(name: string)
    ensures Contains(ThemePath(name), name)
  {
    var path := ThemePath(name);
    assert path[|ThemesDir|..|ThemesDir| + |name|] == name;
    assert At(path, |ThemesDir|, name);
  }

  /** Saving without touching the theme row writes back the configured theme path, provided no
      theme listed before the configured one has a name occurring in that path. */
  lemma UntouchedThemeKept(settings: Dict<string>, widgets: Dict<Widget>, j: nat, m: nat)
    requires ValidWidgets(widgets) && DistinctKeys(widgets)
    requires j < |widgets| && widgets[j].key == ThemeKey
    requires widgets[j].value == InitialWidget(ThemeKey, false, GetOr(settings, ThemeKey, ""), widgets[j].value.themes)
    requires m < |widgets[j].value.themes|
    requires ThemePath(widgets[j].value.themes[m]) == StripQuotes(GetOr(settings, ThemeKey, ""))
    requires forall k :: 0 <= k < m ==> !Contains(StripQuotes(GetOr(settings, ThemeKey, "")), widgets[j].value.themes[k])
    ensures Get(Gathered(settings, widgets), ThemeKey) == Some(StripQuotes(GetOr(settings, ThemeKey, "")))
  {
    var themes := widgets[j].value.themes;
    var path := StripQuotes(GetOr(settings, ThemeKey, ""));
    ThemePathContains(themes[m]);
    FirstContainingIsFirst(themes, path, 0, m);
    GatheredValue(settings, widgets, j);
  }

  /** As written, an untouched drop-down can save another theme: with `Vimix` and `Vimix-dark`
      installed and `Vimix-dark` configured, Save writes the path of `Vimix`. */
  lemma UntouchedThemeLost()
    ensures var settings := [Entry(ThemeKey, ThemePath("Vimix-dark"))];
      var widgets := [Entry(ThemeKey, InitialWidget(ThemeKey, false, ThemePath("Vimix-dark"), ["Vimix", "Vimix-dark"]))];
      ValidWidgets(widgets)
      && Get(Gathered(settings, widgets), ThemeKey) == Some(ThemePath("Vimix"))
      && ThemePath("Vimix") != ThemePath("Vimix-dark")
  {
    var path := ThemePath("Vimix-dark");
    assert path[0] == '/' && path[|path| - 1] == 't';
    StripByIdentity(path, IsDoubleQuote);
    StripByIdentity(path, IsSingleQuote);
    PreselectPicksWrongTheme();
  }

  /** With the corrected preselection, an untouched drop-down always writes back the configured
      theme path when it is an installed theme's path. */
  lemma CorrectedThemeKept(settings: Dict<string>, widgets: Dict<Widget>, j: nat, m: nat)
    requires ValidWidgets(widgets) && DistinctKeys(widgets)
    requires j < |widgets| && widgets[j].key == ThemeKey
    requires widgets[j].value.ThemeDropdown?
    requires widgets[j].value.selected == SelectTheme(widgets[j].value.themes, StripQuotes(GetOr(settings, ThemeKey, "")))
    requires m < |widgets[j].value.themes|
    requires ThemePath(widgets[j].value.themes[m]) == StripQuotes(GetOr(settings, ThemeKey, ""))
    ensures Get(Gathered(settings, widgets), ThemeKey) == Some(StripQuotes(GetOr(settings, ThemeKey, "")))
  {
    SelectThemeExact(widgets[j].value.themes, StripQuotes(GetOr(settings, ThemeKey, "")), m);
    GatheredValue(settings, widgets, j);
  }

  // ---------------------------------------------------------------------------
  // The window
  // ---------------------------------------------------------------------------

  /** The state of the main window that Save works on: `grub_settings` and `widget_map`. */
  class Window {
    var settings: Dict<string>
    var widgets: Dict<Widget>

    /** The window right after the settings were read and made theme-ready, before any row is
        built. */
    constructor(loaded: Dict<string>)
      ensures settings == ThemeReady(loaded) && widgets == []
    {
      settings := loaded;
      widgets := [];
      new;
      EnsureThemeReady();
    }

    /** `ensure_theme_ready`, without the file creation it attempts afterwards. */
    method EnsureThemeReady()
      modifies this
      ensures settings == ThemeReady(old(settings)) && widgets == old(widgets)
    {
      var current := StripQuotes(GetOr(settings, ThemeKey, ""));
      if current == [] {
        settings := Put(settings, ThemeKey, DefaultThemePath);
      }
    }

    /** `create_row`: the widget for `key`, built from its current value, enters the widget map. */
    method CreateRow(key: string, isToggle: bool, themes: seq<string>)
      modifies this
      ensures widgets == Put(old(widgets), key, InitialWidget(key, isToggle, GetOr(settings, key, ""), themes))
      ensures settings == old(settings)
    {
      var current := GetOr(settings, key, "");
      var w: Widget;
      if isToggle {
        w := Switch(IsSwitchOn(current));
      } else if key == "GRUB_DEFAULT" {
        w := TextEntry(current);
      } else if key == ThemeKey {
        var selected := PreselectTheme(themes, StripQuotes(current));
        w := ThemeDropdown(selected, themes);
      } else {
        w := TextEntry(current);
      }
      widgets := Put(widgets, key, w);
    }

    /** `on_save_clicked` up to the payload: gather every widget, then build the file text. */
    method Save() returns (payload: string)
      requires ValidWidgets(widgets)
      modifies this
      ensures widgets == old(widgets)
      ensures settings == Gathered(old(settings), widgets)
      ensures payload == Payload(settings)
    {
      settings := Gather(settings, widgets);
      payload := BuildPayload(settings);
    }
  }
}
