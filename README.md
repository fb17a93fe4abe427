# GrubTamer core, modelled in Dafny

GrubTamer is a desktop editor for the GRUB boot loader. It reads `/etc/default/grub` into an
ordered dictionary of `KEY=value` settings. It shows one widget per setting. On Save it writes
the settings back as a new `/etc/default/grub` text (the "payload"). A theme editor reads a GRUB
`theme.txt` into a map of known properties. It writes the properties back by rewriting the
top-level `key: "value"` lines. It rebuilds the `+ progress_bar { … }` block and places or
patches the `+ boot_menu { … }` block for one of nine named menu positions. A boot-entry picker
lists the `menuentry` titles of `grub.cfg`.

The project models that core:

| Dafny module | file | models |
|---|---|---|
| `Text` | `text.dfy` | `str.strip`, quote stripping, `splitlines`, `"\n".join`, ASCII `lower` |
| `Dicts` | `dicts.dfy` | insertion-ordered Python dicts as sequences of entries with distinct keys |
| `GrubConfig` | `grub_config.dfy` | `read_grub_config` and `save_grub_config` |
| `BootEntries` | `boot_entries.dfy` | `get_boot_entries` and the Select-button rule |
| `SettingsWindow` | `settings_window.dfy` | `ensure_theme_ready`, the switch state, the theme preselection, widget gathering and the payload of `on_save_clicked` |
| `ThemeSchema` | `theme_schema.dfy` | `THEME_GLOBALS` and `POSITION_MAP` |
| `ThemeSyntax` | `theme_syntax.dfy` | the regular expressions of the theme module, as deterministic scanners |
| `ThemeParser` | `theme_parser.dfy` | `parse_theme` and `save_theme`, with `replace_block` |
| `ThemeRoundTrip` | `theme_roundtrip.dfy` | what the parser reads from the blocks the writer emits |
| `ThemeReload` | `theme_reload.dfy` | `parse_theme` after `save_theme`: the round trip of a theme |
| `ThemePatch` | `theme_patch.dfy` | `replace_block` on an existing `boot_menu` body |
| `ThemeReplace` | `theme_replace.dfy` | the `boot_menu` substitution, character by character, around one block |
| `ThemePlace` | `theme_place.dfy` | the patched block in the saved text, and the position the parser reads from it |
| `ThemeRebuild` | `theme_rebuild.dfy` | the block passes of `parse_theme` on saved text whose kept part still holds other blocks |
| `ThemePatched` | `theme_patched.dfy` | the progress pass of `parse_theme` after `save_theme` has patched an existing `boot_menu` block in place |

Files become values. A missing `theme.txt` is `None`. Opening `/etc/default/grub` yields text, "not
found" or "permission denied". Running `pkexec cat` yields its output, a cancellation or a failure
message. Widgets become a `Widget` datatype. The window whose `grub_settings` and `widget_map`
change in place is the class `SettingsWindow.Window`. Loops that change variables step by step
(the parsing and rewriting loops, the preselection loop, the gather and payload loops) are methods,
each proved equal to a function, and the properties are lemmas about those functions.

## Model

| member | source | states |
|---|---|---|
| Text.SpanFacts | src/theme_parser.py:85 | a regex run `[class]*` stops exactly at the first character outside the class |
| Text.StripEmptyIff | src/parser.py:10-12 | a stripped line is empty exactly when every character is whitespace, so blank lines are skipped |
| Text.StripByIdentity | src/parser.py:17 | stripping a character set leaves text that neither starts nor ends with it unchanged |
| Text.Lower | main.py:137 | lower-casing keeps the length and maps every character on its own |
| Text.SplitTerminated | src/theme_parser.py:130 | splitting lines that each end in a newline gives back exactly those lines |
| Text.JoinLinesAsTerminated | src/theme_parser.py:160 | `"\n".join(lines) + "\n"` ends every line with a newline, and an empty list gives one empty line |
| Text.SplitNewlines | src/parser.py:9 | the lines a file yields, once their newline is dropped, contain no newline, and there is at least one |
| Text.SplitNewlinesTerminated | src/parser.py:9 | newline-terminated lines split back into those lines plus a final empty piece |
| Dicts.Get | src/parser.py:17 | a lookup fails exactly when the key is absent |
| Dicts.Put | src/parser.py:17 | after `d[k] = v`, `k` maps to `v` and every other key keeps its value |
| Dicts.PutKeys | src/parser.py:17 | assignment keeps the key order and appends a new key at the end |
| Dicts.PutDistinct | src/parser.py:17 | assignment keeps the keys distinct |
| Dicts.GetAt | src/parser.py:17 | in a dict with distinct keys, each entry is what its key looks up |
| GrubConfig.ParseSettingIff | src/parser.py:10-17 | a line yields a setting exactly when, stripped, it is non-empty, does not start with `#` and holds `=`; the key is the stripped text before the first `=`, the value the stripped text after it with quotes removed |
| GrubConfig.SettingStepKeys | src/parser.py:17 | after one line, a key is present exactly when it was before or the line sets it |
| GrubConfig.ReadGrubConfig | src/parser.py:4-22 | the reading loop computes the settings of the file; a missing file and a denied file give the one-entry `error` dicts with the source's messages |
| GrubConfig.SettingsLastWins | src/parser.py:9-17 | the last line that sets a key decides its value |
| GrubConfig.SettingsKeyRead | src/parser.py:9-17 | every key a line sets is in the settings |
| GrubConfig.SettingsKeySource | src/parser.py:9-17 | every key in the settings is set by some line |
| GrubConfig.SettingsDistinct | src/parser.py:9-17 | the settings never hold a key twice |
| GrubConfig.ConfigLineBareIff | src/parser.py:34-39 | a value is written bare exactly when it is all digits, and quoted otherwise |
| GrubConfig.SaveGrubConfig | src/parser.py:28-43 | the writing loop produces one line per entry, in order |
| GrubConfig.ParseConfigLine | src/parser.py:17 | a written line is one line and reads back as the same entry, for a clean key and value |
| GrubConfig.SettingsOfConfigLines | src/parser.py:28-39 | reading the written lines gives back the settings |
| GrubConfig.SaveThenRead | src/parser.py:4-39 | reading the written file gives back the settings that were saved, for clean keys and values |
| GrubConfig.SettingsOfBlankLast | src/parser.py:12 | a trailing empty line changes nothing |
| BootEntries.MatchMenuEntryTitle | src/boot_manager.py:29-31 | a matched title is non-empty and holds no quote |
| BootEntries.MatchMenuEntryLine | src/boot_manager.py:29 | every line of the shape indent, `menuentry`, spaces, quote, title, quote matches with that title |
| BootEntries.MenuEntryLineOf | src/boot_manager.py:29 | every matching line has that shape, so the recogniser and the pattern agree both ways |
| BootEntries.TitlesAppend | src/boot_manager.py:26-32 | the titles of two runs of lines are the titles of each, in order |
| BootEntries.TitleOfLine | src/boot_manager.py:26-32 | the title of every matching line is collected |
| BootEntries.TitleSource | src/boot_manager.py:26-32 | every collected title comes from a matching line |
| BootEntries.BootEntryList | src/boot_manager.py:14-44 | the result list is never empty |
| BootEntries.GetBootEntries | src/boot_manager.py:14-44 | the loop collects the titles, and the cancelled, failed and empty cases give their one-entry lists |
| BootEntries.ButtonRule | src/boot_manager.py:86-87 | a Select button is disabled only for an entry starting with `Error`, `Auth` or `No entries`, so it begins with `E`, `A` or `N`, and what follows that start does not matter |
| BootEntries.SentinelsDisabled | src/boot_manager.py:34-42 | every failure and the empty case give exactly one entry, and its Select button is disabled |
| BootEntries.EntriesAreTitles | src/boot_manager.py:26-44 | when some line matches, the entries are exactly the titles in file order |
| SettingsWindow.ThemeReadyFacts | main.py:105-109 | afterwards `GRUB_THEME` is non-empty once quotes are stripped, a non-empty value is kept, and no other key changes |
| SettingsWindow.ThemeReadyIdempotent | main.py:105-109 | ensuring the theme twice is the same as once |
| SettingsWindow.SwitchRoundTrip | main.py:137 | the text Save writes for a switch turns the switch back to the same state |
| SettingsWindow.FirstContaining | main.py:180-185 | the preselection is 0 or the index of a theme whose name occurs in the current path |
| SettingsWindow.FirstContainingIsFirst | main.py:180-185 | the preselection stops at the first theme whose name occurs in the path |
| SettingsWindow.FirstContainingSkips | main.py:180-185 | no theme before the preselection has a name occurring in the path |
| SettingsWindow.PreselectTheme | main.py:180-186 | the preselection loop computes the first theme whose name is a substring of the path |
| SettingsWindow.PreselectPicksWrongTheme | main.py:180-186 | with themes `Vimix` and `Vimix-dark`, the path of `Vimix-dark` preselects `Vimix`, whose path differs |
| SettingsWindow.ExactFrom | main.py:312 | a found theme is one whose theme path is exactly the current path |
| SettingsWindow.ExactFromFinds | main.py:312 | a theme whose path is the current path is always found |
| SettingsWindow.SelectTheme | main.py:180-186 | the selection is a valid index whenever there are themes |
| SettingsWindow.SelectThemeExact | main.py:180-186 | when some theme's path is the current path, the selected theme has exactly that path |
| SettingsWindow.InitialWidgetValid | main.py:132-205 | a built row holds a valid widget: the theme row a drop-down whose selection indexes its themes |
| SettingsWindow.ThemeRowFirst | main.py:180-186 | the theme row selects the first theme whose name occurs in the configured path: every theme whose name occurs there is at or after it, and none before it |
| SettingsWindow.GatheredValue | main.py:307-316 | after gathering, each widget's key holds the widget's text: the theme path, the stripped entry text or the switch text |
| SettingsWindow.Gather | main.py:307-316 | the gathering loop computes the gathered settings |
| SettingsWindow.GatheredUntouched | main.py:307-316 | a key with no widget keeps its value |
| SettingsWindow.GatheredDistinct | main.py:307-316 | gathering keeps the keys distinct |
| SettingsWindow.RemoveDoubleQuotes | main.py:323 | the result holds no double quote and only characters of the input |
| SettingsWindow.RemoveDoubleQuotesIdentity | main.py:323 | text without a double quote is unchanged |
| SettingsWindow.RemoveDoubleQuotesChar | main.py:323 | a double quote is dropped and every other character is kept |
| SettingsWindow.RemoveDoubleQuotesAppend | main.py:323 | quotes are removed from a concatenation piece by piece, so every non-quote character is kept in order |
| SettingsWindow.BuildPayload | main.py:318-327 | the payload loop computes the payload text |
| SettingsWindow.ParsePayloadLine | main.py:322-325 | a payload line is one line and reads back as its key with the saved value |
| SettingsWindow.SettingsOfPayloadLines | main.py:318-325 | reading the payload lines gives the non-blank settings with their saved values |
| SettingsWindow.PayloadReadBack | main.py:318-327 | `read_grub_config` on the payload gives the non-blank settings with their saved values, in order |
| SettingsWindow.ReloadedEntry | main.py:321 | every non-blank setting survives the payload |
| SettingsWindow.ReloadedDistinct | main.py:318-325 | the settings read back from the payload have distinct keys |
| SettingsWindow.ReloadedGet | main.py:318-327 | each non-blank setting reads back as its saved value |
| SettingsWindow.SwitchTextSaved | main.py:316 | a switch text is non-blank and saved unchanged |
| SettingsWindow.WordSaved | main.py:322-323 | a non-empty lower-case word is saved unchanged |
| SettingsWindow.SwitchSurvivesSave | main.py:307-327 | after Save and a re-read, every switch's key holds its text, and that text turns the switch back to the same state |
| SettingsWindow.UntouchedThemeKept | main.py:180-186 | an untouched theme drop-down saves the configured path when it is a theme's path and no earlier theme's name occurs in it |
| SettingsWindow.UntouchedThemeLost | main.py:180-186 | with themes `Vimix` and `Vimix-dark` and the `Vimix-dark` path configured, an untouched drop-down saves the `Vimix` path |
| SettingsWindow.CorrectedThemeKept | main.py:180-186 | with the exact-path selection, an untouched drop-down saves the configured path whenever it is a theme's path |
| SettingsWindow.Window.constructor | main.py:23-31 | the window starts with the loaded settings made theme-ready and no widgets |
| SettingsWindow.Window.EnsureThemeReady | main.py:105-109 | the settings become the theme-ready settings and the widgets are unchanged |
| SettingsWindow.Window.CreateRow | main.py:132-205 | the new widget, built from the key's current value with the substring preselection as written, enters the widget map; the settings are unchanged |
| SettingsWindow.Window.Save | main.py:305-327 | the settings become the gathered settings and the result is their payload |
| ThemeSchema.SchemaEntries | src/theme_parser.py:6-63 | every schema entry is a known key, and virtual exactly when its entry says so |
| ThemeSchema.SchemaComplete | src/theme_parser.py:6-63 | every known key has a schema entry |
| ThemeSchema.SchemaDistinct | src/theme_parser.py:6-63 | the schema keys are distinct |
| ThemeSchema.PositionOptionsAreMapKeys | src/theme_parser.py:6-69 | the `menu-position` drop-down offers exactly the position names, in order |
| ThemeSchema.CoordsOfAgrees | src/theme_parser.py:65-69 | a name has coordinates exactly when it is a position name, and they are the ones in the table |
| ThemeSchema.PositionMapInjective | src/theme_parser.py:65-69 | no two positions share a name or a coordinate pair |
| ThemeSchema.PositionFromFinds | src/theme_parser.py:111-114 | the search returns the first position with the given coordinates |
| ThemeSchema.PositionFromSound | src/theme_parser.py:111-114 | a returned name has the given coordinates |
| ThemeSchema.PositionFromNone | src/theme_parser.py:111-114 | coordinates no position has give no name |
| ThemeSchema.PositionRoundTrip | src/theme_parser.py:111-114 | a name has coordinates `(left, top)` exactly when the lookup of `(left, top)` gives that name |
| ThemeSchema.LookupPosition | src/theme_parser.py:111-114 | the lookup loop computes the position named by the coordinates |
| ThemeSyntax.MatchGlobal | src/theme_parser.py:85 | a line not starting with a key character does not match |
| ThemeSyntax.MatchGlobalFacts | src/theme_parser.py:85-88 | a match has a key of key characters that starts the line, and a value without double quotes |
| ThemeSyntax.MatchFormatGlobal | src/theme_parser.py:85 | a written `key: "value"` line matches with that key and value |
| ThemeSyntax.StripFormatGlobal | src/theme_parser.py:83 | a written line is unchanged by stripping |
| ThemeSyntax.OpenerAt | src/theme_parser.py:94 | a block opener starts with `+` and ends with `{` |
| ThemeSyntax.BlockAt | src/theme_parser.py:94 | a block found at a position starts there, after an opener, and is well formed |
| ThemeSyntax.BlockBodyFacts | src/theme_parser.py:94 | a block body holds no `}` |
| ThemeSyntax.BlockOfWritten | src/theme_parser.py:169-183 | a written opener, body and `}` form a block with that body |
| ThemeSyntax.FindBlockFrom | src/theme_parser.py:94 | a found block is a block at its start |
| ThemeSyntax.FindBlockAt | src/theme_parser.py:94 | the search finds the block at `i` when no opener comes before it |
| ThemeSyntax.RemoveBlocksNoBrace | src/theme_parser.py:185 | removing blocks from text without `{` changes nothing |
| ThemeSyntax.AttrAt | src/theme_parser.py:97-99 | an attribute match exists exactly when `NAME\s*=` is there, and ends after its name |
| ThemeSyntax.FindAttrFrom | src/theme_parser.py:198 | a found attribute position holds an attribute match |
| ThemeSyntax.AttrValueWritten | src/theme_parser.py:97-99 | a written quoted attribute reads back with its value |
| ThemeSyntax.CoordAt | src/theme_parser.py:107-108 | a coordinate value is never empty |
| ThemeSyntax.FindCoordFrom | src/theme_parser.py:107-108 | a found coordinate position holds a coordinate match |
| ThemeSyntax.CoordWritten | src/theme_parser.py:107-108 | a written bare coordinate reads back with its value |
| ThemeParser.LineRecord | src/theme_parser.py:83-90 | a line records a key only when it is a schema key |
| ThemeParser.GlobalsLastWins | src/theme_parser.py:82-90 | the last line that records a key decides its value |
| ThemeParser.GlobalsKeySource | src/theme_parser.py:82-90 | every key of the top-level pass is a schema key recorded by some line |
| ThemeParser.ParseGlobals | src/theme_parser.py:82-90 | the top-level loop computes the recorded globals |
| ThemeParser.ReadProgressBar | src/theme_parser.py:94-101 | the progress-bar step computes the progress pass |
| ThemeParser.ProgressPassFound | src/theme_parser.py:94-101 | with a progress bar, the colours found are recorded and the style becomes `bar` |
| ThemeParser.ReadMenuPosition | src/theme_parser.py:104-114 | the boot-menu step computes the position pass |
| ThemeParser.PositionPassFound | src/theme_parser.py:104-114 | with both coordinates, the position they name is recorded, and nothing when they name none |
| ThemeParser.PositionPassNone | src/theme_parser.py:104-105 | without a boot menu nothing changes |
| ThemeParser.PositionPassIncomplete | src/theme_parser.py:109 | a boot menu lacking either coordinate changes nothing |
| ThemeParser.ParseTheme | src/theme_parser.py:72-119 | the parse computes the three passes in order, and a missing file gives the empty map |
| ThemeParser.Classify | src/theme_parser.py:140-150 | a line is replaced only when it assigns a non-virtual key the data holds |
| ThemeParser.RewriteLines | src/theme_parser.py:134-152 | the rewrite loop computes the new lines and the set of replaced keys |
| ThemeParser.AppendMissing | src/theme_parser.py:154-158 | the missing non-virtual keys are appended after the rewritten lines |
| ThemeParser.PlaceBlocks | src/theme_parser.py:160-212 | the block step computes the text with the progress bar rebuilt and the boot menu placed |
| ThemeParser.SaveTheme | src/theme_parser.py:122-214 | the save computes the saved theme, and gives `None` exactly for a missing file; other read failures are outside the files-as-values model |
| ThemeRoundTrip.FirstBlockWritten | src/theme_parser.py:94 | the first written block is found, with its body |
| ThemeRoundTrip.SecondBlockWritten | src/theme_parser.py:104 | a block written after another block is found, with its body |
| ThemeRoundTrip.NoBlockWritten | src/theme_parser.py:104 | text holding only another block has no boot menu |
| ThemeRoundTrip.ProgressForeground | src/theme_parser.py:97-98 | the rebuilt progress bar reads back its foreground colour |
| ThemeRoundTrip.ProgressBackground | src/theme_parser.py:99-100 | the rebuilt progress bar reads back its background colour |
| ThemeRoundTrip.BootMenuCoords | src/theme_parser.py:107-108 | a new boot menu reads back both coordinates |
| ThemeRoundTrip.ProgressPassOf | src/theme_parser.py:94-101 | a rebuilt progress bar records both colours and the style |
| ThemeRoundTrip.PositionPassOf | src/theme_parser.py:104-114 | a new boot menu records the position its coordinates name |
| ThemeRoundTrip.SavedProgressBar | src/theme_parser.py:185-187 | kept text plus the rebuilt bar records the colours and style, and no position |
| ThemeRoundTrip.SavedBootMenu | src/theme_parser.py:185-212 | kept text plus the rebuilt bar plus a new boot menu records the colours, the style and the position |
| ThemeReload.FormatRecord | src/theme_parser.py:85-90 | a written global line records its key and value |
| ThemeReload.ClassifyByRecord | src/theme_parser.py:137-152 | the writer's line test agrees with what the parser records for the line |
| ThemeReload.RewriteGlobals | src/theme_parser.py:134-152 | the rewritten lines record the old non-virtual globals, with the data's values where it has them |
| ThemeReload.BracedVirtualKept | src/theme_parser.py:140-152 | a line holding `{` is kept even when it assigns a virtual key, and the parser records that key, as for `box-bg-color: "#000" {` |
| ThemeReload.ReplacedKeys | src/theme_parser.py:143-145 | the replaced keys are the recorded non-virtual keys the data holds |
| ThemeReload.MissingGlobals | src/theme_parser.py:154-158 | the appended lines add the data's non-replaced non-virtual keys |
| ThemeReload.KeptGlobals | src/theme_parser.py:130-160 | the kept text records the saved globals whatever colon-free text follows |
| ThemeReload.SavedGlobalsPlain | src/theme_parser.py:134-158 | a non-virtual key holds the data's value when the data has it, and its old value otherwise |
| ThemeReload.SavedGlobalsOnlyPlain | src/theme_parser.py:146-148 | only non-virtual keys survive the top-level rewrite |
| ThemeReload.ParsedWithoutBlocks | src/theme_parser.py:72-119 | text without blocks parses to its top-level globals |
| ThemeReload.WithProgressBarKept | src/theme_parser.py:164-187 | for kept text without `{`, the rebuilt progress bar, with the default colours, is appended to the kept text |
| ThemeReload.PlaceBootMenuFresh | src/theme_parser.py:189-212 | without a boot menu, a valid position appends a new block and anything else changes nothing |
| ThemeReload.SavedTextOf | src/theme_parser.py:122-214 | for kept text without `{`, the saved theme is the kept text, the progress bar and, for a valid position, a new boot menu |
| ThemeReload.SavedParsed | src/theme_parser.py:72-214 | parsing the saved theme gives the saved globals, the progress colours and style, and the position when the data names one |
| ThemeReload.SaveThenParsePlain | src/theme_parser.py:72-214 | after save and parse, a non-virtual key holds the data's value when given, and its old value otherwise |
| ThemeReload.SaveThenParseVirtual | src/theme_parser.py:72-214 | after save and parse, the progress keys hold the data's colours or the defaults, the style is `bar`, and the position is the data's when valid |
| ThemeReload.SaveThenParseOnly | src/theme_parser.py:72-214 | after save and parse, every key is non-virtual or one of the four keys the blocks carry |
| ThemePatch.SubAttrOnce | src/theme_parser.py:199 | with one match, the substitution replaces exactly that match |
| ThemePatch.AppendedCoord | src/theme_parser.py:201 | an appended coordinate reads back |
| ThemePatch.RewrittenRead | src/theme_parser.py:199 | a rewritten coordinate reads back |
| ThemePatch.PatchAppends | src/theme_parser.py:196-207 | a body with neither coordinate gets both appended, and both read back |
| ThemePatch.PatchRewrites | src/theme_parser.py:196-207 | a body with `left` then `top` gets both values rewritten in place, the rest kept, and both read back |
| ThemeReplace.ReplaceNothing | src/theme_parser.py:209-210 | text with no boot menu is copied unchanged |
| ThemeReplace.ReplaceCopies | src/theme_parser.py:209-210 | text before the first `+` with no `{` is copied unchanged |
| ThemeReplace.ReplacePrefix | src/theme_parser.py:209-210 | the text before the first `+`, holding no `{`, comes first in the substituted text |
| ThemeReplace.ReplaceLastBlock | src/theme_parser.py:196-210 | from the last boot menu on, the substitution is the patched block followed by the unchanged rest |
| ThemeReplace.ReplaceOneBlock | src/theme_parser.py:196-210 | the only boot menu is replaced by its patched block and the text around it is kept |
| ThemePlace.PatchedBlockFound | src/theme_parser.py:209-210 | the parser finds the patched block, with the patched body |
| ThemePlace.PlaceExisting | src/theme_parser.py:189-210 | with a boot menu present and a valid position, placement is the substitution with that position's coordinates |
| ThemePlace.PositionOfPlaced | src/theme_parser.py:189-210 | when the patched body reads back both coordinates, the parser records the saved position |
| ThemePlace.PlacedAppended | src/theme_parser.py:189-210 | a boot menu with neither coordinate, once placed, parses back as the saved position |
| ThemePlace.PlacedRewritten | src/theme_parser.py:189-210 | a boot menu with `left` then `top`, once placed, parses back as the saved position |
| ThemeRebuild.NoOpenerInKept | src/theme_parser.py:185-187 | text with no opener of a name gets none from appending a block on a new line |
| ThemeRebuild.FirstBlockAfter | src/theme_parser.py:185-187 | a block appended on a new line to text with no opener of its name is the first one found, with its body |
| ThemeRebuild.OneProgressOpener | src/theme_parser.py:185-187 | when the removal leaves no progress bar opener, the rebuilt text has exactly one, where the new block starts |
| ThemeRebuild.RebuiltNoBootMenu | src/theme_parser.py:185-195 | the rebuilt progress bar adds no boot menu opener |
| ThemeRebuild.RebuiltProgressPass | src/theme_parser.py:164-187 | the parser reads the data's colours or the defaults, and the bar style, from the rebuilt text whatever other blocks the kept text holds |
| ThemeRebuild.RebuiltUnplaced | src/theme_parser.py:185-190 | with no position in the data, the saved text is the rebuilt text and reads back the colours and style |
| ThemeRebuild.NewMenuPosition | src/theme_parser.py:211-212 | a new boot menu appended to text with no boot menu reads back as its position |
| ThemeRebuild.RebuiltPlaced | src/theme_parser.py:185-212 | with a valid position and no boot menu left, the saved text appends a new boot menu and reads back the colours, the style and the position |
| ThemePatched.OpenerMoved | src/theme_parser.py:185 | the opener pattern matches in text behind a prefix exactly where it matches in that text alone |
| ThemePatched.TailLacksOpener | src/theme_parser.py:185 | the rest of a text with no opener of a name has none either |
| ThemePatched.MenuBeforeRebuilt | src/theme_parser.py:185-207 | a boot menu block whose body holds no `+` lies wholly in the text ahead of the rebuilt progress bar block |
| ThemePatched.PatchedShape | src/theme_parser.py:207-208 | patching the only boot menu block, which lies ahead of the rebuilt block, rewrites the text ahead and leaves the rebuilt block at the end |
| ThemePatched.PatchedKeptLacksOpener | src/theme_parser.py:196-208 | the patched text ahead of the rebuilt block holds no progress bar opener |
| ThemePatched.OneOpenerAfter | src/theme_parser.py:185-187 | text with no progress bar opener followed by the rebuilt block has exactly one opener, where that block starts |
| ThemePatched.PatchedProgress | src/theme_parser.py:164-208 | after the boot menu is patched in place, the parser still reads both colours and the bar style from the rebuilt block |
| ThemePatched.PatchedOneOpener | src/theme_parser.py:185-208 | after the boot menu is patched in place, the text holds exactly one progress bar opener, where the rebuilt block starts |
| ThemePatched.PatchedSavedProgress | src/theme_parser.py:164-210 | saving a named position into text with an existing boot menu reads back the data's colours or the defaults, and the bar style |
| ThemePatched.PatchedReadBack | src/theme_parser.py:164-210 | saving a named position into text whose boot menu has `left` then `top` leaves one progress bar block and reads back both colours, the bar style and the position |

## Left out

- File, process and window I/O: files become values (see above). `pkexec`, the temporary file, the privileged copy and `update-grub` that follow the payload (main.py:329 onwards) are not part of this model.
- `SettingsWindow.Window.EnsureThemeReady`: the creation of a missing theme directory and file (main.py:110 onwards) is not part of this model.
- GUI construction (labels, tooltips, CSS, the boot-entry dialog) is not modelled. Only the widget each row stores and its initial state are modelled.
- `get_available_themes` (the sorted directory listing) is a parameter: the theme names are given.
- Exception handlers that print and return what they have (src/theme_parser.py:116-117, src/theme_parser.py:216-218, src/parser.py:41-43) are not modelled. Reads are total on the given text and writes always succeed.
- Regex classes and string methods are ASCII approximations. `\w` is ASCII letters, digits and `_`. `isdigit` is ASCII digits. `lower` folds only `A`-`Z`. Python's `\s`, `strip` and `splitlines` use the full Python whitespace and line-break sets.
- Textual idempotence of `save_theme` (saving twice gives the same text) is not stated. The round trip is stated on the parsed map.
- `ThemeReload.SavedParsed`, `ThemeReload.SaveThenParsePlain`, `ThemeReload.SaveThenParseVirtual` and `ThemeReload.SaveThenParseOnly` assume the original theme text holds no `{` (no blocks). They also assume the data is saveable: distinct keys, non-virtual values without `"`, line breaks or `{`, and progress colours of colour characters. For text with blocks only the two block passes are proved: the progress pass (`ThemeRebuild`, and `ThemePatched` when the boot menu is patched in place) and the position pass (`ThemePlace`, `ThemeRebuild.RebuiltPlaced`). The top-level keys of such text, and the property that no other key appears, are not proved there, and the latter does not hold: `ThemeReload.BracedVirtualKept` shows a line `box-bg-color: "#000" {` that the writer keeps and the parser records.
- `ThemePatch.PatchRewrites`: covers only a body where `left` comes before `top`, each matches exactly once, and no coordinate character follows either old value. `top` before `left`, only one of the two present, several matches, or a value glued to following digits are not covered.
- `ThemePlace.PlacedRewritten`: same cases as `ThemePatch.PatchRewrites`. It also needs a single `boot_menu` block with no `{` before it.
- `ThemePlace.PlacedAppended`: needs a single `boot_menu` block with no `{` before it.
- `ThemeRoundTrip.SavedProgressBar`, `ThemeRoundTrip.SavedBootMenu`, `ThemeReload.WithProgressBarKept` and `ThemeReload.SavedTextOf`: stated for kept text without `{`. Kept text that still holds blocks is covered by the `ThemeRebuild` and `ThemePatched` lemmas.
- `ThemeRebuild.RebuiltProgressPass`, `ThemeRebuild.RebuiltUnplaced` and `ThemeRebuild.RebuiltPlaced`: need the removal of old progress bar blocks to leave no progress bar opener. A `+ progress_bar {` with no closing brace, or one rebuilt by the removal itself, is not covered.
- `ThemeRebuild.RebuiltPlaced`: covers only text in which no boot menu opener is left. A boot menu patched in place is covered by the `ThemePatched` lemmas.
- `ThemePatched.PatchedSavedProgress`, `ThemePatched.PatchedOneOpener` and `ThemePatched.PatchedReadBack`: need a single `boot_menu` block with no `{` before it and no `+` in its body, and the removal of old progress bar blocks to leave no progress bar opener. `ThemePatched.PatchedReadBack` also needs the `left`/`top` cases of `ThemePatch.PatchRewrites`.
- Lines of `/etc/default/grub` are split only at `\n`. Python's text-mode reading also ends a line at a lone `\r` or at `\r\n`.
- `ThemeParser.SaveTheme`: the boot-menu substitution is modelled for every text. Its read-back is proved only for the cases above.
- The schema's labels and descriptions carry no behaviour and are not modelled. Each entry keeps its key, widget kind, group and virtual flag.

## Findings

| source | as written | input that shows it | evidently intended | confidence | as-written member | corrected member |
|---|---|---|---|---|---|---|
| main.py:180-186 | the theme drop-down preselects the first theme whose name is a substring of the current `GRUB_THEME` path | themes `["Vimix", "Vimix-dark"]`, `GRUB_THEME` = `/boot/grub/themes/Vimix-dark/theme.txt`: `Vimix` is preselected, so an untouched Save writes the `Vimix` path | preselect the theme whose path (main.py:312) is exactly the current path, so an untouched drop-down saves the same theme | not executed | `SettingsWindow.UntouchedThemeLost` | `SettingsWindow.CorrectedThemeKept` |
