/**
  The `theme.txt` codec: `parse_theme` reads the editor's flat property map out of theme text in
  three passes, and `save_theme` writes a property map back into existing theme text. The file
  system is replaced by the file's content (`None` when the file does not exist).
*/
module ThemeParser {
  import opened Wrappers
  import opened Text
  import opened Dicts
  import opened ThemeSchema
  import opened ThemeSyntax

  /** The flat map `parse_theme` returns. Its iteration order is never used, so it is a `map`. */
  type Properties = map<string, string>

  // ---------------------------------------------------------------------------
  // parse_theme
  // ---------------------------------------------------------------------------

  /** What one line contributes to the top-level pass: after `strip()`, a line that is not blank,
      not a comment and matches the top-level pattern for a schema key records that key. */
  function LineRecord(line: string): (r: Option<Assignment>)
    ensures r.Some? ==> IsKnown(r.value.key)
  {
    var s := Strip(line);
    if s == [] || s[0] == '#' then None
    else match MatchGlobal(s)
      case Some(a) => if IsKnown(a.key) then Some(a) else None
      case None => None
  }

  function GlobalStep(props: Properties, line: string): Properties {
    match LineRecord(line)
    case Some(a) => props[a.key := a.value]
    case None => props
  }

  /** The map after the top-level pass over `lines`, one line at a time. */
  function GlobalsOf(lines: seq<string>): Properties {
    if lines == [] then map[] else GlobalStep(GlobalsOf(lines[..|lines| - 1]), lines[|lines| - 1])
  }

  /** The last line that records `key` decides its value: a later line overrides an earlier one. */
  lemma {:induction false} GlobalsLastWins(lines: seq<string>, i: nat, key: string)
    requires i < |lines| && LineRecord(lines[i]).Some? && LineRecord(lines[i]).value.key == key
    requires forall j :: i < j < |lines| ==> LineRecord(lines[j]).None? || LineRecord(lines[j]).value.key != key
    ensures key in GlobalsOf(lines) && GlobalsOf(lines)[key] == LineRecord(lines[i]).value.value
    decreases |lines|
  {
    var prefix := lines[..|lines| - 1];
    if i < |lines| - 1 {
      assert forall j :: i < j < |prefix| ==> prefix[j] == lines[j];
      GlobalsLastWins(prefix, i, key);
    }
  }

  /** Every key of the top-level pass is a schema key recorded by some line. */
  lemma {:induction false} GlobalsKeySource(lines: seq<string>, key: string) returns (j: nat)
    requires key in GlobalsOf(lines)
    ensures j < |lines| && LineRecord(lines[j]).Some? && LineRecord(lines[j]).value.key == key
    ensures IsKnown(key)
    decreases |lines|
  {
    var prefix := lines[..|lines| - 1];
    var last := LineRecord(lines[|lines| - 1]);
    if last.Some? && last.value.key == key {
      j := |lines| - 1;
    } else {
      j := GlobalsKeySource(prefix, key);
      assert prefix[j] == lines[j];
    }
  }

  /** The second pass: the first `progress_bar` block supplies the progress colours and style. */
  function ProgressPass(text: string, props: Properties): Properties {
    match FindBlock(text, ProgressBar)
    case None => props
    case Some(m) =>
      var body := Body(text, m);
      var withFg := match AttrValue(body, "fg_color")
        case Some(v) => props["progress-color" := v]
        case None => props;
      var withBg := match AttrValue(body, "bg_color")
        case Some(v) => withFg["progress-bg-color" := v]
        case None => withFg;
      withBg["progress-style" := "bar"]
  }

  /** The third pass: the `left`/`top` pair of the first `boot_menu` block, looked up in reverse. */
  function PositionPass(text: string, props: Properties): Properties {
    match FindBlock(text, BootMenu)
    case None => props
    case Some(m) =>
      var body := Body(text, m);
      match (FindCoord(body, "left"), FindCoord(body, "top"))
      case (Some(l), Some(t)) =>
        (match PositionFor(l, t)
         case Some(name) => props["menu-position" := name]
         case None => props)
      case _ => props
  }

  /** The map `parse_theme` returns for a file with this content. */
  function ParsedTheme(content: Option<string>): Properties {
    match content
    case None => map[]
    case Some(text) => PositionPass(text, ProgressPass(text, GlobalsOf(SplitLines(text))))
  }

  /** The top-level pass of `parse_theme`: a loop filling the map line by line. */
  method ParseGlobals(lines: seq<string>) returns (props: Properties)
    ensures props == GlobalsOf(lines)
  {
    props := map[];
    var i := 0;
    while i < |lines|
      invariant 0 <= i <= |lines|
      invariant props == GlobalsOf(lines[..i])
    {
      assert lines[..i + 1][..i] == lines[..i];
      assert GlobalsOf(lines[..i + 1]) == GlobalStep(props, lines[i]);
      var line := Strip(lines[i]);
      if line != [] && line[0] != '#' {
        var m := MatchGlobal(line);
        if m.Some? && IsKnown(m.value.key) {
          props := props[m.value.key := m.value.value];
        }
      }
      i := i + 1;
    }
    assert lines[..i] == lines;
  }

  /** The progress bar pass of `parse_theme`. */
  method ReadProgressBar(text: string, props0: Properties) returns (props: Properties)
    ensures props == ProgressPass(text, props0)
  {
    props := props0;
    var pb := FindBlock(text, ProgressBar);
    if pb.Some? {
      var block := Body(text, pb.value);
      var fg := AttrValue(block, "fg_color");
      if fg.Some? {
        props := props["progress-color" := fg.value];
      }
      var bg := AttrValue(block, "bg_color");
      if bg.Some? {
        props := props["progress-bg-color" := bg.value];
      }
      props := props["progress-style" := "bar"];
      ProgressPassFound(text, props0, pb.value, fg, bg);
    }
  }

  /** With a first `progress_bar` block, the pass sets the colours the block has and the style. */
  lemma ProgressPassFound(text: string, props: Properties, m: Block, fg: Option<string>, bg: Option<string>)
    requires FindBlock(text, ProgressBar) == Some(m)
    requires AttrValue(Body(text, m), "fg_color") == fg && AttrValue(Body(text, m), "bg_color") == bg
    ensures var withFg := if fg.Some? then props["progress-color" := fg.value] else props;
      var withBg := if bg.Some? then withFg["progress-bg-color" := bg.value] else withFg;
      ProgressPass(text, props) == withBg["progress-style" := "bar"]
  {
  }

  /** The menu position pass of `parse_theme`. */
  method ReadMenuPosition(text: string, props0: Properties) returns (props: Properties)
    ensures props == PositionPass(text, props0)
  {
    props := props0;
    var bm := FindBlock(text, BootMenu);
    if bm.Some? {
      var block := Body(text, bm.value);
      var left := FindCoord(block, "left");
      var top := FindCoord(block, "top");
      if left.Some? && top.Some? {
        var name := LookupPosition(left.value, top.value);
        PositionPassFound(text, props0, bm.value, left.value, top.value);
        if name.Some? {
          props := props["menu-position" := name.value];
        }
      } else {
        PositionPassIncomplete(text, props0, bm.value);
      }
    }
  }

  /** With both coordinates in the first `boot_menu` block, the pass looks the pair up. */
  lemma PositionPassFound(text: string, props: Properties, m: Block, left: string, top: string)
    requires FindBlock(text, BootMenu) == Some(m)
    requires FindCoord(Body(text, m), "left") == Some(left) && FindCoord(Body(text, m), "top") == Some(top)
    ensures PositionPass(text, props) == match PositionFor(left, top)
      case Some(name) => props["menu-position" := name]
      case None => props
  {
  }

  /** Without a `boot_menu` block, the pass changes nothing. */
  lemma PositionPassNone(text: string, props: Properties)
    requires FindBlock(text, BootMenu).None?
    ensures PositionPass(text, props) == props
  {
  }

  /** Without both coordinates in the first `boot_menu` block, the pass changes nothing. */
  lemma PositionPassIncomplete(text: string, props: Properties, m: Block)
    requires FindBlock(text, BootMenu) == Some(m)
    requires FindCoord(Body(text, m), "left").None? || FindCoord(Body(text, m), "top").None?
    ensures PositionPass(text, props) == props
  {
  }

  /** `parse_theme`. */
  method ParseTheme(content: Option<string>) returns (props: Properties)
    ensures props == ParsedTheme(content)
    ensures content.None? ==> props == map[]
  {
    if content.None? {
      return map[];
    }
    var text := content.value;
    props := ParseGlobals(SplitLines(text));
    props := ReadProgressBar(text, props);
    props := ReadMenuPosition(text, props);
  }

  // ---------------------------------------------------------------------------
  // save_theme
  // ---------------------------------------------------------------------------

  /** What the line pass of `save_theme` does with one line. */
  datatype LineAction = Replace(key: string) | Drop | Keep

  /** A stripped line that matches the top-level pattern, is not a comment and has no `{` is a
      top-level assignment: it is replaced when its key is a non-virtual schema key present in the
      data, dropped when its key is virtual, and kept otherwise. Every other line is kept. */
  function Classify(line: string, data: Dict<string>): (r: LineAction)
    ensures r.Replace? ==> IsPlain(r.key) && HasKey(data, r.key)
  {
    var s := Strip(line);
    match MatchGlobal(s)
    case Some(a) =>
      if !StartsWith(s, "#") && '{' !in s then
        if HasKey(data, a.key) && IsPlain(a.key) then Replace(a.key)
        else if IsVirtual(a.key) then Drop
        else Keep
      else Keep
    case None => Keep
  }

  /** The line `save_theme` writes for key `key` of the data. */
  function DataLine(data: Dict<string>, key: string): string
    requires HasKey(data, key)
  {
    FormatGlobal(key, Get(data, key).value)
  }

  /** The output lines for one input line. */
  function Rewritten(line: string, data: Dict<string>): seq<string> {
    match Classify(line, data)
    case Replace(key) => [DataLine(data, key)]
    case Drop => []
    case Keep => [line]
  }

  /** The line pass over `lines`. */
  function Rewrite(lines: seq<string>, data: Dict<string>): seq<string> {
    if lines == [] then []
    else Rewrite(lines[..|lines| - 1], data) + Rewritten(lines[|lines| - 1], data)
  }

  /** `processed_keys` after the line pass over `lines`. */
  function Replaced(lines: seq<string>, data: Dict<string>): set<string> {
    if lines == [] then {}
    else
      var rest := Replaced(lines[..|lines| - 1], data);
      match Classify(lines[|lines| - 1], data)
      case Replace(key) => rest + {key}
      case _ => rest
  }

  /** The appended lines: each non-virtual schema key of the data not already replaced, in data order. */
  function Missing(entries: Dict<string>, replaced: set<string>): seq<string> {
    if entries == [] then []
    else
      var last := entries[|entries| - 1];
      Missing(entries[..|entries| - 1], replaced)
      + if IsPlain(last.key) && last.key !in replaced then [FormatGlobal(last.key, last.value)] else []
  }

  /** The fixed text of the progress bar block around its three colour attributes. */
  const ProgressHead: string :=
    "\n    id = \"__timeout__\"" + "\n    left = 15%" + "\n    top = 90%" + "\n    width = 70%" + "\n    height = 20" + "\n    "
  const ProgressIndent: string := "\n    "
  const ProgressTail: string :=
    "\n    text = " + "\"@TIMEOUT_NOTIFICATION_LONG@\"" + "\n    font = \"Sans Regular 12\"" + "\n    text_color = \"#ffffff\"" + "\n"

  /** The body of the progress bar block `save_theme` writes. */
  function ProgressBody(color: string, bg: string): string {
    ProgressHead + (QuotedAttr("fg_color", color) + (ProgressIndent + (QuotedAttr("bg_color", bg)
    + (ProgressIndent + (QuotedAttr("border_color", color) + ProgressTail)))))
  }

  /** The progress bar block `save_theme` appends. */
  function ProgressBlock(color: string, bg: string): string {
    "\n" + (Opener(NameText(ProgressBar)) + (ProgressBody(color, bg) + "}\n"))
  }

  const MenuIndent: string := "\n  "
  const BootMenuTail: string := "\n  width = 50%\n  height = 40%\n"

  /** The body of the boot menu block `save_theme` appends when the text has none. */
  function BootMenuBody(left: string, top: string): string {
    MenuIndent + (BareAttr("left", left) + (MenuIndent + (BareAttr("top", top) + BootMenuTail)))
  }

  function NewBootMenu(left: string, top: string): string {
    "\n" + (Opener(NameText(BootMenu)) + (BootMenuBody(left, top) + "}\n"))
  }

  /** `replace_block` on a block body: every `left` and `top` attribute is rewritten, and an
      attribute with no match at all is appended. */
  function PatchBody(body: string, left: string, top: string): string {
    PatchAttr(PatchAttr(body, "left", left), "top", top)
  }

  /** One step of `replace_block`: every match of the attribute `name` is rewritten to
      `name = value`, or the attribute is appended on an indented line when nothing matches. */
  function PatchAttr(body: string, name: string, value: string): string {
    if FindAttrFrom(body, name, 0).Some? then SubAttr(body, name, BareAttr(name, value))
    else body + MenuIndent + BareAttr(name, value)
  }

  /** What `replace_block` returns for one match: the standard opener, the patched body and the
      closing brace. */
  function ReplaceBlock(body: string, left: string, top: string): string {
    Opener(NameText(BootMenu)) + (PatchBody(body, left, top) + "}")
  }

  /** `re.sub` of the boot menu block pattern with `replace_block`, scanning from `i`. */
  function ReplaceBootMenusFrom(s: string, left: string, top: string, i: nat): string
    requires i <= |s|
    decreases |s| - i
  {
    if i == |s| then ""
    else match BlockAt(s, i, BootMenu)
      case Some(m) =>
        ReplaceBlock(Body(s, m), left, top) + ReplaceBootMenusFrom(s, left, top, m.bodyEnd + 1)
      case None => [s[i]] + ReplaceBootMenusFrom(s, left, top, i + 1)
  }

  /** The position step: only a `menu-position` that names a `POSITION_MAP` entry touches the
      boot menu, patching every existing block or appending a new one. */
  function PlaceBootMenu(s: string, data: Dict<string>): string {
    match Get(data, "menu-position")
    case None => s
    case Some(name) =>
      match CoordsOf(name)
      case None => s
      case Some(c) =>
        if HasOpener(s, BootMenu) then ReplaceBootMenusFrom(s, c.left, c.top, 0)
        else s + NewBootMenu(c.left, c.top)
  }

  /** The text before the blocks: rewritten lines and appended keys, one per line. */
  function KeptText(lines: seq<string>, data: Dict<string>): string {
    JoinLines(Rewrite(lines, data) + Missing(data, Replaced(lines, data)))
  }

  /** Every progress bar block removed, and the rebuilt one appended. */
  function WithProgressBar(kept: string, data: Dict<string>): string {
    RemoveBlocks(kept, ProgressBar)
    + ProgressBlock(GetOr(data, "progress-color", "#fff"), GetOr(data, "progress-bg-color", "#000"))
  }

  /** The block steps of `save_theme` on the kept text. */
  function SavedText(kept: string, data: Dict<string>): string {
    PlaceBootMenu(WithProgressBar(kept, data), data)
  }

  /** The text `save_theme` returns for a file with this content. */
  function SavedTheme(content: Option<string>, data: Dict<string>): Option<string> {
    match content
    case None => None
    case Some(text) => Some(SavedText(KeptText(SplitLines(text), data), data))
  }

  /** One more line extends the line pass by that line's output. */
  lemma RewriteSnoc(lines: seq<string>, i: nat, data: Dict<string>)
    requires i < |lines|
    ensures Rewrite(lines[..i + 1], data) == Rewrite(lines[..i], data) + Rewritten(lines[i], data)
    ensures Replaced(lines[..i + 1], data)
      == match Classify(lines[i], data)
         case Replace(key) => Replaced(lines[..i], data) + {key}
         case _ => Replaced(lines[..i], data)
  {
    var p := lines[..i + 1];
    assert p[..|p| - 1] == lines[..i] && p[|p| - 1] == lines[i];
  }

  /** The line pass of `save_theme`: the rewritten lines and `processed_keys`. */
  method RewriteLines(lines: seq<string>, data: Dict<string>) returns (newLines: seq<string>, processed: set<string>)
    ensures newLines == Rewrite(lines, data)
    ensures processed == Replaced(lines, data)
  {
    newLines := [];
    processed := {};
    var i := 0;
    while i < |lines|
      invariant 0 <= i <= |lines|
      invariant newLines == Rewrite(lines[..i], data)
      invariant processed == Replaced(lines[..i], data)
    {
      RewriteSnoc(lines, i, data);
      ghost var action := Classify(lines[i], data);
      var stripped := Strip(lines[i]);
      var m := MatchGlobal(stripped);
      if m.Some? && !StartsWith(stripped, "#") && '{' !in stripped {
        var key := m.value.key;
        if HasKey(data, key) && IsPlain(key) {
          assert action == Replace(key);
          newLines := newLines + [FormatGlobal(key, Get(data, key).value)];
          processed := processed + {key};
        } else if IsVirtual(key) {
          assert action == Drop;
        } else {
          assert action == Keep;
          newLines := newLines + [lines[i]];
        }
      } else {
        assert action == Keep;
        newLines := newLines + [lines[i]];
      }
      i := i + 1;
    }
    assert lines[..i] == lines;
  }

  /** The append pass of `save_theme`: the non-virtual schema keys of the data that no line replaced. */
  method AppendMissing(newLines0: seq<string>, data: Dict<string>, processed: set<string>) returns (newLines: seq<string>)
    ensures newLines == newLines0 + Missing(data, processed)
  {
    newLines := newLines0;
    var j := 0;
    while j < |data|
      invariant 0 <= j <= |data|
      invariant newLines == newLines0 + Missing(data[..j], processed)
    {
      assert data[..j + 1][..j] == data[..j];
      var key := data[j].key;
      if IsPlain(key) && key !in processed {
        newLines := newLines + [FormatGlobal(key, data[j].value)];
      }
      j := j + 1;
    }
    assert data[..j] == data;
  }

  /** The block steps of `save_theme`: rebuild the progress bar, then place the boot menu. */
  method PlaceBlocks(kept: string, data: Dict<string>) returns (text: string)
    ensures text == SavedText(kept, data)
  {
    text := RemoveBlocks(kept, ProgressBar);
    text := text + ProgressBlock(GetOr(data, "progress-color", "#fff"), GetOr(data, "progress-bg-color", "#000"));
    var position := Get(data, "menu-position");
    if position.Some? {
      var coords := CoordsOf(position.value);
      if coords.Some? {
        if HasOpener(text, BootMenu) {
          text := ReplaceBootMenusFrom(text, coords.value.left, coords.value.top, 0);
        } else {
          text := text + NewBootMenu(coords.value.left, coords.value.top);
        }
      }
    }
  }

  /** `save_theme`. */
  method SaveTheme(content: Option<string>, data: Dict<string>) returns (out: Option<string>)
    ensures out == SavedTheme(content, data)
    ensures content.None? <==> out.None?
  {
    if content.None? {
      return None;
    }
    var lines := SplitLines(content.value);
    var newLines, processed := RewriteLines(lines, data);
    newLines := AppendMissing(newLines, data, processed);
    var text := PlaceBlocks(JoinLines(newLines), data);
    return Some(text);
  }
}
