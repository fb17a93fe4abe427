// The block steps of save_theme on kept text that may hold blocks of its own: once the old
// progress bar blocks are removed, the rebuilt block is the one parse_theme reads, and it is
// the only progress bar opener in the text.

module ThemeRebuild {
  import opened Wrappers
  import opened Text
  import opened Dicts
  import opened ThemeSchema
  import opened ThemeSyntax
  import opened ThemeParser
  import opened ThemeRoundTrip
  import opened ThemePlace
  import opened ThemeReload

  // ---------------------------------------------------------------------------
  // Openers around a line break and a written opener
  // ---------------------------------------------------------------------------

  /** An opener starting in text that goes on with a line break and a `+` has its brace in
      that text: the line break is no brace, and an opener holds no `+` before its brace. */
  lemma OpenerBeforeBreak(pre: string, n: string, rest: string, q: nat)
    requires PlainName(n) && |rest| >= 2 && rest[0] == '\n' && rest[1] == '+' && q <= |pre|
    requires OpenerAt(pre + rest, q, n).Some?
    ensures OpenerAt(pre + rest, q, n).value <= |pre|
  {
    var s := pre + rest;
    var d := |pre|;
    assert s[d] == '\n' && s[d + 1] == '+';
    if OpenerAt(s, q, n).value - 1 > d + 1 {
      OpenerInterior(s, q, n, d + 1);
    }
  }

  /** No opener for `n` starts in text with none of its own, or at its end, when the text goes
      on with a line break and a `+`. */
  lemma NoOpenerInKept(pre: string, n: string, rest: string, q: nat)
    requires PlainName(n) && FindOpenerFrom(pre, n, 0).None?
    requires |rest| >= 2 && rest[0] == '\n' && rest[1] == '+' && q <= |pre|
    ensures OpenerAt(pre + rest, q, n).None?
  {
    if OpenerAt(pre + rest, q, n).Some? {
      OpenerBeforeBreak(pre, n, rest, q);
      OpenerPrefix(pre, rest, q, n);
      FindOpenerReaches(pre, n, 0, q);
    }
  }

  /** The same for every position up to the line break. */
  lemma NoOpenerUpToBreak(pre: string, n: string, rest: string)
    requires PlainName(n) && FindOpenerFrom(pre, n, 0).None?
    requires |rest| >= 2 && rest[0] == '\n' && rest[1] == '+'
    ensures forall q :: 0 <= q < |pre| + 1 ==> OpenerAt(pre + rest, q, n).None?
  {
    forall q | 0 <= q < |pre| + 1
      ensures OpenerAt(pre + rest, q, n).None?
    {
      NoOpenerInKept(pre, n, rest, q);
    }
  }

  /** A block written after a line break that follows text with no opener for its name is the
      block the search finds, with the body it was written with. */
  lemma FirstBlockAfter(pre: string, name: BlockName, body: string, close: string)
    requires !HasOpener(pre, name) && '}' !in body && close != [] && close[0] == '}'
    ensures var p := |pre| + 1;
      var o := Opener(NameText(name));
      var s := pre + ("\n" + (o + (body + close)));
      FindBlock(s, name) == Some(Block(p, p + |o|, p + |o| + |body|)) && Body(s, Block(p, p + |o|, p + |o| + |body|)) == body
  {
    var n := NameText(name);
    var tail := Opener(n) + (body + close);
    NameTextPlain(name);
    assert ("\n" + tail)[1] == '+';
    NoOpenerUpToBreak(pre, n, "\n" + tail);
    Assoc(pre, "\n", tail);
    BlockOfWritten(pre + "\n", n, body, close);
    FindBlockAt(pre + ("\n" + tail), name, |pre| + 1);
  }

  // ---------------------------------------------------------------------------
  // The rebuilt progress bar
  // ---------------------------------------------------------------------------

  /** After the rebuilt block's `+` no character is a `+`. */
  lemma RebuiltLacksPlus(r: string, color: string, bg: string, q: nat)
    requires ColorText(color) && ColorText(bg)
    requires |r| + 1 < q < |r + ProgressBlock(color, bg)|
    ensures (r + ProgressBlock(color, bg))[q] != '+'
  {
    var o := Opener(NameText(ProgressBar));
    var tail := ProgressBody(color, bg) + "}\n";
    var s := r + ProgressBlock(color, bg);
    var d := |r| + 1;
    ProgressBlockLacks(color, bg);
    assert o == "+ progress_bar {";
    if q < d + |o| {
      assert s[q] == o[q - d];
    } else {
      assert s[q] == tail[q - d - |o|];
    }
  }

  /** The text with the rebuilt block has an opener for `n` at most where the block starts,
      when the text left by the removal has none. */
  lemma RebuiltOpeners(r: string, color: string, bg: string, n: string, q: nat)
    requires PlainName(n) && FindOpenerFrom(r, n, 0).None? && ColorText(color) && ColorText(bg)
    requires q != |r| + 1
    ensures OpenerAt(r + ProgressBlock(color, bg), q, n).None?
  {
    var s := r + ProgressBlock(color, bg);
    if q <= |r| {
      assert ProgressBlock(color, bg)[1] == '+';
      NoOpenerInKept(r, n, ProgressBlock(color, bg), q);
    } else if q < |s| {
      RebuiltLacksPlus(r, color, bg, q);
    }
  }

  /** When the removal leaves no progress bar opener, the rebuilt text has exactly one, where
      the rebuilt block starts. */
  lemma OneProgressOpener(kept: string, data: Dict<string>, q: nat)
    requires !HasOpener(RemoveBlocks(kept, ProgressBar), ProgressBar)
    requires ColorText(GetOr(data, "progress-color", "#fff")) && ColorText(GetOr(data, "progress-bg-color", "#000"))
    ensures OpenerAt(WithProgressBar(kept, data), q, NameText(ProgressBar)).Some?
      <==> q == |RemoveBlocks(kept, ProgressBar)| + 1
  {
    var r := RemoveBlocks(kept, ProgressBar);
    var color := GetOr(data, "progress-color", "#fff");
    var bg := GetOr(data, "progress-bg-color", "#000");
    var n := NameText(ProgressBar);
    NameTextPlain(ProgressBar);
    if q == |r| + 1 {
      Assoc(r, "\n", Opener(n) + (ProgressBody(color, bg) + "}\n"));
      OpenerAtWritten(r + "\n", n, ProgressBody(color, bg) + "}\n");
    } else {
      RebuiltOpeners(r, color, bg, n, q);
    }
  }

  /** The rebuilt block's opener is not a boot menu opener. */
  lemma RebuiltNotBootMenu(r: string, color: string, bg: string)
    ensures OpenerAt(r + ProgressBlock(color, bg), |r| + 1, NameText(BootMenu)).None?
  {
    var tail := ProgressBody(color, bg) + "}\n";
    NameTextPlain(ProgressBar);
    Assoc(r, "\n", Opener(NameText(ProgressBar)) + tail);
    OpenerMismatch(r + "\n", NameText(ProgressBar), NameText(BootMenu), tail);
  }

  /** When the removal leaves no boot menu opener either, the rebuilt text has none. */
  lemma RebuiltNoBootMenu(r: string, color: string, bg: string)
    requires !HasOpener(r, BootMenu) && ColorText(color) && ColorText(bg)
    ensures !HasOpener(r + ProgressBlock(color, bg), BootMenu)
  {
    var s := r + ProgressBlock(color, bg);
    var n := NameText(BootMenu);
    if HasOpener(s, BootMenu) {
      var q := FindOpenerFrom(s, n, 0).value;
      NameTextPlain(BootMenu);
      RebuiltNotBootMenu(r, color, bg);
      if q != |r| + 1 {
        RebuiltOpeners(r, color, bg, n, q);
      }
    }
  }

  /** When the removal leaves no progress bar opener, the progress pass on the rebuilt text
      reads the two colours of the data (or their defaults) and the bar style. */
  lemma RebuiltProgressPass(kept: string, data: Dict<string>, props: Properties)
    requires !HasOpener(RemoveBlocks(kept, ProgressBar), ProgressBar)
    requires ColorText(GetOr(data, "progress-color", "#fff")) && ColorText(GetOr(data, "progress-bg-color", "#000"))
    ensures ProgressPass(WithProgressBar(kept, data), props)
      == props["progress-color" := GetOr(data, "progress-color", "#fff")]
              ["progress-bg-color" := GetOr(data, "progress-bg-color", "#000")]["progress-style" := "bar"]
  {
    var r := RemoveBlocks(kept, ProgressBar);
    var color := GetOr(data, "progress-color", "#fff");
    var bg := GetOr(data, "progress-bg-color", "#000");
    var s := WithProgressBar(kept, data);
    ProgressBodyLacks(color, bg);
    FirstBlockAfter(r, ProgressBar, ProgressBody(color, bg), "}\n");
    ProgressPassOf(s, props, color, bg, FindBlock(s, ProgressBar).value);
  }

  // ---------------------------------------------------------------------------
  // The saved text
  // ---------------------------------------------------------------------------

  /** With no position in the data, the saved text is the rebuilt text and the progress pass
      reads the data's colours; no boot menu opener is added. */
  lemma RebuiltUnplaced(kept: string, data: Dict<string>, props: Properties)
    requires !Placed(data) && !HasOpener(RemoveBlocks(kept, ProgressBar), ProgressBar)
    requires ColorText(GetOr(data, "progress-color", "#fff")) && ColorText(GetOr(data, "progress-bg-color", "#000"))
    ensures SavedText(kept, data) == WithProgressBar(kept, data)
    ensures ProgressPass(SavedText(kept, data), props)
      == props["progress-color" := GetOr(data, "progress-color", "#fff")]
              ["progress-bg-color" := GetOr(data, "progress-bg-color", "#000")]["progress-style" := "bar"]
  {
    RebuiltProgressPass(kept, data, props);
  }

  /** The saved text with a new boot menu, regrouped around the rebuilt progress bar block. */
  lemma RegroupRebuilt(r: string, color: string, bg: string, menu: string)
    ensures r + ProgressBlock(color, bg) + menu
      == r + ("\n" + (Opener(NameText(ProgressBar)) + (ProgressBody(color, bg) + ("}\n" + menu))))
  {
    var body := ProgressBody(color, bg);
    var o := Opener(NameText(ProgressBar));
    Assoc(body, "}\n", menu);
    Assoc(o, body + "}\n", menu);
    Assoc("\n", o + (body + "}\n"), menu);
    Assoc(r, ProgressBlock(color, bg), menu);
  }

  /** The progress pass on the rebuilt text followed by a new boot menu block. */
  lemma RebuiltMenuProgress(r: string, color: string, bg: string, menu: string, props: Properties)
    requires !HasOpener(r, ProgressBar) && ColorText(color) && ColorText(bg)
    ensures ProgressPass(r + ProgressBlock(color, bg) + menu, props)
      == props["progress-color" := color]["progress-bg-color" := bg]["progress-style" := "bar"]
  {
    var s := r + ProgressBlock(color, bg) + menu;
    RegroupRebuilt(r, color, bg, menu);
    ProgressBodyLacks(color, bg);
    FirstBlockAfter(r, ProgressBar, ProgressBody(color, bg), "}\n" + menu);
    ProgressPassOf(s, props, color, bg, FindBlock(s, ProgressBar).value);
  }

  /** The position pass on text with no boot menu opener followed by a new boot menu block for
      a named position reads that name. */
  lemma NewMenuPosition(w: string, name: string, props: Properties)
    requires !HasOpener(w, BootMenu) && CoordsOf(name).Some?
    ensures var c := CoordsOf(name).value;
      PositionPass(w + NewBootMenu(c.left, c.top), props) == props["menu-position" := name]
  {
    var c := CoordsOf(name).value;
    var s := w + NewBootMenu(c.left, c.top);
    CoordsText(name);
    BootMenuBodyLacks(c.left, c.top);
    FirstBlockAfter(w, BootMenu, BootMenuBody(c.left, c.top), "}\n");
    PositionPassOf(s, props, c.left, c.top, FindBlock(s, BootMenu).value);
    PositionRoundTrip(name, c.left, c.top);
  }

  /** With a position in the data and no boot menu opener left by the removal, the saved text
      ends with a new boot menu block; the passes read the data's colours and its position. */
  lemma RebuiltPlaced(kept: string, data: Dict<string>, props: Properties)
    requires Placed(data)
    requires !HasOpener(RemoveBlocks(kept, ProgressBar), ProgressBar) && !HasOpener(RemoveBlocks(kept, ProgressBar), BootMenu)
    requires ColorText(GetOr(data, "progress-color", "#fff")) && ColorText(GetOr(data, "progress-bg-color", "#000"))
    ensures var c := CoordsOf(Get(data, "menu-position").value).value;
      SavedText(kept, data) == WithProgressBar(kept, data) + NewBootMenu(c.left, c.top)
    ensures ProgressPass(SavedText(kept, data), props)
      == props["progress-color" := GetOr(data, "progress-color", "#fff")]
              ["progress-bg-color" := GetOr(data, "progress-bg-color", "#000")]["progress-style" := "bar"]
    ensures PositionPass(SavedText(kept, data), props) == props["menu-position" := Get(data, "menu-position").value]
  {
    var r := RemoveBlocks(kept, ProgressBar);
    var color := GetOr(data, "progress-color", "#fff");
    var bg := GetOr(data, "progress-bg-color", "#000");
    var name := Get(data, "menu-position").value;
    var c := CoordsOf(name).value;
    var w := WithProgressBar(kept, data);
    RebuiltNoBootMenu(r, color, bg);
    PlaceBootMenuFresh(w, data);
    RebuiltMenuProgress(r, color, bg, NewBootMenu(c.left, c.top), props);
    NewMenuPosition(w, name, props);
  }
}
