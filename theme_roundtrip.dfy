/**
  Saving then parsing: `parse_theme` applied to the text `save_theme` produces reads back the data
  that was saved. The statements hold for theme text with no `{` (no blocks to patch or remove)
  and data whose written values cannot be mistaken for syntax.
*/
module ThemeRoundTrip {
  import opened Wrappers
  import opened Text
  import opened Dicts
  import opened ThemeSchema
  import opened ThemeSyntax
  import opened ThemeParser

  // ---------------------------------------------------------------------------
  // Finding the appended blocks
  // ---------------------------------------------------------------------------

  /** No opener for `n` starts anywhere before the end of `mid` when the text up to the opener
      for `m` holds no `{`, `m` and `n` start differently, and `mid` holds no `+`. */
  lemma NoOpenerThrough(pre: string, m: string, mid: string, n: string, post: string)
    requires '{' !in pre && PlainName(m) && '+' !in mid && PlainName(n) && m[0] != n[0]
    ensures forall q :: 0 <= q < |pre| + |Opener(m)| + |mid| ==> OpenerAt(pre + (Opener(m) + (mid + post)), q, n).None?
  {
    var o := Opener(m);
    var s := pre + (o + (mid + post));
    var j := |pre|;
    NoOpenerBeforeText(pre, n, o + (mid + post));
    OpenerMismatch(pre, m, n, mid + post);
    forall q | j < q < j + |o| + |mid|
      ensures s[q] != '+'
    {
      if q < j + |o| {
        assert s[q] == o[q - j];
        assert o == "+ " + m + " {";
        if 2 <= q - j < 2 + |m| {
          assert o[q - j] == m[q - j - 2];
        }
      } else {
        assert s[q] == mid[q - j - |o|];
      }
    }
  }

  /** No opener starts in a stretch with no `{` that is followed by a `+`. */
  lemma NoOpenerBeforeText(pre: string, n: string, rest: string)
    requires '{' !in pre && PlainName(n) && rest != [] && rest[0] == '+'
    ensures forall q :: 0 <= q < |pre| ==> OpenerAt(pre + rest, q, n).None?
  {
    var s := pre + rest;
    var j := |pre|;
    assert s[j] == '+';
    assert s[..j + 1] == pre + ['+'];
    NoOpenerBeforeFirstPlus(s, n, j);
  }

  /** The search for a block finds the first one written, when no `{` comes before it. */
  lemma FirstBlockWritten(pre: string, name: BlockName, body: string, close: string)
    requires '{' !in pre && '}' !in body && close != [] && close[0] == '}'
    ensures var o := Opener(NameText(name));
      FindBlock(pre + (o + (body + close)), name) == Some(Block(|pre|, |pre| + |o|, |pre| + |o| + |body|))
      && Body(pre + (o + (body + close)), Block(|pre|, |pre| + |o|, |pre| + |o| + |body|)) == body
  {
    var n := NameText(name);
    var s := pre + (Opener(n) + (body + close));
    NameTextPlain(name);
    NoOpenerBeforeText(pre, n, Opener(n) + (body + close));
    BlockOfWritten(pre, n, body, close);
    FindBlockAt(s, name, |pre|);
  }

  /** The search for a block of one kind skips a block of the other kind and finds the one
      written after it. */
  lemma SecondBlockWritten(pre: string, other: BlockName, mid: string, name: BlockName, body: string, close: string)
    requires other != name && '{' !in pre && '+' !in mid && '}' !in body && close != [] && close[0] == '}'
    ensures var p := |pre| + |Opener(NameText(other))| + |mid|;
      var o := Opener(NameText(name));
      var s := pre + (Opener(NameText(other)) + (mid + (o + (body + close))));
      FindBlock(s, name) == Some(Block(p, p + |o|, p + |o| + |body|)) && Body(s, Block(p, p + |o|, p + |o| + |body|)) == body
  {
    var m := NameText(other);
    var n := NameText(name);
    var tail := Opener(n) + (body + close);
    var s := pre + (Opener(m) + (mid + tail));
    var head := pre + (Opener(m) + mid);
    NameTextPlain(other);
    NameTextPlain(name);
    NoOpenerThrough(pre, m, mid, n, tail);
    Assoc(Opener(m), mid, tail);
    Assoc(pre, Opener(m) + mid, tail);
    assert s == head + tail;
    BlockOfWritten(head, n, body, close);
    FindBlockAt(s, name, |head|);
  }

  /** Text with one block of the other kind after a stretch with no `{`, and no `+` after that
      block's opener, has no opener and no block of this kind. */
  lemma NoBlockWritten(pre: string, other: BlockName, mid: string, name: BlockName)
    requires other != name && '{' !in pre && '+' !in mid
    ensures !HasOpener(pre + (Opener(NameText(other)) + mid), name)
    ensures FindBlock(pre + (Opener(NameText(other)) + mid), name).None?
  {
    var m := NameText(other);
    var n := NameText(name);
    var s := pre + (Opener(m) + mid);
    NameTextPlain(other);
    NameTextPlain(name);
    assert mid + "" == mid;
    NoOpenerThrough(pre, m, mid, n, "");
  }

  // ---------------------------------------------------------------------------
  // Reading the appended blocks
  // ---------------------------------------------------------------------------

  /** A colour as the editor writes it: `#` and hexadecimal digits, or a colour name. */
  predicate IsColorChar(c: char) {
    c == '#' || IsDigit(c) || 'a' <= c <= 'z' || 'A' <= c <= 'Z'
  }

  predicate ColorText(v: string) {
    forall k :: 0 <= k < |v| ==> IsColorChar(v[k])
  }

  /** The fixed text of the progress bar block holds no `+`, no `}` and no `:`, and its head
      holds no `b` and no `c`. */
  lemma ProgressHeadLacksPlus() ensures '+' !in ProgressHead {}
  lemma ProgressHeadLacksBrace() ensures '}' !in ProgressHead {}
  lemma ProgressHeadLacksColon() ensures ':' !in ProgressHead {}
  lemma ProgressHeadLacksB() ensures 'b' !in ProgressHead {}
  lemma ProgressHeadLacksC() ensures 'c' !in ProgressHead {}
  lemma ProgressTailLacksPlus() ensures '+' !in ProgressTail {}
  lemma ProgressTailLacksBrace() ensures '}' !in ProgressTail {}
  lemma ProgressTailLacksColon() ensures ':' !in ProgressTail {}

  /** A colour has no quote, no line break and none of the characters of the block syntax. */
  lemma ColorTextLacks(v: string)
    requires ColorText(v)
    ensures '"' !in v && '\n' !in v && '_' !in v && '+' !in v && '}' !in v && ':' !in v
  {
  }

  /** `fg_color` written after text with no `c` is read back. */
  lemma ForegroundReadBack(head: string, color: string, post: string)
    requires 'c' !in head && ColorText(color)
    ensures AttrValue(head + (QuotedAttr("fg_color", color) + post), "fg_color") == Some(color)
  {
    var s := head + (QuotedAttr("fg_color", color) + post);
    ColorTextLacks(color);
    forall q | 0 <= q < |head|
      ensures !At(s, q, "fg_color")
    {
      if q + 3 < |head| {
        assert s[q + 3] == head[q + 3];
      }
      NotAtByChar(s, q, "fg_color", 3);
    }
    AttrValueWritten(head, "fg_color", color, post);
  }

  /** `bg_color` written after text with no `b`, a `fg_color` attribute and an indent is read back. */
  lemma BackgroundReadBack(head: string, color: string, bg: string, post: string)
    requires 'b' !in head && ColorText(color) && ColorText(bg)
    ensures AttrValue(head + (QuotedAttr("fg_color", color) + (ProgressIndent + (QuotedAttr("bg_color", bg) + post))), "bg_color")
      == Some(bg)
  {
    var a := QuotedAttr("fg_color", color);
    var b := QuotedAttr("bg_color", bg);
    var s := head + (a + (ProgressIndent + (b + post)));
    var pre := head + (a + ProgressIndent);
    Assoc(a, ProgressIndent, b + post);
    Assoc(head, a + ProgressIndent, b + post);
    assert s == pre + (b + post);
    ColorTextLacks(color);
    forall q | 0 <= q < |pre|
      ensures !At(s, q, "bg_color")
    {
      if q < |head| {
        assert s[q] == head[q];
        NotAtByChar(s, q, "bg_color", 0);
      } else if q == |head| {
        assert s[q] == a[0] == 'f';
        NotAtByChar(s, q, "bg_color", 0);
      } else {
        var k := q + 2 - |head|;
        if k < |a| {
          assert s[q + 2] == a[k];
        } else if k < |a| + |ProgressIndent| {
          assert s[q + 2] == ProgressIndent[k - |a|];
        } else {
          assert s[q + 2] == b[k - |a| - |ProgressIndent|];
        }
        NotAtByChar(s, q, "bg_color", 2);
      }
    }
    ColorTextLacks(bg);
    AttrValueWritten(pre, "bg_color", bg, post);
  }

  /** The progress bar body gives back its foreground colour. */
  lemma ProgressForeground(color: string, bg: string)
    requires ColorText(color)
    ensures AttrValue(ProgressBody(color, bg), "fg_color") == Some(color)
  {
    ProgressHeadLacksC();
    ForegroundReadBack(ProgressHead, color,
      ProgressIndent + (QuotedAttr("bg_color", bg) + (ProgressIndent + (QuotedAttr("border_color", color) + ProgressTail))));
  }

  /** The progress bar body gives back its background colour. */
  lemma ProgressBackground(color: string, bg: string)
    requires ColorText(color) && ColorText(bg)
    ensures AttrValue(ProgressBody(color, bg), "bg_color") == Some(bg)
  {
    ProgressHeadLacksB();
    BackgroundReadBack(ProgressHead, color, bg, ProgressIndent + (QuotedAttr("border_color", color) + ProgressTail));
  }

  /** Coordinates hold no `o` and no line break. */
  lemma CoordTextLacks(v: string)
    requires IsCoordText(v)
    ensures 'o' !in v && '\n' !in v && '+' !in v && '}' !in v && ':' !in v
  {
  }

  /** `left` written after an indent is read back when a line break follows it. */
  lemma LeftReadBack(left: string, post: string)
    requires IsCoordText(left) && post != [] && post[0] == '\n'
    ensures FindCoord(MenuIndent + (BareAttr("left", left) + post), "left") == Some(left)
  {
    var s := MenuIndent + (BareAttr("left", left) + post);
    forall q | 0 <= q < |MenuIndent|
      ensures !At(s, q, "left")
    {
      assert s[q] == MenuIndent[q];
      NotAtByChar(s, q, "left", 0);
    }
    CoordWritten(MenuIndent, "left", left, post);
  }

  /** `top` written after a `left` attribute and an indent is read back. */
  lemma TopReadBack(left: string, top: string, post: string)
    requires IsCoordText(left) && IsCoordText(top) && post != [] && post[0] == '\n'
    ensures FindCoord(MenuIndent + (BareAttr("left", left) + (MenuIndent + (BareAttr("top", top) + post))), "top") == Some(top)
  {
    var a := BareAttr("left", left);
    var b := BareAttr("top", top);
    var s := MenuIndent + (a + (MenuIndent + (b + post)));
    var pre := MenuIndent + (a + MenuIndent);
    Assoc(a, MenuIndent, b + post);
    Assoc(MenuIndent, a + MenuIndent, b + post);
    assert s == pre + (b + post);
    CoordTextLacks(left);
    forall q | 0 <= q < |pre|
      ensures !At(s, q, "top")
    {
      var k := q + 1;
      if k < |MenuIndent| {
        assert s[k] == MenuIndent[k];
      } else if k < |MenuIndent| + |a| {
        assert s[k] == a[k - |MenuIndent|];
      } else if k < |pre| {
        assert s[k] == MenuIndent[k - |MenuIndent| - |a|];
      } else {
        assert s[k] == b[0];
      }
      NotAtByChar(s, q, "top", 1);
    }
    CoordWritten(pre, "top", top, post);
  }

  /** The boot menu body gives back its coordinates. */
  lemma BootMenuCoords(left: string, top: string)
    requires IsCoordText(left) && IsCoordText(top)
    ensures FindCoord(BootMenuBody(left, top), "left") == Some(left)
    ensures FindCoord(BootMenuBody(left, top), "top") == Some(top)
  {
    LeftReadBack(left, MenuIndent + (BareAttr("top", top) + BootMenuTail));
    TopReadBack(left, top, BootMenuTail);
  }

  // ---------------------------------------------------------------------------
  // The characters of the appended blocks
  // ---------------------------------------------------------------------------

  /** A written attribute holds a character only if its name or its value does, or it is one
      of the separator characters. */
  lemma QuotedAttrLacks(name: string, value: string, c: char)
    requires c !in name && c !in value && c != ' ' && c != '=' && c != '"'
    ensures c !in QuotedAttr(name, value)
  {
  }

  lemma BareAttrLacks(name: string, value: string, c: char)
    requires c !in name && c !in value && c != ' ' && c != '='
    ensures c !in BareAttr(name, value)
  {
  }

  lemma AttrNamesLack()
    ensures '+' !in "fg_color" && '}' !in "fg_color" && ':' !in "fg_color"
    ensures '+' !in "bg_color" && '}' !in "bg_color" && ':' !in "bg_color"
    ensures '+' !in "border_color" && '}' !in "border_color" && ':' !in "border_color"
  {
  }

  /** The progress bar body holds no `+`, no `}` and no `:`. */
  lemma ProgressBodyLacks(color: string, bg: string)
    requires ColorText(color) && ColorText(bg)
    ensures '+' !in ProgressBody(color, bg) && '}' !in ProgressBody(color, bg) && ':' !in ProgressBody(color, bg)
  {
    ColorTextLacks(color);
    ColorTextLacks(bg);
    AttrNamesLack();
    ProgressHeadLacksPlus();
    ProgressHeadLacksBrace();
    ProgressHeadLacksColon();
    ProgressTailLacksPlus();
    ProgressTailLacksBrace();
    ProgressTailLacksColon();
    QuotedAttrLacks("fg_color", color, '+');
    QuotedAttrLacks("fg_color", color, '}');
    QuotedAttrLacks("fg_color", color, ':');
    QuotedAttrLacks("bg_color", bg, '+');
    QuotedAttrLacks("bg_color", bg, '}');
    QuotedAttrLacks("bg_color", bg, ':');
    QuotedAttrLacks("border_color", color, '+');
    QuotedAttrLacks("border_color", color, '}');
    QuotedAttrLacks("border_color", color, ':');
  }

  lemma NamesLackColon()
    ensures ':' !in Opener(NameText(ProgressBar)) && ':' !in Opener(NameText(BootMenu))
  {
  }

  /** The boot menu body holds no `}` and no `:`. */
  lemma BootMenuBodyLacks(left: string, top: string)
    requires IsCoordText(left) && IsCoordText(top)
    ensures '}' !in BootMenuBody(left, top) && ':' !in BootMenuBody(left, top)
  {
    CoordTextLacks(left);
    CoordTextLacks(top);
    BareAttrLacks("left", left, '}');
    BareAttrLacks("left", left, ':');
    BareAttrLacks("top", top, '}');
    BareAttrLacks("top", top, ':');
    assert '}' !in BootMenuTail && ':' !in BootMenuTail;
  }

  // ---------------------------------------------------------------------------
  // The block passes of parse_theme on the saved text
  // ---------------------------------------------------------------------------

  lemma Regroup(a: string, b: string, c: string, d: string, e: string, f: string)
    ensures (a + (b + (c + (d + e)))) + f == (a + b) + (c + (d + (e + f)))
  {
  }

  lemma RegroupAround(a: string, b: string, c: string, d: string, e: string, f: string, y: string)
    ensures (a + (b + (c + (d + e)))) + (f + y) == (a + b) + (c + ((d + (e + f)) + y))
  {
  }

  /** A progress bar block with the written body yields its two colours and the bar style. */
  lemma ProgressPassOf(s: string, props: Properties, color: string, bg: string, m: Block)
    requires FindBlock(s, ProgressBar) == Some(m) && Body(s, m) == ProgressBody(color, bg)
    requires ColorText(color) && ColorText(bg)
    ensures ProgressPass(s, props) == props["progress-color" := color]["progress-bg-color" := bg]["progress-style" := "bar"]
  {
    ProgressForeground(color, bg);
    ProgressBackground(color, bg);
    ProgressPassFound(s, props, m, Some(color), Some(bg));
  }

  /** A boot menu block with the written body yields the position of its coordinates, if any. */
  lemma PositionPassOf(s: string, props: Properties, left: string, top: string, m: Block)
    requires FindBlock(s, BootMenu) == Some(m) && Body(s, m) == BootMenuBody(left, top)
    requires IsCoordText(left) && IsCoordText(top)
    ensures PositionPass(s, props) == match PositionFor(left, top)
      case Some(name) => props["menu-position" := name]
      case None => props
  {
    BootMenuCoords(left, top);
    PositionPassFound(s, props, m, left, top);
  }

  /** Text with no `{` followed by the rebuilt progress bar block: the block passes read the two
      colours and the bar style, and no boot menu. */
  lemma SavedProgressBar(kept: string, color: string, bg: string, props: Properties)
    requires '{' !in kept && ColorText(color) && ColorText(bg)
    ensures ProgressPass(kept + ProgressBlock(color, bg), props)
      == props["progress-color" := color]["progress-bg-color" := bg]["progress-style" := "bar"]
    ensures PositionPass(kept + ProgressBlock(color, bg), props) == props
    ensures !HasOpener(kept + ProgressBlock(color, bg), BootMenu)
    ensures ':' !in ProgressBlock(color, bg)
  {
    var body := ProgressBody(color, bg);
    var o := Opener(NameText(ProgressBar));
    var pre := kept + "\n";
    var s := kept + ProgressBlock(color, bg);
    Assoc(kept, "\n", o + (body + "}\n"));
    assert s == pre + (o + (body + "}\n"));
    assert '{' !in pre;
    ProgressBodyLacks(color, bg);
    ProgressBlockLacks(color, bg);
    FirstBlockWritten(pre, ProgressBar, body, "}\n");
    var m := FindBlock(s, ProgressBar).value;
    ProgressPassOf(s, props, color, bg, m);
    NoBlockWritten(pre, ProgressBar, body + "}\n", BootMenu);
    PositionPassNone(s, props);
  }

  /** The rebuilt progress bar block holds no `:`, and no `+` after its opener. */
  lemma ProgressBlockLacks(color: string, bg: string)
    requires ColorText(color) && ColorText(bg)
    ensures ':' !in ProgressBlock(color, bg) && '+' !in ProgressBody(color, bg) + "}\n"
    ensures '+' !in ProgressBody(color, bg) + ("}\n" + "\n")
  {
    ProgressBodyLacks(color, bg);
    NamesLackColon();
  }

  /** The new boot menu block holds no `:`. */
  lemma NewBootMenuLacks(left: string, top: string)
    requires IsCoordText(left) && IsCoordText(top)
    ensures ':' !in NewBootMenu(left, top)
  {
    BootMenuBodyLacks(left, top);
    NamesLackColon();
  }

  /** Text with no `{` and a line break after it holds no `{`. */
  lemma LineLacksBrace(kept: string)
    requires '{' !in kept
    ensures '{' !in kept + "\n"
  {
  }

  /** The same text followed by a new boot menu block: the block passes also read the position
      of its coordinates. */
  lemma SavedBootMenu(kept: string, color: string, bg: string, left: string, top: string, props: Properties)
    requires '{' !in kept && ColorText(color) && ColorText(bg) && IsCoordText(left) && IsCoordText(top)
    ensures ProgressPass(kept + ProgressBlock(color, bg) + NewBootMenu(left, top), props)
      == props["progress-color" := color]["progress-bg-color" := bg]["progress-style" := "bar"]
    ensures PositionPass(kept + ProgressBlock(color, bg) + NewBootMenu(left, top), props)
      == match PositionFor(left, top)
         case Some(name) => props["menu-position" := name]
         case None => props
    ensures ':' !in NewBootMenu(left, top)
  {
    var body := ProgressBody(color, bg);
    var o := Opener(NameText(ProgressBar));
    var menu := BootMenuBody(left, top);
    var y := Opener(NameText(BootMenu)) + (menu + "}\n");
    var pre := kept + "\n";
    var s := kept + ProgressBlock(color, bg) + NewBootMenu(left, top);
    Regroup(kept, "\n", o, body, "}\n", NewBootMenu(left, top));
    LineLacksBrace(kept);
    ProgressBodyLacks(color, bg);
    ProgressBlockLacks(color, bg);
    BootMenuBodyLacks(left, top);
    NewBootMenuLacks(left, top);
    FirstBlockWritten(pre, ProgressBar, body, "}\n" + NewBootMenu(left, top));
    ProgressPassOf(s, props, color, bg, FindBlock(s, ProgressBar).value);
    RegroupAround(kept, "\n", o, body, "}\n", "\n", y);
    SecondBlockWritten(pre, ProgressBar, body + ("}\n" + "\n"), BootMenu, menu, "}\n");
    PositionPassOf(s, props, left, top, FindBlock(s, BootMenu).value);
  }
}
