/**
  Saving theme text that already has a `boot_menu` block: the position step patches that block in
  place, ahead of the rebuilt progress bar block, and the progress pass of `parse_theme` still
  reads the two colours and the bar style from the rebuilt block.
*/
module ThemePatched {
  import opened Wrappers
  import opened Text
  import opened Dicts
  import opened ThemeSchema
  import opened ThemeSyntax
  import opened ThemeParser
  import opened ThemeRoundTrip
  import opened ThemePatch
  import opened ThemeReload
  import opened ThemeReplace
  import opened ThemePlace
  import opened ThemeRebuild

  // ---------------------------------------------------------------------------
  // Openers in moved text
  // ---------------------------------------------------------------------------

  /** An opener in a moved text is the same opener, moved. */
  lemma OpenerMoved(s: string, t: string, d: nat, i: nat, n: string)
    requires Moved(s, t, d) && i < |s|
    ensures OpenerAt(t, d + i, n).Some? <==> OpenerAt(s, i, n).Some?
  {
    if s[i] == '+' {
      assert t[d + i] == '+';
      SpanMoved(s, t, d, i + 1, IsSpace);
      var j := Span(s, i + 1, IsSpace);
      AtMoved(s, t, d, j, n);
      if At(s, j, n) {
        SpanMoved(s, t, d, j + |n|, IsSpace);
        var k := Span(s, j + |n|, IsSpace);
        if k < |s| {
          assert t[d + k] == s[k];
        }
      }
    }
  }

  /** A tail of text with no opener for `n` has none either. */
  lemma TailLacksOpener(r: string, e: nat, name: BlockName)
    requires e <= |r| && !HasOpener(r, name)
    ensures !HasOpener(r[e..], name)
  {
    var n := NameText(name);
    var t := r[e..];
    if FindOpenerFrom(t, n, 0).Some? {
      var q := FindOpenerFrom(t, n, 0).value;
      TailMoved(r, e);
      OpenerMoved(t, r, e, q, n);
      FindOpenerReaches(r, n, 0, e + q);
    }
  }

  // ---------------------------------------------------------------------------
  // Where the boot menu block sits
  // ---------------------------------------------------------------------------

  /** The rebuilt block starts with a line break and a `+`. */
  lemma RebuiltStart(r: string, color: string, bg: string)
    ensures |r + ProgressBlock(color, bg)| > |r| + 1
    ensures (r + ProgressBlock(color, bg))[|r|] == '\n' && (r + ProgressBlock(color, bg))[|r| + 1] == '+'
  {
    NameTextPlain(ProgressBar);
    assert ProgressBlock(color, bg)[0] == '\n' && ProgressBlock(color, bg)[1] == '+';
  }

  /** A boot menu opener in the rebuilt text starts ahead of the rebuilt block. */
  lemma MenuOpenerInKept(r: string, color: string, bg: string, p: nat)
    requires ColorText(color) && ColorText(bg)
    requires OpenerAt(r + ProgressBlock(color, bg), p, NameText(BootMenu)).Some?
    ensures p < |r|
  {
    RebuiltStart(r, color, bg);
    if p == |r| + 1 {
      RebuiltNotBootMenu(r, color, bg);
    } else if p > |r| + 1 {
      RebuiltLacksPlus(r, color, bg, p);
    }
  }

  /** A character between a block's opener and its closing brace is in its body. */
  lemma BodyChar(s: string, m: Block, k: nat)
    requires ValidBlock(s, m) && m.bodyStart <= k < m.bodyEnd
    ensures s[k] in Body(s, m)
  {
    assert Body(s, m)[k - m.bodyStart] == s[k];
  }

  /** A boot menu block that opens ahead of a `+` has its brace at or before that `+`. */
  lemma MenuBraceBeforePlus(s: string, d: nat, p: nat, m: Block)
    requires d < |s| && s[d] == '+' && p < d
    requires BlockAt(s, p, BootMenu) == Some(m)
    ensures m.bodyStart <= d
  {
    NameTextPlain(BootMenu);
    if m.bodyStart - 1 > d {
      OpenerInterior(s, p, NameText(BootMenu), d);
    }
  }

  /** A block whose body holds no `+`, opening at or before a line break followed by a `+`,
      closes before that line break. */
  lemma BodyBeforeBreak(s: string, d: nat, m: Block)
    requires d + 1 < |s| && s[d] == '\n' && s[d + 1] == '+'
    requires ValidBlock(s, m) && m.bodyStart <= d + 1 && '+' !in Body(s, m)
    ensures m.bodyEnd < d
  {
    if m.bodyEnd >= d {
      BodyChar(s, m, d + 1);
      assert false;
    }
  }

  /** A boot menu block in the rebuilt text opens ahead of the rebuilt block's `+`. */
  lemma MenuOpensInKept(r: string, color: string, bg: string, p: nat, m: Block)
    requires ColorText(color) && ColorText(bg)
    requires BlockAt(r + ProgressBlock(color, bg), p, BootMenu) == Some(m)
    ensures p < |r| && m.bodyStart <= |r| + 1
  {
    RebuiltStart(r, color, bg);
    MenuOpenerInKept(r, color, bg, p);
    MenuBraceBeforePlus(r + ProgressBlock(color, bg), |r| + 1, p, m);
  }

  /** A boot menu block whose body holds no `+` lies wholly in the text ahead of the rebuilt
      progress bar block. */
  lemma MenuBeforeRebuilt(r: string, color: string, bg: string, p: nat, m: Block)
    requires ColorText(color) && ColorText(bg)
    requires BlockAt(r + ProgressBlock(color, bg), p, BootMenu) == Some(m)
    requires '+' !in Body(r + ProgressBlock(color, bg), m)
    ensures p < |r| && m.bodyEnd < |r|
  {
    RebuiltStart(r, color, bg);
    MenuOpensInKept(r, color, bg, p, m);
    BodyBeforeBreak(r + ProgressBlock(color, bg), |r|, m);
  }

  /** What follows a boot menu block that lies in `r` is the rest of `r` and the rebuilt block. */
  lemma AfterMenu(r: string, b: string, e: nat)
    requires e <= |r|
    ensures (r + b)[e..] == r[e..] + b
  {
  }

  // ---------------------------------------------------------------------------
  // Finding the rebuilt block after the patched one
  // ---------------------------------------------------------------------------

  /** The text ahead of the rebuilt block after patching: the part before the boot menu, the
      standard opener, the patched body with its brace, and the rest of the kept text. It holds
      no progress bar opener when the part before the menu holds no `{`, the patched body no `+`,
      and the rest no opener of its own. */
  lemma PatchedLacksOpener(pre: string, mid: string, t: string)
    requires '{' !in pre && '+' !in mid && !HasOpener(t, ProgressBar)
    ensures !HasOpener(pre + (Opener(NameText(BootMenu)) + (mid + t)), ProgressBar)
  {
    var n := NameText(ProgressBar);
    var o := Opener(NameText(BootMenu));
    var z := pre + (o + (mid + t));
    if HasOpener(z, ProgressBar) {
      var q := FindOpenerFrom(z, n, 0).value;
      if q < |pre| + |o| + |mid| {
        NameTextPlain(BootMenu);
        NameTextPlain(ProgressBar);
        NoOpenerThrough(pre, NameText(BootMenu), mid, n, t);
      } else {
        OpenerInTail(pre, o, mid, t, q, n);
        FindOpenerReaches(t, n, 0, q - (|pre| + |o| + |mid|));
      }
    }
  }

  /** An opener after the patched block is an opener in the rest of the kept text. */
  lemma OpenerInTail(pre: string, o: string, mid: string, t: string, q: nat, n: string)
    requires |pre| + |o| + |mid| <= q && OpenerAt(pre + (o + (mid + t)), q, n).Some?
    ensures q - (|pre| + |o| + |mid|) < |t| && OpenerAt(t, q - (|pre| + |o| + |mid|), n).Some?
  {
    var w := pre + (o + mid);
    Assoc(o, mid, t);
    Assoc(pre, o + mid, t);
    OpenerAfter(w, t, q - |w|, n);
  }

  /** An opener behind a prefix is an opener of the text after the prefix. */
  lemma OpenerAfter(w: string, t: string, i: nat, n: string)
    requires OpenerAt(w + t, |w| + i, n).Some?
    ensures i < |t| && OpenerAt(t, i, n).Some?
  {
    AppendMoved(w, t);
    OpenerMoved(t, w + t, |w|, i, n);
  }

  /** The patched body holds no `+` when the old body holds none. */
  lemma PatchedLacksPlus(body: string, left: string, top: string)
    requires '+' !in body && IsCoordText(left) && IsCoordText(top)
    ensures '+' !in PatchBody(body, left, top) + "}"
  {
    CoordTextLacks(left);
    CoordTextLacks(top);
    BareAttrLacks("left", left, '+');
    BareAttrLacks("top", top, '+');
    PatchBodyLacks(body, left, top, '+');
  }

  /** The patched text, regrouped as the text ahead of the rebuilt block followed by that block. */
  lemma RegroupPatched(pre: string, o: string, pb: string, t: string, b: string, tail: string)
    requires tail == t + b
    ensures pre + (o + (pb + ("}" + tail))) == pre + (o + ((pb + "}") + t)) + b
  {
    Assoc(pb, "}", t + b);
    Assoc(pb + "}", t, b);
    Assoc(o, (pb + "}") + t, b);
    Assoc(pre, o + ((pb + "}") + t), b);
  }

  /** The text ahead of the rebuilt block after patching the boot menu block at `p`. */
  function PatchedKept(s: string, r: string, left: string, top: string, p: nat, m: Block): string
    requires ValidBlock(s, m) && p <= |s| && m.bodyEnd < |r|
  {
    s[..p] + (Opener(NameText(BootMenu)) + ((PatchBody(Body(s, m), left, top) + "}") + r[m.bodyEnd + 1..]))
  }

  /** Patching the only boot menu block, which lies in the text `r` ahead of a final block `b`,
      rewrites the text `r` and leaves `b` at the end. */
  lemma PatchedShape(s: string, r: string, b: string, left: string, top: string, p: nat, m: Block)
    requires s == r + b && p < |r| && m.bodyEnd < |r|
    requires BlockAt(s, p, BootMenu) == Some(m) && NoBlockFrom(s, BootMenu, m.bodyEnd + 1)
    requires forall q :: 0 <= q < p ==> s[q] != '{'
    ensures ReplaceBootMenusFrom(s, left, top, 0) == PatchedKept(s, r, left, top, p, m) + b
  {
    ReplaceOneBlock(s, left, top, p);
    AfterMenu(r, b, m.bodyEnd + 1);
    RegroupPatched(s[..p], Opener(NameText(BootMenu)), PatchBody(Body(s, m), left, top), r[m.bodyEnd + 1..],
      b, s[m.bodyEnd + 1..]);
  }

  /** The patched kept text holds no progress bar opener. */
  lemma PatchedKeptLacksOpener(s: string, r: string, left: string, top: string, p: nat, m: Block)
    requires IsCoordText(left) && IsCoordText(top) && !HasOpener(r, ProgressBar)
    requires ValidBlock(s, m) && p <= |s| && m.bodyEnd < |r|
    requires (forall q :: 0 <= q < p ==> s[q] != '{') && '+' !in Body(s, m)
    ensures !HasOpener(PatchedKept(s, r, left, top, p, m), ProgressBar)
  {
    var pre := s[..p];
    assert '{' !in pre by {
      forall k | 0 <= k < |pre| ensures pre[k] != '{' {
        assert pre[k] == s[k];
      }
    }
    PatchedLacksPlus(Body(s, m), left, top);
    TailLacksOpener(r, m.bodyEnd + 1, ProgressBar);
    PatchedLacksOpener(pre, PatchBody(Body(s, m), left, top) + "}", r[m.bodyEnd + 1..]);
  }

  /** Patching the only boot menu block, which sits ahead of the rebuilt progress bar block,
      leaves the rebuilt block as the first progress bar block: the progress pass reads the two
      colours and the bar style. */
  lemma PatchedProgress(r: string, color: string, bg: string, left: string, top: string, p: nat, m: Block,
                        props: Properties)
    requires ColorText(color) && ColorText(bg) && IsCoordText(left) && IsCoordText(top)
    requires !HasOpener(r, ProgressBar)
    requires var s := r + ProgressBlock(color, bg);
      p < |s| && BlockAt(s, p, BootMenu) == Some(m) && NoBlockFrom(s, BootMenu, m.bodyEnd + 1)
      && (forall q :: 0 <= q < p ==> s[q] != '{') && '+' !in Body(s, m)
    ensures ProgressPass(ReplaceBootMenusFrom(r + ProgressBlock(color, bg), left, top, 0), props)
      == props["progress-color" := color]["progress-bg-color" := bg]["progress-style" := "bar"]
  {
    var out := ReplaceBootMenusFrom(r + ProgressBlock(color, bg), left, top, 0);
    MenuBeforeRebuilt(r, color, bg, p, m);
    PatchedShape(r + ProgressBlock(color, bg), r, ProgressBlock(color, bg), left, top, p, m);
    var z := PatchedKept(r + ProgressBlock(color, bg), r, left, top, p, m);
    PatchedKeptLacksOpener(r + ProgressBlock(color, bg), r, left, top, p, m);
    ProgressBodyLacks(color, bg);
    FirstBlockAfter(z, ProgressBar, ProgressBody(color, bg), "}\n");
    ProgressPassOf(out, props, color, bg, FindBlock(out, ProgressBar).value);
  }

  // ---------------------------------------------------------------------------
  // The saved text
  // ---------------------------------------------------------------------------

  /** Saving with a named position into text whose only boot menu block is the first block and
      holds no `+`: the boot menu is patched in place, and the progress pass on the saved text
      reads the data's colours (or their defaults) and the bar style. */
  lemma PatchedSavedProgress(kept: string, data: Dict<string>, props: Properties, p: nat, m: Block)
    requires Placed(data) && !HasOpener(RemoveBlocks(kept, ProgressBar), ProgressBar)
    requires ColorText(GetOr(data, "progress-color", "#fff")) && ColorText(GetOr(data, "progress-bg-color", "#000"))
    requires var s := WithProgressBar(kept, data);
      p < |s| && BlockAt(s, p, BootMenu) == Some(m) && NoBlockFrom(s, BootMenu, m.bodyEnd + 1)
      && (forall q :: 0 <= q < p ==> s[q] != '{') && '+' !in Body(s, m)
    ensures ProgressPass(SavedText(kept, data), props)
      == props["progress-color" := GetOr(data, "progress-color", "#fff")]
              ["progress-bg-color" := GetOr(data, "progress-bg-color", "#000")]["progress-style" := "bar"]
  {
    var s := WithProgressBar(kept, data);
    var name := Get(data, "menu-position").value;
    var c := CoordsOf(name).value;
    CoordsText(name);
    PlaceExisting(s, data, name, p, m);
    PatchedProgress(RemoveBlocks(kept, ProgressBar), GetOr(data, "progress-color", "#fff"),
      GetOr(data, "progress-bg-color", "#000"), c.left, c.top, p, m, props);
  }

  /** Text with no progress bar opener followed by the rebuilt block has exactly one, where
      the rebuilt block starts. */
  lemma OneOpenerAfter(z: string, color: string, bg: string, q: nat)
    requires !HasOpener(z, ProgressBar) && ColorText(color) && ColorText(bg)
    ensures OpenerAt(z + ProgressBlock(color, bg), q, NameText(ProgressBar)).Some? <==> q == |z| + 1
  {
    var n := NameText(ProgressBar);
    NameTextPlain(ProgressBar);
    if q == |z| + 1 {
      Assoc(z, "\n", Opener(n) + (ProgressBody(color, bg) + "}\n"));
      OpenerAtWritten(z + "\n", n, ProgressBody(color, bg) + "}\n");
    } else {
      RebuiltOpeners(z, color, bg, n, q);
    }
  }

  /** Patching the boot menu ahead of the rebuilt block leaves exactly one progress bar opener,
      where the rebuilt block starts. */
  lemma PatchedOneOpener(r: string, color: string, bg: string, left: string, top: string, p: nat, m: Block, q: nat)
    requires ColorText(color) && ColorText(bg) && IsCoordText(left) && IsCoordText(top)
    requires !HasOpener(r, ProgressBar)
    requires var s := r + ProgressBlock(color, bg);
      p < |s| && BlockAt(s, p, BootMenu) == Some(m) && NoBlockFrom(s, BootMenu, m.bodyEnd + 1)
      && (forall q :: 0 <= q < p ==> s[q] != '{') && '+' !in Body(s, m)
    ensures var out := ReplaceBootMenusFrom(r + ProgressBlock(color, bg), left, top, 0);
      OpenerAt(out, q, NameText(ProgressBar)).Some? <==> q == |out| - |ProgressBlock(color, bg)| + 1
  {
    MenuBeforeRebuilt(r, color, bg, p, m);
    PatchedShape(r + ProgressBlock(color, bg), r, ProgressBlock(color, bg), left, top, p, m);
    PatchedKeptLacksOpener(r + ProgressBlock(color, bg), r, left, top, p, m);
    OneOpenerAfter(PatchedKept(r + ProgressBlock(color, bg), r, left, top, p, m), color, bg, q);
  }

  /** Saving with a named position into text whose only boot menu block is the first block,
      holds no `+`, and has one `left` before one `top`: the saved text has exactly one progress
      bar opener, and parsing it reads back the data's colours, the bar style and the position. */
  lemma PatchedReadBack(kept: string, data: Dict<string>, props: Properties, name: string, p: nat, m: Block,
                        p1: nat, e1: nat, p2: nat, e2: nat)
    requires Get(data, "menu-position") == Some(name) && CoordsOf(name).Some?
    requires !HasOpener(RemoveBlocks(kept, ProgressBar), ProgressBar)
    requires ColorText(GetOr(data, "progress-color", "#fff")) && ColorText(GetOr(data, "progress-bg-color", "#000"))
    requires var s := WithProgressBar(kept, data);
      p < |s| && BlockAt(s, p, BootMenu) == Some(m) && NoBlockFrom(s, BootMenu, m.bodyEnd + 1)
      && (forall q :: 0 <= q < p ==> s[q] != '{') && '+' !in Body(s, m)
    requires var body := Body(WithProgressBar(kept, data), m);
      FindAttrFrom(body, "left", 0) == Some(p1) && e1 == AttrAt(body, p1, "left").value.end
      && FindAttrFrom(body, "left", e1).None?
      && FindAttrFrom(body, "top", 0) == Some(p2) && e1 <= p2 && e2 == AttrAt(body, p2, "top").value.end
      && FindAttrFrom(body, "top", e2).None?
      && !IsCoordChar(body[e1]) && (e2 == |body| || !IsCoordChar(body[e2]))
    ensures ProgressPass(SavedText(kept, data), props)
      == props["progress-color" := GetOr(data, "progress-color", "#fff")]
              ["progress-bg-color" := GetOr(data, "progress-bg-color", "#000")]["progress-style" := "bar"]
    ensures PositionPass(SavedText(kept, data), props) == props["menu-position" := name]
    ensures forall q ::
      OpenerAt(SavedText(kept, data), q, NameText(ProgressBar)).Some?
      <==> q == |SavedText(kept, data)| - |ProgressBlock(GetOr(data, "progress-color", "#fff"), GetOr(data, "progress-bg-color", "#000"))| + 1
  {
    var s := WithProgressBar(kept, data);
    var c := CoordsOf(name).value;
    CoordsText(name);
    PatchedSavedProgress(kept, data, props, p, m);
    PlacedRewritten(s, data, props, name, p, m, p1, e1, p2, e2);
    PlaceExisting(s, data, name, p, m);
    forall q
      ensures OpenerAt(SavedText(kept, data), q, NameText(ProgressBar)).Some?
        <==> q == |SavedText(kept, data)| - |ProgressBlock(GetOr(data, "progress-color", "#fff"), GetOr(data, "progress-bg-color", "#000"))| + 1
    {
      PatchedOneOpener(RemoveBlocks(kept, ProgressBar), GetOr(data, "progress-color", "#fff"),
        GetOr(data, "progress-bg-color", "#000"), c.left, c.top, p, m, q);
    }
  }
}
