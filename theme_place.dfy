/**
  Placing a position in theme text that already has a `boot_menu` block: the block substitution
  of `save_theme` patches that block's body and copies every other character, and the position
  pass of `parse_theme` then reads back the position that was placed.
*/
module ThemePlace {
  import opened Wrappers
  import opened Text
  import opened Dicts
  import opened ThemeSchema
  import opened ThemeSyntax
  import opened ThemeParser
  import opened ThemeRoundTrip
  import opened ThemePatch
  import opened ThemeReload
  import opened ThemeReplace

  /** The opener search finds something when an opener starts at `p`. */
  lemma {:induction false} FindOpenerReaches(s: string, n: string, i: nat, p: nat)
    requires i <= p < |s| && OpenerAt(s, p, n).Some?
    ensures FindOpenerFrom(s, n, i).Some?
    decreases p - i
  {
    if i < p && OpenerAt(s, i, n).None? {
      FindOpenerReaches(s, n, i + 1, p);
    }
  }

  // ---------------------------------------------------------------------------
  // Finding the patched block
  // ---------------------------------------------------------------------------

  /** The substitution holds a character only if the text from `i` or the replacement does. */
  lemma {:induction false} SubAttrLacks(s: string, name: string, repl: string, i: nat, c: char)
    requires i <= |s| && c !in repl
    requires forall q :: i <= q < |s| ==> s[q] != c
    ensures c !in SubAttrFrom(s, name, repl, i)
    decreases |s| - i
  {
    if i < |s| {
      match AttrAt(s, i, name)
      case Some(a) =>
        SubAttrLacks(s, name, repl, a.end, c);
      case None =>
        SubAttrLacks(s, name, repl, i + 1, c);
    }
  }

  /** The patched body holds a character only if the old body, the indent or one of the two
      rewritten attributes does. */
  lemma PatchBodyLacks(body: string, left: string, top: string, c: char)
    requires c !in body && c !in MenuIndent
    requires c !in BareAttr("left", left) && c !in BareAttr("top", top)
    ensures c !in PatchBody(body, left, top)
  {
    var withLeft :=
      if FindAttrFrom(body, "left", 0).Some? then SubAttr(body, "left", BareAttr("left", left))
      else body + MenuIndent + BareAttr("left", left);
    if FindAttrFrom(body, "left", 0).Some? {
      SubAttrLacks(body, "left", BareAttr("left", left), 0, c);
    }
    assert c !in withLeft;
    if FindAttrFrom(withLeft, "top", 0).Some? {
      SubAttrLacks(withLeft, "top", BareAttr("top", top), 0, c);
    }
  }

  /** A block's body holds no `}`. */
  lemma BodyLacksBrace(s: string, p: nat, m: Block)
    requires BlockAt(s, p, BootMenu) == Some(m)
    ensures '}' !in Body(s, m)
  {
    forall k | m.bodyStart <= k < m.bodyEnd
      ensures s[k] != '}'
    {
      BlockBodyFacts(s, p, BootMenu, k);
    }
    assert forall k :: 0 <= k < |Body(s, m)| ==> Body(s, m)[k] == s[m.bodyStart + k];
  }

  /** Patching coordinate text leaves the body free of `}`. */
  lemma PatchedLacksBrace(s: string, p: nat, m: Block, left: string, top: string)
    requires BlockAt(s, p, BootMenu) == Some(m)
    requires IsCoordText(left) && IsCoordText(top)
    ensures '}' !in PatchBody(Body(s, m), left, top)
  {
    BodyLacksBrace(s, p, m);
    CoordTextLacks(left);
    CoordTextLacks(top);
    BareAttrLacks("left", left, '}');
    BareAttrLacks("top", top, '}');
    PatchBodyLacks(Body(s, m), left, top, '}');
  }

  /** After the substitution, the block search finds the rewritten block, and its body is the
      patched body. */
  lemma PatchedBlockFound(s: string, left: string, top: string, p: nat, m: Block)
    requires p < |s| && BlockAt(s, p, BootMenu) == Some(m)
    requires forall q :: 0 <= q < p ==> s[q] != '{'
    requires NoBlockFrom(s, BootMenu, m.bodyEnd + 1)
    requires IsCoordText(left) && IsCoordText(top)
    ensures var out := ReplaceBootMenusFrom(s, left, top, 0);
      FindBlock(out, BootMenu).Some? && Body(out, FindBlock(out, BootMenu).value) == PatchBody(Body(s, m), left, top)
  {
    var pb := PatchBody(Body(s, m), left, top);
    ReplaceOneBlock(s, left, top, p);
    PatchedLacksBrace(s, p, m, left, top);
    assert '{' !in s[..p];
    FirstBlockWritten(s[..p], BootMenu, pb, "}" + s[m.bodyEnd + 1..]);
  }

  // ---------------------------------------------------------------------------
  // Reading the placed position back
  // ---------------------------------------------------------------------------

  /** The position step patches the existing block with the coordinates of the named position. */
  lemma PlaceExisting(s: string, data: Dict<string>, name: string, p: nat, m: Block)
    requires Get(data, "menu-position") == Some(name) && CoordsOf(name).Some?
    requires p < |s| && BlockAt(s, p, BootMenu) == Some(m)
    ensures var c := CoordsOf(name).value;
      PlaceBootMenu(s, data) == ReplaceBootMenusFrom(s, c.left, c.top, 0)
  {
    BlockAtOpener(s, p, BootMenu);
    FindOpenerReaches(s, NameText(BootMenu), 0, p);
  }

  /** When the patched body reads back the coordinates of the named position, the position
      pass on the placed text records that name. */
  lemma PositionOfPlaced(s: string, data: Dict<string>, props: Properties, name: string, p: nat, m: Block)
    requires Get(data, "menu-position") == Some(name) && CoordsOf(name).Some?
    requires p < |s| && BlockAt(s, p, BootMenu) == Some(m)
    requires forall q :: 0 <= q < p ==> s[q] != '{'
    requires NoBlockFrom(s, BootMenu, m.bodyEnd + 1)
    requires var c := CoordsOf(name).value;
      FindCoord(PatchBody(Body(s, m), c.left, c.top), "left") == Some(c.left)
      && FindCoord(PatchBody(Body(s, m), c.left, c.top), "top") == Some(c.top)
    ensures PositionPass(PlaceBootMenu(s, data), props) == props["menu-position" := name]
  {
    var c := CoordsOf(name).value;
    var out := ReplaceBootMenusFrom(s, c.left, c.top, 0);
    CoordsText(name);
    PlaceExisting(s, data, name, p, m);
    PatchedBlockFound(s, c.left, c.top, p, m);
    PositionPassFound(out, props, FindBlock(out, BootMenu).value, c.left, c.top);
    PositionRoundTrip(name, c.left, c.top);
  }

  /** A block with neither `left` nor `top`: the placed position is read back. */
  lemma PlacedAppended(s: string, data: Dict<string>, props: Properties, name: string, p: nat, m: Block)
    requires Get(data, "menu-position") == Some(name) && CoordsOf(name).Some?
    requires p < |s| && BlockAt(s, p, BootMenu) == Some(m)
    requires forall q :: 0 <= q < p ==> s[q] != '{'
    requires NoBlockFrom(s, BootMenu, m.bodyEnd + 1)
    requires FindAttrFrom(Body(s, m), "left", 0).None? && FindAttrFrom(Body(s, m), "top", 0).None?
    ensures PositionPass(PlaceBootMenu(s, data), props) == props["menu-position" := name]
  {
    var c := CoordsOf(name).value;
    CoordsText(name);
    PatchAppends(Body(s, m), c.left, c.top);
    PositionOfPlaced(s, data, props, name, p, m);
  }

  /** A block with one `left` followed by one `top`, neither followed by a digit or `%`: the
      placed position is read back. */
  lemma PlacedRewritten(s: string, data: Dict<string>, props: Properties, name: string, p: nat, m: Block,
                        p1: nat, e1: nat, p2: nat, e2: nat)
    requires Get(data, "menu-position") == Some(name) && CoordsOf(name).Some?
    requires p < |s| && BlockAt(s, p, BootMenu) == Some(m)
    requires forall q :: 0 <= q < p ==> s[q] != '{'
    requires NoBlockFrom(s, BootMenu, m.bodyEnd + 1)
    requires FindAttrFrom(Body(s, m), "left", 0) == Some(p1) && e1 == AttrAt(Body(s, m), p1, "left").value.end
    requires FindAttrFrom(Body(s, m), "left", e1).None?
    requires FindAttrFrom(Body(s, m), "top", 0) == Some(p2) && e1 <= p2 && e2 == AttrAt(Body(s, m), p2, "top").value.end
    requires FindAttrFrom(Body(s, m), "top", e2).None?
    requires !IsCoordChar(Body(s, m)[e1]) && (e2 == |Body(s, m)| || !IsCoordChar(Body(s, m)[e2]))
    ensures PositionPass(PlaceBootMenu(s, data), props) == props["menu-position" := name]
  {
    var c := CoordsOf(name).value;
    CoordsText(name);
    PatchRewrites(Body(s, m), c.left, c.top, p1, e1, p2, e2);
    PositionOfPlaced(s, data, props, name, p, m);
  }
}
