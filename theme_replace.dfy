/**
  The boot menu substitution of `save_theme` around one block: every character outside a
  `boot_menu` block is copied, and the block is rewritten to the standard opener around its
  patched body.
*/
module ThemeReplace {
  import opened Wrappers
  import opened Text
  import opened ThemeSyntax
  import opened ThemeParser

  /** No block `name` starts at or after `i`. */
  predicate NoBlockFrom(s: string, name: BlockName, i: nat) {
    forall q :: i <= q < |s| ==> BlockAt(s, q, name).None?
  }

  /** Where no block starts, the substitution copies the text. */
  lemma {:induction false} ReplaceNothing(s: string, left: string, top: string, i: nat)
    requires i <= |s| && NoBlockFrom(s, BootMenu, i)
    ensures ReplaceBootMenusFrom(s, left, top, i) == s[i..]
    decreases |s| - i
  {
    if i < |s| {
      ReplaceStep(s, left, top, i);
      ReplaceNothing(s, left, top, i + 1);
      SliceCons(s, i, |s|);
      CopyStep(ReplaceBootMenusFrom(s, left, top, i), [s[i]], ReplaceBootMenusFrom(s, left, top, i + 1),
        s[i + 1..], "", s[i..]);
    }
  }

  /** Where no block starts, the substitution copies one character. */
  lemma ReplaceStep(s: string, left: string, top: string, i: nat)
    requires i < |s| && BlockAt(s, i, BootMenu).None?
    ensures ReplaceBootMenusFrom(s, left, top, i) == [s[i]] + ReplaceBootMenusFrom(s, left, top, i + 1)
  {
  }

  /** Where a block starts, the substitution writes the standard opener, the patched body and
      the closing brace, and goes on after the block. */
  lemma ReplaceUnfold(s: string, left: string, top: string, i: nat)
    requires i < |s| && BlockAt(s, i, BootMenu).Some?
    ensures var m := BlockAt(s, i, BootMenu).value;
      ReplaceBootMenusFrom(s, left, top, i) == ReplaceBlock(Body(s, m), left, top) + ReplaceBootMenusFrom(s, left, top, m.bodyEnd + 1)
  {
  }

  /** Before a `+` that no `{` precedes, no block starts, so the substitution copies the text
      up to that `+`. */
  lemma {:induction false} ReplaceCopies(s: string, left: string, top: string, i: nat, p: nat)
    requires i <= p < |s| && s[p] == '+'
    requires forall q :: i <= q < p ==> s[q] != '{'
    ensures ReplaceBootMenusFrom(s, left, top, i) == s[i..p] + ReplaceBootMenusFrom(s, left, top, p)
    decreases p - i
  {
    if i < p {
      NoMenuBeforePlus(s, i, p);
      ReplaceStep(s, left, top, i);
      ReplaceCopies(s, left, top, i + 1, p);
      SliceCons(s, i, p);
      CopyStep(ReplaceBootMenusFrom(s, left, top, i), [s[i]], ReplaceBootMenusFrom(s, left, top, i + 1),
        s[i + 1..p], ReplaceBootMenusFrom(s, left, top, p), s[i..p]);
    }
  }

  /** No `boot_menu` block starts before a `+` that no `{` precedes. */
  lemma NoMenuBeforePlus(s: string, i: nat, p: nat)
    requires i < p < |s| && s[p] == '+'
    requires forall q :: i <= q < p ==> s[q] != '{'
    ensures BlockAt(s, i, BootMenu).None?
  {
    NameTextPlain(BootMenu);
    NoOpenerBeforePlus(s, i, NameText(BootMenu), p);
  }

  /** One copied character in front of a copied stretch. */
  lemma CopyStep(ri: string, c: string, rn: string, mid: string, rp: string, copied: string)
    requires ri == c + rn && rn == mid + rp && copied == c + mid
    ensures ri == copied + rp
  {
    Assoc(c, mid, rp);
  }

  /** The text before the first `+`, when it holds no `{`, is copied in front of the rest of
      the substitution. */
  lemma ReplacePrefix(s: string, left: string, top: string, p: nat)
    requires p < |s| && s[p] == '+'
    requires forall q :: 0 <= q < p ==> s[q] != '{'
    ensures ReplaceBootMenusFrom(s, left, top, 0) == s[..p] + ReplaceBootMenusFrom(s, left, top, p)
  {
    ReplaceCopies(s, left, top, 0, p);
    assert s[0..p] == s[..p];
  }

  /** The substitution from a block with no block after it: the rewritten block, then the rest
      of the text unchanged. */
  lemma ReplaceLastBlock(s: string, left: string, top: string, p: nat)
    requires p < |s| && BlockAt(s, p, BootMenu).Some?
    requires NoBlockFrom(s, BootMenu, BlockAt(s, p, BootMenu).value.bodyEnd + 1)
    ensures var m := BlockAt(s, p, BootMenu).value;
      ReplaceBootMenusFrom(s, left, top, p)
      == Opener(NameText(BootMenu)) + (PatchBody(Body(s, m), left, top) + ("}" + s[m.bodyEnd + 1..]))
  {
    var m := BlockAt(s, p, BootMenu).value;
    var pb := PatchBody(Body(s, m), left, top);
    var post := s[m.bodyEnd + 1..];
    ReplaceUnfold(s, left, top, p);
    ReplaceNothing(s, left, top, m.bodyEnd + 1);
    Assoc(pb, "}", post);
    Assoc(Opener(NameText(BootMenu)), pb + "}", post);
  }

  /** Text whose only `boot_menu` block starts at `p`, with no `{` before it, comes out of the
      substitution with that block rewritten to the standard opener around the patched body, and
      everything before and after it unchanged. */
  lemma ReplaceOneBlock(s: string, left: string, top: string, p: nat)
    requires p < |s| && BlockAt(s, p, BootMenu).Some?
    requires forall q :: 0 <= q < p ==> s[q] != '{'
    requires NoBlockFrom(s, BootMenu, BlockAt(s, p, BootMenu).value.bodyEnd + 1)
    ensures var m := BlockAt(s, p, BootMenu).value;
      ReplaceBootMenusFrom(s, left, top, 0)
      == s[..p] + (Opener(NameText(BootMenu)) + (PatchBody(Body(s, m), left, top) + ("}" + s[m.bodyEnd + 1..])))
  {
    assert s[p] == '+';
    ReplacePrefix(s, left, top, p);
    ReplaceLastBlock(s, left, top, p);
  }
}
