/**
  Patching an existing `boot_menu` block: `replace_block` rewrites the block's `left` and `top`
  attributes in place, or appends the ones the block lacks, and leaves the rest of the body as it
  was; the patched body gives back the coordinates it was patched with.
*/
module ThemePatch {
  import opened Wrappers
  import opened Text
  import opened ThemeSyntax
  import opened ThemeParser
  import opened ThemeRoundTrip

  // ---------------------------------------------------------------------------
  // Matches behind a prefix
  // ---------------------------------------------------------------------------

  function ShiftPos(r: Option<nat>, d: nat): Option<nat> {
    match r
    case None => None
    case Some(p) => Some(p + d)
  }

  function ShiftAttr(r: Option<Attr>, d: nat): Option<Attr> {
    match r
    case None => None
    case Some(a) => Some(Attr(a.valueStart + d, a.valueEnd + d, a.end + d))
  }

  /** `t` holds `s` from position `d` on, and nothing after it. */
  ghost predicate Moved(s: string, t: string, d: nat) {
    |t| == d + |s| && forall m :: 0 <= m < |s| ==> t[d + m] == s[m]
  }

  /** A text behind a prefix is that text moved by the prefix's length. */
  lemma AppendMoved(pre: string, s: string)
    ensures Moved(s, pre + s, |pre|)
  {
    forall m | 0 <= m < |s| ensures (pre + s)[|pre| + m] == s[m] {
    }
  }

  /** A run in a moved text is the same run, moved. */
  lemma {:induction false} SpanMoved(s: string, t: string, d: nat, i: nat, P: char -> bool)
    requires Moved(s, t, d) && i <= |s|
    ensures Span(t, d + i, P) == d + Span(s, i, P)
    decreases |s| - i
  {
    if i < |s| && P(s[i]) {
      SpanMoved(s, t, d, i + 1, P);
    }
  }

  lemma AtMoved(s: string, t: string, d: nat, i: nat, name: string)
    requires Moved(s, t, d)
    ensures At(t, d + i, name) <==> At(s, i, name)
  {
    if i + |name| <= |s| {
      assert t[d + i..d + i + |name|] == s[i..i + |name|];
    }
  }

  /** `NAME\s*=` in a moved text matches where it matches in the original, moved. */
  lemma EqualsAtMoved(s: string, t: string, d: nat, i: nat, name: string)
    requires Moved(s, t, d)
    ensures EqualsAt(t, d + i, name) == ShiftPos(EqualsAt(s, i, name), d)
  {
    AtMoved(s, t, d, i, name);
    if At(s, i, name) {
      SpanMoved(s, t, d, i + |name|, IsSpace);
    }
  }

  lemma ValueMoved(s: string, t: string, d: nat, j: nat)
    requires Moved(s, t, d) && j < |s|
    ensures ValueStart(t, d + j) == d + ValueStart(s, j)
    ensures Span(t, d + ValueStart(s, j), IsValueChar) == d + Span(s, ValueStart(s, j), IsValueChar)
    ensures ValueClose(t, d + Span(s, ValueStart(s, j), IsValueChar))
      == d + ValueClose(s, Span(s, ValueStart(s, j), IsValueChar))
  {
    SpanMoved(s, t, d, j + 1, IsSpace);
    SpanMoved(s, t, d, ValueStart(s, j), IsValueChar);
  }

  /** The attribute pattern in a moved text matches where it matches in the original, moved. */
  lemma AttrAtMoved(s: string, t: string, d: nat, i: nat, name: string)
    requires Moved(s, t, d)
    ensures AttrAt(t, d + i, name) == ShiftAttr(AttrAt(s, i, name), d)
  {
    EqualsAtMoved(s, t, d, i, name);
    if EqualsAt(s, i, name).Some? {
      ValueMoved(s, t, d, EqualsAt(s, i, name).value);
    }
  }

  // ---------------------------------------------------------------------------
  // Where `NAME\s*=` can match
  // ---------------------------------------------------------------------------

  /** Whether `NAME\s*=` matches at `q` is decided by the text up to the first non-blank after
      the name: two texts that agree up to a non-blank at `p`, which no later letter of the name
      equals, match alike at `q`. */
  lemma EqualsAtLocal(s: string, t: string, q: nat, p: nat, name: string)
    requires q < p < |s| && p < |t|
    requires forall k :: q <= k <= p ==> s[k] == t[k]
    requires !IsSpace(s[p]) && forall d :: 0 < d < |name| ==> name[d] != s[p]
    ensures EqualsAt(s, q, name) == EqualsAt(t, q, name)
  {
    if q + |name| <= p {
      assert s[q..q + |name|] == t[q..q + |name|];
      if At(s, q, name) {
        var j := Span(s, q + |name|, IsSpace);
        SpanFacts(s, q + |name|, IsSpace);
        assert j <= p;
        SpanUnique(t, q + |name|, IsSpace, j);
      }
    } else {
      NotAtByChar(s, q, name, p - q);
      NotAtByChar(t, q, name, p - q);
    }
  }

  /** Appending blanks and then a character that is neither a blank nor `=` starts no
      `NAME\s*=` match inside the original text, when the first appended blank is not in the
      name. */
  lemma EqualsAtExtend(s: string, w: string, v: string, q: nat, name: string)
    requires q <= |s| && EqualsAt(s, q, name).None?
    requires w != [] && forall k :: 0 <= k < |w| ==> IsSpace(w[k])
    requires forall d :: 0 <= d < |name| ==> name[d] != w[0]
    requires v != [] && !IsSpace(v[0]) && v[0] != '='
    ensures EqualsAt(s + (w + v), q, name).None?
  {
    var u := s + (w + v);
    if q + |name| > |s| {
      assert u[|s|] == w[0];
      NotAtByChar(u, q, name, |s| - q);
    } else {
      assert u[q..q + |name|] == s[q..q + |name|];
      if At(s, q, name) {
        var j := Span(s, q + |name|, IsSpace);
        SpanFacts(s, q + |name|, IsSpace);
        if j < |s| {
          assert u[j] == s[j];
          SpanUnique(u, q + |name|, IsSpace, j);
        } else {
          assert u[|s| + |w|] == v[0];
          SpanUnique(u, q + |name|, IsSpace, |s| + |w|);
        }
      }
    }
  }

  // ---------------------------------------------------------------------------
  // The leftmost match
  // ---------------------------------------------------------------------------

  /** A failed search means no `NAME\s*=` match from `i` on. */
  lemma {:induction false} FindAttrNone(s: string, name: string, i: nat, q: nat)
    requires i <= q <= |s| && FindAttrFrom(s, name, i).None?
    ensures EqualsAt(s, q, name).None?
    decreases q - i
  {
    if i < q {
      FindAttrNone(s, name, i + 1, q);
    }
  }

  /** Conversely, the search fails when no `NAME\s*=` match starts from `i` on. */
  lemma {:induction false} FindAttrNothing(s: string, name: string, i: nat)
    requires i <= |s| && forall q :: i <= q <= |s| ==> EqualsAt(s, q, name).None?
    ensures FindAttrFrom(s, name, i).None?
    decreases |s| - i
  {
    if i < |s| {
      FindAttrNothing(s, name, i + 1);
    }
  }

  /** No `NAME\s*=` match starts before the one the search finds. */
  lemma {:induction false} FindAttrBefore(s: string, name: string, i: nat, p: nat, q: nat)
    requires i <= |s| && FindAttrFrom(s, name, i) == Some(p) && i <= q < p
    ensures EqualsAt(s, q, name).None?
    decreases q - i
  {
    if i < q {
      FindAttrBefore(s, name, i + 1, p, q);
    }
  }

  /** The search finds the first position where `NAME\s*=` matches. */
  lemma {:induction false} FindAttrFirst(s: string, name: string, i: nat, p: nat)
    requires i <= p <= |s| && EqualsAt(s, p, name).Some?
    requires forall q :: i <= q < p ==> EqualsAt(s, q, name).None?
    ensures FindAttrFrom(s, name, i) == Some(p)
    decreases p - i
  {
    if i < p {
      FindAttrFirst(s, name, i + 1, p);
    }
  }

  /** The coordinate search finds a coordinate at the first position where `NAME\s*=` matches. */
  lemma {:induction false} FindCoordFirst(s: string, name: string, i: nat, p: nat)
    requires i <= p <= |s| && CoordAt(s, p, name).Some?
    requires forall q :: i <= q < p ==> EqualsAt(s, q, name).None?
    ensures FindCoordFrom(s, name, i) == Some(p)
    decreases p - i
  {
    if i < p {
      FindCoordFirst(s, name, i + 1, p);
    }
  }

  // ---------------------------------------------------------------------------
  // re.sub of one attribute
  // ---------------------------------------------------------------------------

  /** Without a match, the substitution leaves the text alone. */
  lemma {:induction false} SubAttrNone(s: string, name: string, repl: string, i: nat)
    requires i <= |s| && FindAttrFrom(s, name, i).None?
    ensures SubAttrFrom(s, name, repl, i) == s[i..]
    decreases |s| - i
  {
    if i < |s| {
      SubAttrNone(s, name, repl, i + 1);
      assert s[i..] == [s[i]] + s[i + 1..];
    }
  }

  /** The substitution keeps the text before the leftmost match, replaces the match and goes on
      after it. */
  lemma {:induction false} SubAttrFirst(s: string, name: string, repl: string, i: nat, p: nat)
    requires i <= |s| && FindAttrFrom(s, name, i) == Some(p)
    ensures p < |s|
    ensures SubAttrFrom(s, name, repl, i) == s[i..p] + (repl + SubAttrFrom(s, name, repl, AttrAt(s, p, name).value.end))
    decreases |s| - i
  {
    if i == p {
      assert s[i..p] == [];
    } else {
      assert AttrAt(s, i, name).None? && i < |s|;
      SubAttrFirst(s, name, repl, i + 1, p);
      var rest := repl + SubAttrFrom(s, name, repl, AttrAt(s, p, name).value.end);
      SliceCons(s, i, p);
      Assoc([s[i]], s[i + 1..p], rest);
    }
  }


  /** With one match only, the substitution replaces exactly that match. */
  lemma SubAttrOnce(s: string, name: string, repl: string, p: nat)
    requires FindAttrFrom(s, name, 0) == Some(p)
    requires FindAttrFrom(s, name, AttrAt(s, p, name).value.end).None?
    ensures p < |s|
    ensures SubAttr(s, name, repl) == s[..p] + (repl + s[AttrAt(s, p, name).value.end..])
  {
    SubAttrFirst(s, name, repl, 0, p);
    SubAttrNone(s, name, repl, AttrAt(s, p, name).value.end);
    assert s[0..p] == s[..p];
  }

  // ---------------------------------------------------------------------------
  // replace_block when the block has neither attribute
  // ---------------------------------------------------------------------------

  /** A coordinate appended on a new indented line to a text without its attribute is the one
      the coordinate search reads. */
  lemma AppendedCoord(s: string, name: string, value: string, post: string)
    requires name == "left" || name == "top"
    requires FindAttrFrom(s, name, 0).None? && IsCoordText(value)
    requires post == [] || post[0] == '\n'
    ensures FindCoord(s + (MenuIndent + (BareAttr(name, value) + post)), name) == Some(value)
  {
    var v := BareAttr(name, value) + post;
    var u := s + (MenuIndent + v);
    var p := |s| + |MenuIndent|;
    assert v[0] == name[0];
    forall q | 0 <= q < p
      ensures EqualsAt(u, q, name).None?
    {
      if q <= |s| {
        FindAttrNone(s, name, 0, q);
        EqualsAtExtend(s, MenuIndent, v, q, name);
      } else {
        assert u[q] == MenuIndent[q - |s|];
        NotAtByChar(u, q, name, 0);
      }
    }
    Assoc(s, MenuIndent, v);
    CoordAtWritten(s + MenuIndent, name, value, post);
    FindCoordFirst(u, name, 0, p);
  }

  /** Appending `left` to a text without `top` adds no `top` either. */
  lemma AppendedLeftKeepsNoTop(s: string, left: string)
    requires FindAttrFrom(s, "top", 0).None? && IsCoordText(left)
    ensures FindAttrFrom(s + MenuIndent + BareAttr("left", left), "top", 0).None?
  {
    var v := BareAttr("left", left);
    var u := s + MenuIndent + v;
    Assoc(s, MenuIndent, v);
    CoordTextLacks(left);
    BareAttrLacks("left", left, 'o');
    forall q | 0 <= q <= |u|
      ensures EqualsAt(u, q, "top").None?
    {
      if q <= |s| {
        FindAttrNone(s, "top", 0, q);
        EqualsAtExtend(s, MenuIndent, v, q, "top");
      } else {
        var k := q + 1;
        if k < |u| {
          if k < |s| + |MenuIndent| {
            assert u[k] == MenuIndent[k - |s|];
          } else {
            assert u[k] == v[k - |s| - |MenuIndent|];
          }
        }
        NotAtByChar(u, q, "top", 1);
      }
    }
    FindAttrNothing(u, "top", 0);
  }

  /** A block body with neither `left` nor `top` gets both appended, each on its own indented
      line after the body, and reads back the coordinates it was patched with. */
  lemma PatchAppends(body: string, left: string, top: string)
    requires FindAttrFrom(body, "left", 0).None? && FindAttrFrom(body, "top", 0).None?
    requires IsCoordText(left) && IsCoordText(top)
    ensures PatchBody(body, left, top)
      == body + (MenuIndent + (BareAttr("left", left) + (MenuIndent + BareAttr("top", top))))
    ensures FindCoord(PatchBody(body, left, top), "left") == Some(left)
    ensures FindCoord(PatchBody(body, left, top), "top") == Some(top)
  {
    var rl := BareAttr("left", left);
    var rt := BareAttr("top", top);
    var withLeft := body + MenuIndent + rl;
    AppendedLeftKeepsNoTop(body, left);
    assert PatchBody(body, left, top) == withLeft + MenuIndent + rt;
    Assoc(withLeft, MenuIndent, rt);
    assert rt + [] == rt;
    AppendedCoord(withLeft, "top", top, []);
    Assoc(body, MenuIndent, rl);
    Assoc(rl, MenuIndent, rt);
    Assoc(body + MenuIndent, rl, MenuIndent + rt);
    Assoc(body, MenuIndent, rl + (MenuIndent + rt));
    AppendedCoord(body, "left", left, MenuIndent + rt);
  }

  // ---------------------------------------------------------------------------
  // replace_block when the block has `left` before `top`
  // ---------------------------------------------------------------------------

  /** What follows position `e` of a text is that text's tail, moved by `e`. */
  lemma TailMoved(s: string, e: nat)
    requires e <= |s|
    ensures Moved(s[e..], s, e)
  {
  }

  /** After `left` is rewritten at `p1`, no `top` match starts before the end of the new `left`
      attribute when none started before `p1`. */
  lemma TopFront(body: string, left: string, rest: string, p1: nat, p2: nat, q: nat)
    requires FindAttrFrom(body, "top", 0) == Some(p2) && p1 < p2 && body[p1] == 'l'
    requires IsCoordText(left) && q < p1 + |BareAttr("left", left)|
    ensures EqualsAt(body[..p1] + (BareAttr("left", left) + rest), q, "top").None?
  {
    if q < p1 {
      FindAttrBefore(body, "top", 0, p2, q);
      assert BareAttr("left", left)[0] == 'l';
      KeptFront(body, BareAttr("left", left), rest, p1, q, "top");
    } else {
      NoTopInLeft(body[..p1], left, rest, q);
    }
  }

  /** Replacing the text from `p` on by one that starts with the same character changes no
      `NAME\s*=` match before `p`, when that character is neither a blank nor a later letter of
      the name. */
  lemma KeptFront(s: string, repl: string, rest: string, p: nat, q: nat, name: string)
    requires q < p < |s| && repl != [] && s[p] == repl[0] && !IsSpace(repl[0])
    requires forall d :: 0 < d < |name| ==> name[d] != repl[0]
    ensures EqualsAt(s[..p] + (repl + rest), q, name) == EqualsAt(s, q, name)
  {
    var w := s[..p] + (repl + rest);
    forall k | q <= k <= p
      ensures s[k] == w[k]
    {
      if k == p {
        assert w[k] == repl[0];
      }
    }
    EqualsAtLocal(s, w, q, p, name);
  }

  /** No `top` match starts inside a written `left` attribute. */
  lemma NoTopInLeft(pre: string, left: string, rest: string, q: nat)
    requires IsCoordText(left) && |pre| <= q < |pre| + |BareAttr("left", left)|
    ensures EqualsAt(pre + (BareAttr("left", left) + rest), q, "top").None?
  {
    var rl := BareAttr("left", left);
    var w := pre + (rl + rest);
    if q + 1 < |pre| + |rl| {
      CoordTextLacks(left);
      BareAttrLacks("left", left, 'o');
      assert w[q + 1] == rl[q + 1 - |pre|];
      NotAtByChar(w, q, "top", 1);
    } else {
      assert w[q] == rl[|rl| - 1] == left[|left| - 1];
      NotAtByChar(w, q, "top", 0);
    }
  }

  /** Two texts that hold the same tail `r`, `body` from `e1` on and `w` from `dw` on: no `top`
      match starts in `w` between `dw` and where `body`'s first `top` match lands. */
  lemma TopMiddle(body: string, w: string, r: string, e1: nat, dw: nat, p2: nat, q: nat)
    requires Moved(r, body, e1) && Moved(r, w, dw)
    requires FindAttrFrom(body, "top", 0) == Some(p2) && e1 <= p2 && dw <= q < dw + (p2 - e1)
    ensures EqualsAt(w, q, "top").None?
  {
    var i := q - dw;
    EqualsAtMoved(r, w, dw, i, "top");
    EqualsAtMoved(r, body, e1, i, "top");
    FindAttrBefore(body, "top", 0, p2, e1 + i);
  }

  /** Likewise, no `top` match starts in `w` after where the end of `body`'s last one lands. */
  lemma TopAfter(body: string, w: string, r: string, e1: nat, dw: nat, e2: nat, q: nat)
    requires Moved(r, body, e1) && Moved(r, w, dw)
    requires e1 <= e2 <= |body| && FindAttrFrom(body, "top", e2).None? && dw + (e2 - e1) <= q <= |w|
    ensures EqualsAt(w, q, "top").None?
  {
    var i := q - dw;
    EqualsAtMoved(r, w, dw, i, "top");
    EqualsAtMoved(r, body, e1, i, "top");
    FindAttrNone(body, "top", e2, e1 + i);
  }

  /** And `body`'s `top` match at `p2` lands in `w` with its end moved alike. */
  lemma TopLands(body: string, w: string, r: string, e1: nat, dw: nat, p2: nat)
    requires Moved(r, body, e1) && Moved(r, w, dw)
    requires e1 <= p2 && AttrAt(body, p2, "top").Some?
    ensures AttrAt(w, dw + (p2 - e1), "top").Some?
    ensures AttrAt(w, dw + (p2 - e1), "top").value.end == dw + (AttrAt(body, p2, "top").value.end - e1)
  {
    AttrAtMoved(r, w, dw, p2 - e1, "top");
    AttrAtMoved(r, body, e1, p2 - e1, "top");
  }

  lemma SplitAfter(a: string, b: string, c: string, k: nat)
    requires k <= |c|
    ensures (a + (b + c))[..|a| + |b| + k] == a + (b + c[..k])
    ensures (a + (b + c))[|a| + |b| + k..] == c[k..]
  {
  }

  /** The attribute `NAME` rewritten at its first match `p` is what the coordinate search reads,
      when what follows the new attribute does not continue its value. */
  lemma RewrittenRead(s: string, name: string, value: string, rest: string, p: nat)
    requires name == "left" || name == "top"
    requires FindAttrFrom(s, name, 0) == Some(p) && IsCoordText(value)
    requires rest == [] || !IsCoordChar(rest[0])
    ensures FindCoord(s[..p] + (BareAttr(name, value) + rest), name) == Some(value)
  {
    var repl := BareAttr(name, value);
    var u := s[..p] + (repl + rest);
    assert At(s, p, name);
    assert s[p] == s[p..p + |name|][0] == name[0] == repl[0];
    forall q | 0 <= q < p
      ensures EqualsAt(u, q, name).None?
    {
      FindAttrBefore(s, name, 0, p, q);
      KeptFront(s, repl, rest, p, q, name);
    }
    CoordAtWritten(s[..p], name, value, rest);
    FindCoordFirst(u, name, 0, p);
  }

  /** The name a match starts with is in the text where it matches. */
  lemma MatchStart(s: string, p: nat, name: string)
    requires AttrAt(s, p, name).Some? && name != []
    ensures p < |s| && s[p] == name[0]
  {
    assert At(s, p, name);
    assert s[p] == s[p..p + |name|][0];
  }

  /** Rewriting the text before `e1` keeps the tail from `e1` on, moved to the rewrite's end. */
  lemma RewriteMoved(body: string, repl: string, p1: nat, e1: nat)
    requires p1 <= e1 <= |body|
    ensures Moved(body[e1..], body, e1)
    ensures Moved(body[e1..], body[..p1] + (repl + body[e1..]), p1 + |repl|)
  {
    TailMoved(body, e1);
    Assoc(body[..p1], repl, body[e1..]);
    AppendMoved(body[..p1] + repl, body[e1..]);
  }

  lemma TopFrontAll(body: string, left: string, rest: string, p1: nat, p2: nat)
    requires FindAttrFrom(body, "top", 0) == Some(p2) && p1 < p2 && body[p1] == 'l' && IsCoordText(left)
    ensures forall q :: 0 <= q < p1 + |BareAttr("left", left)| ==>
      EqualsAt(body[..p1] + (BareAttr("left", left) + rest), q, "top").None?
  {
    forall q | 0 <= q < p1 + |BareAttr("left", left)|
      ensures EqualsAt(body[..p1] + (BareAttr("left", left) + rest), q, "top").None?
    {
      TopFront(body, left, rest, p1, p2, q);
    }
  }

  /** A text `w` that holds the tail of `body` from `e1` on, at `dw`, and has no `top` match
      before `dw`: `body`'s first `top` match, after `e1`, is `w`'s first, where it lands, with its
      end moved alike. */
  lemma TopFoundAfterLeft(body: string, w: string, r: string, e1: nat, dw: nat, p2: nat, p2w: nat)
    requires FindAttrFrom(body, "top", 0) == Some(p2) && e1 <= p2 && p2w == dw + (p2 - e1)
    requires Moved(r, body, e1) && Moved(r, w, dw)
    requires forall q :: 0 <= q < dw ==> EqualsAt(w, q, "top").None?
    ensures FindAttrFrom(w, "top", 0) == Some(p2w)
    ensures AttrAt(w, p2w, "top").Some?
    ensures AttrAt(w, p2w, "top").value.end == dw + (AttrAt(body, p2, "top").value.end - e1)
  {
    forall q | dw <= q < p2w
      ensures EqualsAt(w, q, "top").None?
    {
      TopMiddle(body, w, r, e1, dw, p2, q);
    }
    TopLands(body, w, r, e1, dw, p2);
    FindAttrFirst(w, "top", 0, p2w);
  }

  /** And no `top` match follows it when none followed it before. */
  lemma NoTopAfterLeft(body: string, w: string, r: string, e1: nat, dw: nat, e2: nat, e2w: nat)
    requires e1 <= e2 <= |body| && FindAttrFrom(body, "top", e2).None? && e2w == dw + (e2 - e1)
    requires Moved(r, body, e1) && Moved(r, w, dw)
    ensures e2w <= |w| && FindAttrFrom(w, "top", e2w).None?
  {
    forall q | e2w <= q <= |w|
      ensures EqualsAt(w, q, "top").None?
    {
      TopAfter(body, w, r, e1, dw, e2, q);
    }
    FindAttrNothing(w, "top", e2w);
  }

  /** `left` is rewritten at its only match; the `top` matches of the body, the first after that
      `left` attribute and none after it, land in the rewritten text. */
  lemma LeftRewriteShape(body: string, left: string, p1: nat, e1: nat, p2: nat, e2: nat, w: string, dw: nat,
                         p2w: nat, e2w: nat)
    requires IsCoordText(left)
    requires FindAttrFrom(body, "left", 0) == Some(p1) && e1 == AttrAt(body, p1, "left").value.end
    requires FindAttrFrom(body, "left", e1).None?
    requires FindAttrFrom(body, "top", 0) == Some(p2) && e1 <= p2 && e2 == AttrAt(body, p2, "top").value.end
    requires FindAttrFrom(body, "top", e2).None?
    requires w == body[..p1] + (BareAttr("left", left) + body[e1..]) && dw == p1 + |BareAttr("left", left)|
    requires p2w == dw + (p2 - e1) && e2w == dw + (e2 - e1)
    ensures SubAttr(body, "left", BareAttr("left", left)) == w
    ensures FindAttrFrom(w, "top", 0) == Some(p2w)
    ensures AttrAt(w, p2w, "top").Some? && AttrAt(w, p2w, "top").value.end == e2w
    ensures e2w <= |w| && FindAttrFrom(w, "top", e2w).None?
  {
    SubAttrOnce(body, "left", BareAttr("left", left), p1);
    MatchStart(body, p1, "left");
    RewriteMoved(body, BareAttr("left", left), p1, e1);
    TopFrontAll(body, left, body[e1..], p1, p2);
    TopFoundAfterLeft(body, w, body[e1..], e1, dw, p2, p2w);
    NoTopAfterLeft(body, w, body[e1..], e1, dw, e2, e2w);
  }

  /** The second step of `replace_block` once `left` is rewritten into `w`: the only `top`
      match of `w` is rewritten, and read back when nothing after it continues its value. */
  lemma TopRewriteStep(body: string, left: string, top: string, w: string, p2w: nat, e2w: nat)
    requires IsCoordText(top) && FindAttrFrom(body, "left", 0).Some?
    requires SubAttr(body, "left", BareAttr("left", left)) == w
    requires FindAttrFrom(w, "top", 0) == Some(p2w)
    requires AttrAt(w, p2w, "top").Some? && AttrAt(w, p2w, "top").value.end == e2w
    requires e2w <= |w| && FindAttrFrom(w, "top", e2w).None?
    requires w[e2w..] == [] || !IsCoordChar(w[e2w..][0])
    ensures PatchBody(body, left, top) == w[..p2w] + (BareAttr("top", top) + w[e2w..])
    ensures FindCoord(PatchBody(body, left, top), "top") == Some(top)
  {
    SubAttrOnce(w, "top", BareAttr("top", top), p2w);
    RewrittenRead(w, "top", top, w[e2w..], p2w);
  }

  /** Where the pieces of the body sit in the text with `left` rewritten. */
  lemma RewrittenSlices(body: string, rl: string, p1: nat, e1: nat, p2: nat, e2: nat, w: string,
                        p2w: nat, e2w: nat)
    requires p1 <= e1 <= p2 <= e2 <= |body| && w == body[..p1] + (rl + body[e1..])
    requires p2w == p1 + |rl| + (p2 - e1) && e2w == p1 + |rl| + (e2 - e1)
    ensures w[..p2w] == body[..p1] + (rl + body[e1..p2])
    ensures w[e2w..] == body[e2..]
  {
    SplitAfter(body[..p1], rl, body[e1..], p2 - e1);
    SplitAfter(body[..p1], rl, body[e1..], e2 - e1);
  }

  /** A block body with one `left` attribute followed by one `top` attribute gets both rewritten
      where they stand and keeps every other character; it reads back the coordinates it was
      patched with when neither old attribute is followed by a digit or `%`. */
  lemma PatchRewrites(body: string, left: string, top: string, p1: nat, e1: nat, p2: nat, e2: nat)
    requires IsCoordText(left) && IsCoordText(top)
    requires FindAttrFrom(body, "left", 0) == Some(p1) && e1 == AttrAt(body, p1, "left").value.end
    requires FindAttrFrom(body, "left", e1).None?
    requires FindAttrFrom(body, "top", 0) == Some(p2) && e1 <= p2 && e2 == AttrAt(body, p2, "top").value.end
    requires FindAttrFrom(body, "top", e2).None?
    requires !IsCoordChar(body[e1]) && (e2 == |body| || !IsCoordChar(body[e2]))
    ensures PatchBody(body, left, top)
      == body[..p1] + (BareAttr("left", left) + (body[e1..p2] + (BareAttr("top", top) + body[e2..])))
    ensures FindCoord(PatchBody(body, left, top), "left") == Some(left)
    ensures FindCoord(PatchBody(body, left, top), "top") == Some(top)
  {
    var rl := BareAttr("left", left);
    var rt := BareAttr("top", top);
    var w := body[..p1] + (rl + body[e1..]);
    var dw := p1 + |rl|;
    var p2w := dw + (p2 - e1);
    var e2w := dw + (e2 - e1);
    LeftRewriteShape(body, left, p1, e1, p2, e2, w, dw, p2w, e2w);
    RewrittenSlices(body, rl, p1, e1, p2, e2, w, p2w, e2w);
    TailStart(body, e2);
    TopRewriteStep(body, left, top, w, p2w, e2w);
    Assemble(body[..p1], rl, body[e1..p2], rt, body[e2..], w, p2w, e2w);
    LeftReadAfterPatch(body, left, top, p1, e1, p2, e2);
  }

  lemma TailStart(s: string, e: nat)
    requires e <= |s|
    ensures s[e..] == [] <==> e == |s|
    ensures e < |s| ==> s[e..][0] == s[e]
  {
  }

  lemma Assemble(a: string, b: string, m: string, c: string, t: string, w: string, p: nat, e: nat)
    requires p <= e <= |w| && w[..p] == a + (b + m) && w[e..] == t
    ensures w[..p] + (c + w[e..]) == a + (b + (m + (c + t)))
  {
    Assoc(b, m, c + t);
    Assoc(a, b + m, c + t);
  }

  /** The rewritten `left` is read back from the patched body. */
  lemma LeftReadAfterPatch(body: string, left: string, top: string, p1: nat, e1: nat, p2: nat, e2: nat)
    requires FindAttrFrom(body, "left", 0) == Some(p1) && IsCoordText(left)
    requires e1 <= p2 <= e2 <= |body| && p2 < |body| && !IsCoordChar(body[e1])
    ensures FindCoord(body[..p1] + (BareAttr("left", left) + (body[e1..p2] + (BareAttr("top", top) + body[e2..]))), "left")
      == Some(left)
  {
    var y := body[e1..p2] + (BareAttr("top", top) + body[e2..]);
    GapStart(body, top, e1, p2, e2);
    RewrittenRead(body, "left", left, y, p1);
  }

  /** What follows the rewritten `left` starts with the old character after it, or with the
      rewritten `top`. */
  lemma GapStart(body: string, top: string, e1: nat, p2: nat, e2: nat)
    requires e1 <= p2 <= e2 <= |body| && p2 < |body| && !IsCoordChar(body[e1])
    ensures var y := body[e1..p2] + (BareAttr("top", top) + body[e2..]);
      y != [] && !IsCoordChar(y[0])
  {
    var y := body[e1..p2] + (BareAttr("top", top) + body[e2..]);
    if e1 == p2 {
      assert y[0] == 't';
    } else {
      assert y[0] == body[e1];
    }
  }
}
