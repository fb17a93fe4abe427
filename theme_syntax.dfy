/**
  Recognisers for the handful of regular expressions the theme codec uses. Each pattern is
  written out as the deterministic scan Python's backtracking matcher ends up performing on it:
  every `\s*` and character-class run is greedy, and in none of these patterns can giving
  characters back turn a failed attempt into a match.
*/
module ThemeSyntax {
  import opened Wrappers
  import opened Text

  // ---------------------------------------------------------------------------
  // Top-level lines: ^([\w\-]+)\s*:\s*"?([^"]*)"?
  // ---------------------------------------------------------------------------

  predicate IsKeyChar(c: char) { IsWordChar(c) || c == '-' }
  predicate NotDoubleQuote(c: char) { c != '"' }

  /** A key as the top-level pattern captures it. */
  predicate IsKeyText(s: string) {
    s != [] && forall k :: 0 <= k < |s| ==> IsKeyChar(s[k])
  }

  predicate NoDoubleQuote(s: string) {
    forall k :: 0 <= k < |s| ==> s[k] != '"'
  }

  /** The two groups of a top-level `key: "value"` match. */
  datatype Assignment = Assignment(key: string, value: string)

  /** `re.match(r'^([\w\-]+)\s*:\s*"?([^"]*)"?', line)`: the key, and the text after the colon
      (and after an opening quote, if any) up to the next `"`. */
  function MatchGlobal(line: string): (r: Option<Assignment>)
    ensures line == [] || !IsKeyChar(line[0]) ==> r.None?
  {
    var k := Span(line, 0, IsKeyChar);
    if k == 0 then None
    else
      var c := Span(line, k, IsSpace);
      if c == |line| || line[c] != ':' then None
      else
        var v := Span(line, c + 1, IsSpace);
        var q := if v < |line| && line[v] == '"' then v + 1 else v;
        var e := Span(line, q, NotDoubleQuote);
        Some(Assignment(line[..k], line[q..e]))
  }

  /** A match captures a key made of key characters that starts the line, and a value with no `"`. */
  lemma MatchGlobalFacts(line: string)
    requires MatchGlobal(line).Some?
    ensures IsKeyText(MatchGlobal(line).value.key) && StartsWith(line, MatchGlobal(line).value.key)
    ensures NoDoubleQuote(MatchGlobal(line).value.value)
  {
    MatchGlobalKey(line);
    MatchGlobalValue(line);
  }

  /** The key of a match is the run of key characters that starts the line. */
  lemma MatchGlobalKey(line: string)
    requires MatchGlobal(line).Some?
    ensures IsKeyText(MatchGlobal(line).value.key) && StartsWith(line, MatchGlobal(line).value.key)
  {
    var k := Span(line, 0, IsKeyChar);
    var key := MatchGlobal(line).value.key;
    assert key == line[..k];
    SpanFacts(line, 0, IsKeyChar);
    assert forall j :: 0 <= j < k ==> key[j] == line[j];
  }

  /** The value of a match is a run of characters other than `"`. */
  lemma MatchGlobalValue(line: string)
    requires MatchGlobal(line).Some?
    ensures NoDoubleQuote(MatchGlobal(line).value.value)
  {
    var k := Span(line, 0, IsKeyChar);
    var c := Span(line, k, IsSpace);
    var v := Span(line, c + 1, IsSpace);
    var q := if v < |line| && line[v] == '"' then v + 1 else v;
    var e := Span(line, q, NotDoubleQuote);
    var value := MatchGlobal(line).value.value;
    assert value == line[q..e];
    SpanRun(line, q, NotDoubleQuote);
  }

  /** The line `save_theme` writes for a top-level key: `key: "value"`. */
  function FormatGlobal(key: string, value: string): string {
    key + ": \"" + value + "\""
  }

  /** In a formatted line the key runs up to the colon. */
  lemma FormatGlobalKeySpan(key: string, value: string)
    requires IsKeyText(key)
    ensures Span(FormatGlobal(key, value), 0, IsKeyChar) == |key|
  {
    var line := FormatGlobal(key, value);
    assert forall k :: 0 <= k < |key| ==> line[k] == key[k];
    assert line[|key|] == ':';
    SpanUnique(line, 0, IsKeyChar, |key|);
  }

  /** In a formatted line the value runs from the opening quote up to the closing one. */
  lemma FormatGlobalValueSpan(key: string, value: string)
    requires NoDoubleQuote(value)
    ensures Span(FormatGlobal(key, value), |key| + 3, NotDoubleQuote) == |key| + 3 + |value|
  {
    var line := FormatGlobal(key, value);
    var q := |key| + 3;
    assert forall k :: q <= k < q + |value| ==> line[k] == value[k - q];
    assert line[q + |value|] == '"';
    SpanUnique(line, q, NotDoubleQuote, q + |value|);
  }

  /** Matching reads back exactly the key and value that were formatted. */
  lemma MatchFormatGlobal(key: string, value: string)
    requires IsKeyText(key) && NoDoubleQuote(value)
    ensures MatchGlobal(FormatGlobal(key, value)) == Some(Assignment(key, value))
  {
    var line := FormatGlobal(key, value);
    var k := |key|;
    FormatGlobalKeySpan(key, value);
    FormatGlobalValueSpan(key, value);
    FormatGlobalParts(key, value);
    SpanUnique(line, k, IsSpace, k);
    SpanUnique(line, k + 1, IsSpace, k + 2);
    MatchGlobalIntro(line, k, k, k + 2, k + 3, k + 3 + |value|);
  }

  /** The assignment pattern matched from its parts: the key run, the colon after the blanks,
      the value after the blanks and an optional quote. */
  lemma MatchGlobalIntro(line: string, k: nat, c: nat, v: nat, q: nat, e: nat)
    requires 0 < k && k == Span(line, 0, IsKeyChar) && c == Span(line, k, IsSpace)
    requires c < |line| && line[c] == ':' && v == Span(line, c + 1, IsSpace)
    requires q == (if v < |line| && line[v] == '"' then v + 1 else v) && e == Span(line, q, NotDoubleQuote)
    ensures MatchGlobal(line) == Some(Assignment(line[..k], line[q..e]))
  {
  }

  /** Where the key, the colon, the quotes and the value sit in a formatted line. */
  lemma FormatGlobalParts(key: string, value: string)
    ensures var line := FormatGlobal(key, value);
      |line| == |key| + 4 + |value| && line[..|key|] == key &&
      line[|key|] == ':' && line[|key| + 1] == ' ' && line[|key| + 2] == '"' &&
      line[|key| + 3..|key| + 3 + |value|] == value
  {
    var line := FormatGlobal(key, value);
    assert line == key + (": \"" + (value + "\""));
  }

  /** The formatted line has no surrounding whitespace for `strip()` to remove. */
  lemma StripFormatGlobal(key: string, value: string)
    requires IsKeyText(key)
    ensures Strip(FormatGlobal(key, value)) == FormatGlobal(key, value)
  {
    var line := FormatGlobal(key, value);
    assert line[0] == key[0] && line[|line| - 1] == '"';
    StripByIdentity(line, IsSpace);
  }

  // ---------------------------------------------------------------------------
  // Blocks: \+\s*NAME\s*\{([^}]*)\}
  // ---------------------------------------------------------------------------

  /** The two block kinds the codec reads and writes. */
  datatype BlockName = ProgressBar | BootMenu

  function NameText(name: BlockName): string {
    match name
    case ProgressBar => "progress_bar"
    case BootMenu => "boot_menu"
  }

  predicate NotCloseBrace(c: char) { c != '}' }

  /** A name that can sit between the `+` and the `{` of an opener: not empty, not starting with
      a blank, and holding no `+` and no `{`. */
  predicate PlainName(n: string) {
    n != [] && !IsSpace(n[0]) && '+' !in n && '{' !in n
  }

  lemma NameTextPlain(name: BlockName)
    ensures PlainName(NameText(name))
  {
  }

  /** `\+\s*NAME\s*\{` matched at `i`, for the name text `n`: the position just after the brace. */
  function OpenerAt(s: string, i: nat, n: string): (r: Option<nat>)
    ensures r.Some? ==> i < r.value <= |s| && s[i] == '+' && s[r.value - 1] == '{'
  {
    if i < |s| && s[i] == '+' then
      var j := Span(s, i + 1, IsSpace);
      if At(s, j, n) then
        var k := Span(s, j + |n|, IsSpace);
        if k < |s| && s[k] == '{' then Some(k + 1) else None
      else None
    else None
  }

  /** Between the `+` and the brace of an opener there are only blanks and the block name, so
      no other `+` and no other `{`. */
  lemma OpenerInterior(s: string, i: nat, n: string, p: nat)
    requires PlainName(n)
    requires OpenerAt(s, i, n).Some? && i < p < OpenerAt(s, i, n).value - 1
    ensures s[p] != '+' && s[p] != '{'
  {
    var j := Span(s, i + 1, IsSpace);
    var k := Span(s, j + |n|, IsSpace);
    assert At(s, j, n) && OpenerAt(s, i, n).value == k + 1;
    if p < j {
      SpanInside(s, i + 1, IsSpace, p);
    } else if p < j + |n| {
      assert s[p] == s[j..j + |n|][p - j];
    } else {
      SpanInside(s, j + |n|, IsSpace, p);
    }
  }

  /** No opener starts at `i` when a `+` follows it before any `{`. */
  lemma NoOpenerBeforePlus(s: string, i: nat, n: string, p: nat)
    requires PlainName(n)
    requires i < p < |s| && s[p] == '+'
    requires forall q :: i <= q <= p ==> s[q] != '{'
    ensures OpenerAt(s, i, n).None?
  {
    if OpenerAt(s, i, n).Some? {
      OpenerInterior(s, i, n, p);
    }
  }

  /** One block match: it starts at the `+`, its body is `s[bodyStart..bodyEnd]` and the
      closing brace is at `bodyEnd`. */
  datatype Block = Block(start: nat, bodyStart: nat, bodyEnd: nat)

  predicate ValidBlock(s: string, m: Block) {
    m.start < m.bodyStart <= m.bodyEnd < |s| && s[m.bodyEnd] == '}'
  }

  function Body(s: string, m: Block): string
    requires ValidBlock(s, m)
  {
    s[m.bodyStart..m.bodyEnd]
  }

  /** The whole block pattern for the name text `n` matched at `i`; the body runs to the first `}`. */
  function BlockOf(s: string, i: nat, n: string): (r: Option<Block>)
    ensures r.Some? ==> r.value.start == i && ValidBlock(s, r.value) && OpenerAt(s, i, n).Some?
  {
    match OpenerAt(s, i, n)
    case None => None
    case Some(b) =>
      var e := Span(s, b, NotCloseBrace);
      if e < |s| && s[e] == '}' then Some(Block(i, b, e)) else None
  }

  function BlockAt(s: string, i: nat, name: BlockName): (r: Option<Block>)
    ensures r.Some? ==> r.value.start == i && ValidBlock(s, r.value) && OpenerAt(s, i, NameText(name)).Some?
  {
    BlockOf(s, i, NameText(name))
  }

  /** A block's body holds no `}`. */
  lemma BlockBodyFacts(s: string, i: nat, name: BlockName, p: nat)
    requires BlockAt(s, i, name).Some?
    requires BlockAt(s, i, name).value.bodyStart <= p < BlockAt(s, i, name).value.bodyEnd
    ensures s[p] != '}'
  {
    SpanFacts(s, OpenerAt(s, i, NameText(name)).value, NotCloseBrace);
  }

  /** The opener `save_theme` writes: `+ NAME {`. */
  function Opener(n: string): string {
    "+ " + n + " {"
  }

  /** The opener pattern matched from its parts: the `+`, the name after the blanks, the brace
      after the blanks. */
  lemma OpenerAtIntro(s: string, i: nat, n: string, j: nat, k: nat)
    requires i < |s| && s[i] == '+' && j == Span(s, i + 1, IsSpace) && At(s, j, n)
    requires k == Span(s, j + |n|, IsSpace) && k < |s| && s[k] == '{'
    ensures OpenerAt(s, i, n) == Some(k + 1)
  {
  }

  /** An opener whose brace lies inside `a` is the same opener in `a` alone. */
  lemma OpenerPrefix(a: string, b: string, q: nat, n: string)
    requires OpenerAt(a + b, q, n).Some? && OpenerAt(a + b, q, n).value <= |a|
    ensures OpenerAt(a, q, n) == OpenerAt(a + b, q, n)
  {
    var s := a + b;
    var j := Span(s, q + 1, IsSpace);
    var k := Span(s, j + |n|, IsSpace);
    assert At(s, j, n) && k + 1 == OpenerAt(s, q, n).value;
    SpanPrefix(a, b, q + 1, IsSpace);
    AtPrefix(a, b, j, n);
    SpanPrefix(a, b, j + |n|, IsSpace);
    OpenerAtIntro(a, q, n, j, k);
  }

  /** A written opener is matched where it was written. */
  lemma OpenerAtWritten(pre: string, n: string, post: string)
    requires PlainName(n)
    ensures OpenerAt(pre + (Opener(n) + post), |pre|, n) == Some(|pre| + |Opener(n)|)
  {
    var o := Opener(n);
    var s := pre + (o + post);
    var d := |pre|;
    assert o == "+ " + n + " {";
    assert s[d] == '+' && s[d + 1] == ' ' && s[d + 2] == n[0];
    SpanUnique(s, d + 1, IsSpace, d + 2);
    assert s[d + 2..d + 2 + |n|] == n;
    assert s[d + 2 + |n|] == ' ' && s[d + 3 + |n|] == '{';
    SpanUnique(s, d + 2 + |n|, IsSpace, d + 3 + |n|);
    OpenerAtIntro(s, d, n, d + 2, d + 3 + |n|);
  }

  /** A written block is found where it was written, with the body it was written with. */
  lemma BlockOfWritten(pre: string, n: string, body: string, close: string)
    requires PlainName(n) && '}' !in body && close != [] && close[0] == '}'
    ensures BlockOf(pre + (Opener(n) + (body + close)), |pre|, n)
      == Some(Block(|pre|, |pre| + |Opener(n)|, |pre| + |Opener(n)| + |body|))
    ensures Body(pre + (Opener(n) + (body + close)), Block(|pre|, |pre| + |Opener(n)|, |pre| + |Opener(n)| + |body|)) == body
  {
    var s := pre + (Opener(n) + (body + close));
    var b := |pre| + |Opener(n)|;
    OpenerAtWritten(pre, n, body + close);
    assert forall k :: b <= k < b + |body| ==> s[k] == body[k - b];
    assert s[b + |body|] == '}';
    SpanUnique(s, b, NotCloseBrace, b + |body|);
    assert s[b..b + |body|] == body;
  }

  /** The opener written for one name is not an opener for a name with another first letter. */
  lemma OpenerMismatch(pre: string, m: string, n: string, post: string)
    requires PlainName(m) && n != [] && m[0] != n[0]
    ensures OpenerAt(pre + (Opener(m) + post), |pre|, n).None?
  {
    var s := pre + (Opener(m) + post);
    var i := |pre|;
    assert s[i + 1] == ' ' && s[i + 2] == m[0];
    SpanUnique(s, i + 1, IsSpace, i + 2);
    NotAtByChar(s, i + 2, n, 0);
  }

  /** No opener starts before a `+` when no `{` comes first. */
  lemma NoOpenerBeforeFirstPlus(s: string, n: string, j: nat)
    requires PlainName(n)
    requires j < |s| && s[j] == '+' && '{' !in s[..j + 1]
    ensures forall q :: 0 <= q < j ==> OpenerAt(s, q, n).None?
  {
    forall q | 0 <= q < j
      ensures OpenerAt(s, q, n).None?
    {
      assert forall r :: q <= r <= j ==> s[r] == s[..j + 1][r];
      NoOpenerBeforePlus(s, q, n, j);
    }
  }

  /** `re.search` for the block pattern from position `i`: the leftmost match. */
  function FindBlockFrom(s: string, name: BlockName, i: nat): (r: Option<Block>)
    requires i <= |s|
    ensures r.Some? ==> i <= r.value.start && BlockAt(s, r.value.start, name) == r
    decreases |s| - i
  {
    if i == |s| then None
    else
      var b := BlockAt(s, i, name);
      if b.Some? then b else FindBlockFrom(s, name, i + 1)
  }

  function FindBlock(s: string, name: BlockName): Option<Block> {
    FindBlockFrom(s, name, 0)
  }

  /** The search returns a block that starts after every position where no opener starts. */
  lemma FindBlockAt(s: string, name: BlockName, i: nat)
    requires i < |s| && BlockAt(s, i, name).Some?
    requires forall q :: 0 <= q < i ==> OpenerAt(s, q, NameText(name)).None?
    ensures FindBlock(s, name) == BlockAt(s, i, name)
  {
    FindBlockFromAt(s, name, 0, i);
  }

  /** The search from `j` reaches the block at `i` when no opener starts in between. */
  lemma {:induction false} FindBlockFromAt(s: string, name: BlockName, j: nat, i: nat)
    requires j <= i < |s| && BlockAt(s, i, name).Some?
    requires forall q :: j <= q < i ==> OpenerAt(s, q, NameText(name)).None?
    ensures FindBlockFrom(s, name, j) == BlockAt(s, i, name)
    decreases i - j
  {
    if j == i {
      FindBlockHere(s, name, i);
    } else {
      BlockAtNone(s, name, j);
      FindBlockSkip(s, name, j);
      FindBlockFromAt(s, name, j + 1, i);
    }
  }

  /** A block starts with its opener. */
  lemma BlockAtOpener(s: string, i: nat, name: BlockName)
    requires BlockAt(s, i, name).Some?
    ensures OpenerAt(s, i, NameText(name)).Some?
  {
  }

  /** No block starts where no opener does. */
  lemma BlockAtNone(s: string, name: BlockName, i: nat)
    requires OpenerAt(s, i, NameText(name)).None?
    ensures BlockAt(s, i, name).None?
  {
  }

  /** The search stops where a block starts. */
  lemma FindBlockHere(s: string, name: BlockName, i: nat)
    requires i < |s| && BlockAt(s, i, name).Some?
    ensures FindBlockFrom(s, name, i) == BlockAt(s, i, name)
  {
  }

  /** The search goes on where no block starts. */
  lemma FindBlockSkip(s: string, name: BlockName, i: nat)
    requires i < |s| && BlockAt(s, i, name).None?
    ensures FindBlockFrom(s, name, i) == FindBlockFrom(s, name, i + 1)
  {
  }


  /** `re.search(r'\+\s*NAME\s*\{', s)` from `i`, for the name text `n`: where the leftmost
      opener starts. */
  function FindOpenerFrom(s: string, n: string, i: nat): (r: Option<nat>)
    requires i <= |s|
    ensures r.Some? ==> i <= r.value < |s| && OpenerAt(s, r.value, n).Some?
    decreases |s| - i
  {
    if i == |s| then None
    else if OpenerAt(s, i, n).Some? then Some(i)
    else FindOpenerFrom(s, n, i + 1)
  }

  /** `re.search` of the opener of block `name` finds something. */
  predicate HasOpener(s: string, name: BlockName) {
    FindOpenerFrom(s, NameText(name), 0).Some?
  }

  /** `re.sub` of the block pattern by the empty string, scanning from `i`: every
      non-overlapping match, leftmost first, is cut out. */
  function RemoveBlocksFrom(s: string, name: BlockName, i: nat): string
    requires i <= |s|
    decreases |s| - i
  {
    if i == |s| then ""
    else match BlockAt(s, i, name)
      case Some(m) => RemoveBlocksFrom(s, name, m.bodyEnd + 1)
      case None => [s[i]] + RemoveBlocksFrom(s, name, i + 1)
  }

  function RemoveBlocks(s: string, name: BlockName): string {
    RemoveBlocksFrom(s, name, 0)
  }

  /** Removal copies a character where no block starts. */
  lemma RemoveBlocksStep(s: string, name: BlockName, i: nat)
    requires i < |s| && BlockAt(s, i, name).None?
    ensures RemoveBlocksFrom(s, name, i) == [s[i]] + RemoveBlocksFrom(s, name, i + 1)
  {
  }

  /** Removal leaves text with no `{` unchanged: no block can start in it. */
  lemma {:induction false} RemoveBlocksNoBrace(s: string, name: BlockName, i: nat)
    requires i <= |s| && forall q :: i <= q < |s| ==> s[q] != '{'
    ensures RemoveBlocksFrom(s, name, i) == s[i..]
    decreases |s| - i
  {
    if i < |s| {
      assert OpenerAt(s, i, NameText(name)).None?;
      RemoveBlocksStep(s, name, i);
      RemoveBlocksNoBrace(s, name, i + 1);
      assert s[i..] == [s[i]] + s[i + 1..];
    }
  }

  // ---------------------------------------------------------------------------
  // Attributes inside a block body
  // ---------------------------------------------------------------------------

  predicate IsValueChar(c: char) { c != '"' && c != '\n' }
  predicate IsCoordChar(c: char) { IsDigit(c) || c == '%' }

  /** One `NAME\s*=\s*"?([^"\n]*)"?` match: the captured value is `s[valueStart..valueEnd]`
      and the match ends at `end` (after the closing quote, when there is one). */
  datatype Attr = Attr(valueStart: nat, valueEnd: nat, end: nat)

  /** The position of the `=` after `NAME\s*` at `i`, if the text there has that shape: this is
      also the pattern `NAME\s*=` that `replace_block` searches for. */
  function EqualsAt(s: string, i: nat, name: string): (r: Option<nat>)
    ensures r.Some? ==> i + |name| <= r.value < |s| && s[r.value] == '='
    ensures r.Some? ==> At(s, i, name)
  {
    if At(s, i, name) then
      var j := Span(s, i + |name|, IsSpace);
      if j < |s| && s[j] == '=' then Some(j) else None
    else None
  }

  /** The attribute pattern matched at `i`. */
  function AttrAt(s: string, i: nat, name: string): (r: Option<Attr>)
    ensures r.Some? <==> EqualsAt(s, i, name).Some?
    ensures r.Some? ==> i < r.value.valueStart <= r.value.valueEnd <= r.value.end <= |s|
    ensures r.Some? ==> i + |name| <= r.value.end
  {
    match EqualsAt(s, i, name)
    case None => None
    case Some(j) =>
      var q := ValueStart(s, j);
      var e := Span(s, q, IsValueChar);
      Some(Attr(q, e, ValueClose(s, e)))
  }

  /** Where an attribute's value starts, after the `=` at `j`, the blanks and an optional
      quote. */
  function ValueStart(s: string, j: nat): (q: nat)
    requires j < |s|
    ensures j < q <= |s|
  {
    var k := Span(s, j + 1, IsSpace);
    if k < |s| && s[k] == '"' then k + 1 else k
  }

  /** Where an attribute match ends, after the value ending at `e` and an optional quote. */
  function ValueClose(s: string, e: nat): (c: nat)
    requires e <= |s|
    ensures e <= c <= |s|
  {
    if e < |s| && s[e] == '"' then e + 1 else e
  }

  /** `re.search` for the attribute pattern from `i`: where the leftmost match starts. */
  function FindAttrFrom(s: string, name: string, i: nat): (r: Option<nat>)
    requires i <= |s|
    ensures r.Some? ==> i <= r.value <= |s| && AttrAt(s, r.value, name).Some?
    decreases |s| - i
  {
    if AttrAt(s, i, name).Some? then Some(i)
    else if i == |s| then None
    else FindAttrFrom(s, name, i + 1)
  }

  /** `m.group(1)` of the first attribute match, if any. */
  function AttrValue(s: string, name: string): Option<string> {
    match FindAttrFrom(s, name, 0)
    case None => None
    case Some(p) =>
      var a := AttrAt(s, p, name).value;
      Some(s[a.valueStart..a.valueEnd])
  }

  /** `re.sub(r'NAME\s*=\s*"?[^"\n]*"?', repl, s)` from `i`: each non-overlapping attribute
      match, leftmost first, is replaced by `repl`. */
  function SubAttrFrom(s: string, name: string, repl: string, i: nat): string
    requires i <= |s|
    decreases |s| - i
  {
    if i == |s| then ""
    else match AttrAt(s, i, name)
      case Some(a) => repl + SubAttrFrom(s, name, repl, a.end)
      case None => [s[i]] + SubAttrFrom(s, name, repl, i + 1)
  }

  function SubAttr(s: string, name: string, repl: string): string {
    SubAttrFrom(s, name, repl, 0)
  }

  /** The coordinate pattern `NAME\s*=\s*"?([\d%]+)"?` matched at `i`: its non-empty capture. */
  function CoordAt(s: string, i: nat, name: string): (r: Option<string>)
    ensures r.Some? ==> r.value != []
  {
    match EqualsAt(s, i, name)
    case None => None
    case Some(j) =>
      var k := Span(s, j + 1, IsSpace);
      var q := if k < |s| && s[k] == '"' then k + 1 else k;
      var e := Span(s, q, IsCoordChar);
      if e == q then None else Some(s[q..e])
  }

  /** `re.search` for the coordinate pattern from `i`: where the leftmost match starts. */
  function FindCoordFrom(s: string, name: string, i: nat): (r: Option<nat>)
    requires i <= |s|
    ensures r.Some? ==> i <= r.value <= |s| && CoordAt(s, r.value, name).Some?
    decreases |s| - i
  {
    if CoordAt(s, i, name).Some? then Some(i)
    else if i == |s| then None
    else FindCoordFrom(s, name, i + 1)
  }

  /** The capture of the leftmost coordinate match, if any. */
  function FindCoord(s: string, name: string): Option<string> {
    match FindCoordFrom(s, name, 0)
    case None => None
    case Some(p) => CoordAt(s, p, name)
  }
  /** No match of `name` starts at `q` when the text there differs from `name` at offset `d`. */
  lemma NotAtByChar(s: string, q: nat, name: string, d: nat)
    requires d < |name| && (q + d < |s| ==> s[q + d] != name[d])
    ensures !At(s, q, name)
  {
    if q + |name| <= |s| {
      assert s[q..q + |name|][d] == s[q + d];
    }
  }

  /** The attribute search reaches the first position where the name occurs. */
  lemma {:induction false} FindAttrReaches(s: string, name: string, i: nat, p: nat)
    requires i <= p <= |s| && AttrAt(s, p, name).Some?
    requires forall q :: i <= q < p ==> !At(s, q, name)
    ensures FindAttrFrom(s, name, i) == Some(p)
    decreases p - i
  {
    if i < p {
      FindAttrReaches(s, name, i + 1, p);
    }
  }

  /** The attribute text `save_theme` writes with a quoted value: `name = "value"`. */
  function QuotedAttr(name: string, value: string): string {
    name + " = \"" + value + "\""
  }

  /** The attribute text `save_theme` writes with a bare value: `name = value`. */
  function BareAttr(name: string, value: string): string {
    name + " = " + value
  }

  /** A written attribute `name = "value"` is matched where it was written, capturing the value. */
  lemma AttrAtWritten(pre: string, name: string, value: string, post: string)
    requires name != [] && !IsSpace(name[|name| - 1]) && '"' !in value && '\n' !in value
    ensures AttrAt(pre + (QuotedAttr(name, value) + post), |pre|, name)
      == Some(Attr(|pre| + |name| + 4, |pre| + |name| + 4 + |value|, |pre| + |name| + 5 + |value|))
  {
    var s := pre + (QuotedAttr(name, value) + post);
    var i := |pre|;
    var j := i + |name| + 1;
    var q := j + 3;
    assert s[i..i + |name|] == name;
    assert s[j - 1] == ' ' && s[j] == '=' && s[j + 1] == ' ' && s[j + 2] == '"';
    SpanUnique(s, i + |name|, IsSpace, j);
    SpanUnique(s, j + 1, IsSpace, j + 2);
    assert forall k :: q <= k < q + |value| ==> s[k] == value[k - q];
    assert s[q + |value|] == '"';
    SpanUnique(s, q, IsValueChar, q + |value|);
    EqualsAtIntro(s, i, name, j);
    AttrAtIntro(s, i, name, j, j + 2, q, q + |value|);
  }

  /** The attribute pattern matched from its parts: the `=`, the end of the blanks after it,
      the start of the value after an optional quote, and the end of the value. */
  lemma AttrAtIntro(s: string, i: nat, name: string, j: nat, k: nat, q: nat, e: nat)
    requires EqualsAt(s, i, name) == Some(j)
    requires k == Span(s, j + 1, IsSpace) && q == (if k < |s| && s[k] == '"' then k + 1 else k)
    requires e == Span(s, q, IsValueChar)
    ensures AttrAt(s, i, name) == Some(Attr(q, e, if e < |s| && s[e] == '"' then e + 1 else e))
  {
  }

  /** Where the value of a written attribute sits. */
  lemma QuotedAttrValue(pre: string, name: string, value: string, post: string)
    ensures (pre + (QuotedAttr(name, value) + post))[|pre| + |name| + 4..|pre| + |name| + 4 + |value|] == value
  {
    var s := pre + (QuotedAttr(name, value) + post);
    var q := |pre| + |name| + 4;
    assert forall k :: q <= k < q + |value| ==> s[k] == value[k - q];
  }

  /** The first written attribute `name = "value"` is what `AttrValue` reads. */
  lemma AttrValueWritten(pre: string, name: string, value: string, post: string)
    requires name != [] && !IsSpace(name[|name| - 1]) && '"' !in value && '\n' !in value
    requires forall q :: 0 <= q < |pre| ==> !At(pre + (QuotedAttr(name, value) + post), q, name)
    ensures AttrValue(pre + (QuotedAttr(name, value) + post), name) == Some(value)
  {
    AttrAtWritten(pre, name, value, post);
    QuotedAttrValue(pre, name, value, post);
    FindAttrReaches(pre + (QuotedAttr(name, value) + post), name, 0, |pre|);
  }

  predicate IsCoordText(s: string) {
    s != [] && forall k :: 0 <= k < |s| ==> IsCoordChar(s[k])
  }

  /** The coordinate search reaches the first position where the name occurs. */
  lemma {:induction false} FindCoordReaches(s: string, name: string, i: nat, p: nat)
    requires i <= p <= |s| && CoordAt(s, p, name).Some?
    requires forall q :: i <= q < p ==> !At(s, q, name)
    ensures FindCoordFrom(s, name, i) == Some(p)
    decreases p - i
  {
    if i < p {
      FindCoordReaches(s, name, i + 1, p);
    }
  }

  /** A written coordinate `name = value`, followed by the end or a character outside the value, is matched where it was
      written, capturing the value. */
  lemma CoordAtWritten(pre: string, name: string, value: string, post: string)
    requires name != [] && !IsSpace(name[|name| - 1]) && IsCoordText(value)
    requires post == [] || !IsCoordChar(post[0])
    ensures CoordAt(pre + (BareAttr(name, value) + post), |pre|, name) == Some(value)
  {
    var s := pre + (BareAttr(name, value) + post);
    var i := |pre|;
    var j := i + |name| + 1;
    var q := j + 2;
    assert s[i..i + |name|] == name;
    assert s[j - 1] == ' ' && s[j] == '=' && s[j + 1] == ' ' && s[q] == value[0];
    SpanUnique(s, i + |name|, IsSpace, j);
    SpanUnique(s, j + 1, IsSpace, q);
    assert forall k :: q <= k < q + |value| ==> s[k] == value[k - q];
    if post != [] {
      assert s[q + |value|] == post[0];
    }
    SpanUnique(s, q, IsCoordChar, q + |value|);
    EqualsAtIntro(s, i, name, j);
    CoordAtIntro(s, i, name, j, q, q + |value|);
    assert s[q..q + |value|] == value;
  }

  /** The `NAME\s*=` pattern matched from its parts. */
  lemma EqualsAtIntro(s: string, i: nat, name: string, j: nat)
    requires At(s, i, name) && j == Span(s, i + |name|, IsSpace) && j < |s| && s[j] == '='
    ensures EqualsAt(s, i, name) == Some(j)
  {
  }

  /** The coordinate pattern matched from its parts: the `=`, the start of the value after the
      blanks and an optional quote, and the end of the run of coordinate characters. */
  lemma CoordAtIntro(s: string, i: nat, name: string, j: nat, q: nat, e: nat)
    requires EqualsAt(s, i, name) == Some(j)
    requires var k := Span(s, j + 1, IsSpace); q == (if k < |s| && s[k] == '"' then k + 1 else k)
    requires e == Span(s, q, IsCoordChar) && e != q
    ensures CoordAt(s, i, name) == Some(s[q..e])
  {
  }

  /** The first written coordinate `name = value`, followed by a line break, is what `FindCoord` reads. */
  lemma CoordWritten(pre: string, name: string, value: string, post: string)
    requires name != [] && !IsSpace(name[|name| - 1]) && IsCoordText(value)
    requires post != [] && post[0] == '\n'
    requires forall q :: 0 <= q < |pre| ==> !At(pre + (BareAttr(name, value) + post), q, name)
    ensures FindCoord(pre + (BareAttr(name, value) + post), name) == Some(value)
  {
    CoordAtWritten(pre, name, value, post);
    FindCoordReaches(pre + (BareAttr(name, value) + post), name, 0, |pre|);
  }

}
