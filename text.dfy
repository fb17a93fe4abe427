/**
  The pieces of Python's `str` and `re` behaviour that the GrubTamer parsers rely on,
  written out over `seq<char>`: character classes, `strip`, `lower`, `splitlines`,
  `"sep".join`, `startswith`, `in` on strings and `isdigit`.
*/
module Text {

  // ---------------------------------------------------------------------------
  // Character classes
  // ---------------------------------------------------------------------------

  /** Python's `str.isspace()`: the characters `strip()` removes and the regex class `\s` matches. */
  predicate IsSpace(c: char) {
    c == ' ' || '\t' <= c <= '\r' || '\U{1c}' <= c <= '\U{1f}' || c == '\U{85}' || c == '\U{a0}'
    || c == '\U{1680}' || '\U{2000}' <= c <= '\U{200a}' || c == '\U{2028}' || c == '\U{2029}'
    || c == '\U{202f}' || c == '\U{205f}' || c == '\U{3000}'
  }

  /** The line boundaries of Python's `str.splitlines()` ("\r\n" counts as one boundary). */
  predicate IsLineBreak(c: char) {
    c == '\n' || c == '\r' || c == '\U{b}' || c == '\U{c}' || '\U{1c}' <= c <= '\U{1e}'
    || c == '\U{85}' || c == '\U{2028}' || c == '\U{2029}'
  }

  predicate IsLineChar(c: char) { !IsLineBreak(c) }

  /** The regex class `\d` and `str.isdigit()`, restricted to ASCII. */
  predicate IsDigit(c: char) { '0' <= c <= '9' }

  /** The regex class `\w`, restricted to ASCII. */
  predicate IsWordChar(c: char) {
    'a' <= c <= 'z' || 'A' <= c <= 'Z' || IsDigit(c) || c == '_'
  }

  predicate IsDoubleQuote(c: char) { c == '"' }
  predicate NotNewline(c: char) { c != '\n' }
  predicate IsSingleQuote(c: char) { c == '\'' }

  // ---------------------------------------------------------------------------
  // Scanning
  // ---------------------------------------------------------------------------

  /** The end of the longest run of characters satisfying `P` that starts at `i`. */
  function Span(s: string, i: nat, P: char -> bool): (j: nat)
    requires i <= |s|
    ensures i <= j <= |s|
    decreases |s| - i
  {
    if i == |s| || !P(s[i]) then i else Span(s, i + 1, P)
  }

  /** The run is made of `P` characters and stops at the end or at a character outside `P`. */
  lemma {:induction false} SpanFacts(s: string, i: nat, P: char -> bool)
    requires i <= |s|
    ensures forall k :: i <= k < Span(s, i, P) ==> P(s[k])
    ensures Span(s, i, P) < |s| ==> !P(s[Span(s, i, P)])
    decreases |s| - i
  {
    if i < |s| && P(s[i]) {
      SpanFacts(s, i + 1, P);
    }
  }

  /** A character inside the run satisfies `P`. */
  lemma {:induction false} SpanInside(s: string, i: nat, P: char -> bool, k: nat)
    requires i <= |s| && i <= k < Span(s, i, P)
    ensures P(s[k])
    decreases k - i
  {
    if i < k {
      SpanInside(s, i + 1, P, k);
    }
  }

  /** Every character of the run, taken as a slice, satisfies `P`. */
  lemma SpanRun(s: string, i: nat, P: char -> bool)
    requires i <= |s|
    ensures forall k :: 0 <= k < |s[i..Span(s, i, P)]| ==> P(s[i..Span(s, i, P)][k])
  {
    var run := s[i..Span(s, i, P)];
    forall k | 0 <= k < |run|
      ensures P(run[k])
    {
      SpanInside(s, i, P, i + k);
    }
  }

  /** Conversely, a run of `P` characters that stops at the end or before a non-`P` is the span. */
  lemma {:induction false} SpanUnique(s: string, i: nat, P: char -> bool, j: nat)
    requires i <= j <= |s|
    requires forall k :: i <= k < j ==> P(s[k])
    requires j < |s| ==> !P(s[j])
    ensures Span(s, i, P) == j
    decreases j - i
  {
    if i < j {
      SpanUnique(s, i + 1, P, j);
    }
  }

  /** A run that stops inside `a` is the same run in `a` alone. */
  lemma SpanPrefix(a: string, b: string, i: nat, P: char -> bool)
    requires i <= |a| && Span(a + b, i, P) <= |a|
    ensures Span(a, i, P) == Span(a + b, i, P)
  {
    var j := Span(a + b, i, P);
    SpanFacts(a + b, i, P);
    assert forall k :: i <= k < j ==> (a + b)[k] == a[k];
    SpanUnique(a, i, P, j);
  }

  /** A slice is its first character followed by the rest. */
  lemma SliceCons(s: string, i: nat, p: nat)
    requires i < p <= |s|
    ensures s[i..p] == [s[i]] + s[i + 1..p]
  {
  }
  /** `sub` occurs in `s` at position `i`. */
  predicate At(s: string, i: nat, sub: string) {
    i + |sub| <= |s| && s[i..i + |sub|] == sub
  }

  /** An occurrence that ends inside `a` is an occurrence in `a` alone. */
  lemma AtPrefix(a: string, b: string, i: nat, sub: string)
    requires At(a + b, i, sub) && i + |sub| <= |a|
    ensures At(a, i, sub)
  {
    assert a[i..i + |sub|] == (a + b)[i..i + |sub|];
  }

  /** Python's `sub in s`. */
  predicate Contains(s: string, sub: string) {
    exists i: nat | i <= |s| :: At(s, i, sub)
  }

  /** Python's `s.startswith(prefix)`. */
  predicate StartsWith(s: string, prefix: string) {
    |prefix| <= |s| && s[..|prefix|] == prefix
  }

  // ---------------------------------------------------------------------------
  // strip
  // ---------------------------------------------------------------------------

  /** Python's `s.lstrip(chars)` for the class `P`. */
  function TrimStart(s: string, P: char -> bool): string
    decreases |s|
  {
    if s != [] && P(s[0]) then TrimStart(s[1..], P) else s
  }

  /** `lstrip` removes a prefix of characters of the class, and stops at the first one outside it. */
  lemma {:induction false} TrimStartFacts(s: string, P: char -> bool)
    ensures |TrimStart(s, P)| <= |s| && TrimStart(s, P) == s[|s| - |TrimStart(s, P)|..]
    ensures forall k :: 0 <= k < |s| - |TrimStart(s, P)| ==> P(s[k])
    ensures TrimStart(s, P) != [] ==> !P(TrimStart(s, P)[0])
    decreases |s|
  {
    if s != [] && P(s[0]) {
      TrimStartFacts(s[1..], P);
    }
  }

  /** Python's `s.rstrip(chars)` for the class `P`. */
  function TrimEnd(s: string, P: char -> bool): string
    decreases |s|
  {
    if s != [] && P(s[|s| - 1]) then TrimEnd(s[..|s| - 1], P) else s
  }

  /** `rstrip` removes a suffix of characters of the class, and stops at the last one outside it. */
  lemma {:induction false} TrimEndFacts(s: string, P: char -> bool)
    ensures |TrimEnd(s, P)| <= |s| && TrimEnd(s, P) == s[..|TrimEnd(s, P)|]
    ensures forall k :: |TrimEnd(s, P)| <= k < |s| ==> P(s[k])
    ensures TrimEnd(s, P) != [] ==> !P(TrimEnd(s, P)[|TrimEnd(s, P)| - 1])
    decreases |s|
  {
    if s != [] && P(s[|s| - 1]) {
      TrimEndFacts(s[..|s| - 1], P);
    }
  }

  /** Python's `s.strip(chars)` for the class `P`. */
  function StripBy(s: string, P: char -> bool): string {
    TrimEnd(TrimStart(s, P), P)
  }

  /** Python's `s.strip()`. */
  function Strip(s: string): string {
    StripBy(s, IsSpace)
  }

  /** Python's `s.strip('"').strip("'")`, the quote cleaning used on GRUB values. */
  function StripQuotes(s: string): string {
    StripBy(StripBy(s, IsDoubleQuote), IsSingleQuote)
  }

  /** Stripping leaves a string that already has nothing to strip alone. */
  lemma StripByIdentity(s: string, P: char -> bool)
    requires s == [] || (!P(s[0]) && !P(s[|s| - 1]))
    ensures StripBy(s, P) == s
  {
  }

  /** `strip()` yields the empty string exactly when every character is whitespace. */
  lemma StripEmptyIff(s: string)
    ensures Strip(s) == [] <==> forall k :: 0 <= k < |s| ==> IsSpace(s[k])
  {
    var t := TrimStart(s, IsSpace);
    TrimStartFacts(s, IsSpace);
    TrimEndFacts(t, IsSpace);
  }

  // ---------------------------------------------------------------------------
  // lower, isdigit
  // ---------------------------------------------------------------------------

  function LowerChar(c: char): char {
    if 'A' <= c <= 'Z' then (c as int + 32) as char else c
  }

  /** Python's `s.lower()`, on ASCII letters. */
  function Lower(s: string): (r: string)
    ensures |r| == |s|
    ensures forall k :: 0 <= k < |s| ==> r[k] == LowerChar(s[k])
  {
    seq(|s|, k requires 0 <= k < |s| => LowerChar(s[k]))
  }

  /** Python's `s.isdigit()`: non-empty and made of digits only. */
  predicate IsDigits(s: string) {
    s != [] && forall k :: 0 <= k < |s| ==> IsDigit(s[k])
  }

  // ---------------------------------------------------------------------------
  // join, splitlines
  // ---------------------------------------------------------------------------

  /** Python's `sep.join(parts)`. */
  function Join(parts: seq<string>, sep: string): string {
    if |parts| == 0 then ""
    else if |parts| == 1 then parts[0]
    else parts[0] + sep + Join(parts[1..], sep)
  }

  /** Joining one more part at the end adds the separator and that part. */
  lemma {:induction false} JoinSnoc(parts: seq<string>, p: string, sep: string)
    requires parts != []
    ensures Join(parts + [p], sep) == Join(parts, sep) + sep + p
  {
    if |parts| == 1 {
      assert (parts + [p])[1..] == [p];
    } else {
      assert (parts + [p])[1..] == parts[1..] + [p];
      JoinSnoc(parts[1..], p, sep);
    }
  }

  /** `"\n".join(lines) + "\n"`, the way both writers of this program end a file. */
  function JoinLines(lines: seq<string>): string {
    Join(lines, "\n") + "\n"
  }

  /** Every line followed by its own newline. */
  function Terminated(lines: seq<string>): string {
    if lines == [] then "" else lines[0] + "\n" + Terminated(lines[1..])
  }

  /** For a non-empty list, `"\n".join(lines) + "\n"` puts a newline after every line. */
  lemma {:induction false} JoinLinesTerminated(lines: seq<string>)
    requires lines != []
    ensures JoinLines(lines) == Terminated(lines)
  {
    if |lines| > 1 {
      JoinLinesTerminated(lines[1..]);
    }
  }

  predicate NoLineBreak(s: string) {
    forall k :: 0 <= k < |s| ==> !IsLineBreak(s[k])
  }

  /** Python's `s.splitlines()`: lines without their boundaries, no empty line after a final boundary. */
  function SplitLines(s: string): (lines: seq<string>)
    decreases |s|
  {
    if s == [] then []
    else
      var i := Span(s, 0, IsLineChar);
      if i == |s| then [s]
      else
        var next := if s[i] == '\r' && i + 1 < |s| && s[i + 1] == '\n' then i + 2 else i + 1;
        [s[..i]] + SplitLines(s[next..])
  }

  /** A line without a boundary, then a newline, then more text, splits into that line first. */
  lemma SplitLinesCons(line: string, rest: string)
    requires NoLineBreak(line)
    ensures SplitLines(line + "\n" + rest) == [line] + SplitLines(rest)
  {
    var s := line + "\n" + rest;
    SpanUnique(s, 0, IsLineChar, |line|);
    assert s[..|line|] == line;
    assert s[|line| + 1..] == rest;
  }

  /** Splitting undoes terminating: the lines written one per newline come back unchanged. */
  lemma {:induction false} SplitTerminated(lines: seq<string>)
    requires forall i :: 0 <= i < |lines| ==> NoLineBreak(lines[i])
    ensures SplitLines(Terminated(lines)) == lines
  {
    if lines != [] {
      SplitLinesCons(lines[0], Terminated(lines[1..]));
      SplitTerminated(lines[1..]);
    }
  }

  /** Terminating two lists one after the other terminates their concatenation. */
  lemma {:induction false} TerminatedAppend(a: seq<string>, b: seq<string>)
    ensures Terminated(a + b) == Terminated(a) + Terminated(b)
  {
    if a != [] {
      assert (a + b)[1..] == a[1..] + b;
      TerminatedAppend(a[1..], b);
    } else {
      assert a + b == b;
    }
  }

  /** `"\n".join(lines) + "\n"` is the terminated form of the lines, or of one empty line. */
  lemma JoinLinesAsTerminated(lines: seq<string>)
    ensures JoinLines(lines) == Terminated(if lines == [] then [""] else lines)
  {
    if lines != [] {
      JoinLinesTerminated(lines);
    }
  }

  /** Splitting a terminated block of lines followed by more text gives those lines first. */
  lemma {:induction false} SplitTerminatedAppend(lines: seq<string>, rest: string)
    requires forall i :: 0 <= i < |lines| ==> NoLineBreak(lines[i])
    ensures SplitLines(Terminated(lines) + rest) == lines + SplitLines(rest)
  {
    if lines == [] {
      assert Terminated(lines) + rest == rest;
    } else {
      SplitTerminatedAppend(lines[1..], rest);
      TerminatedConsAppend(lines, rest);
      SplitConsLines(lines[0], Terminated(lines[1..]) + rest, lines[1..], SplitLines(rest));
      assert [lines[0]] + lines[1..] == lines;
    }
  }

  lemma SplitConsLines(line: string, tail: string, tailLines: seq<string>, restLines: seq<string>)
    requires NoLineBreak(line) && SplitLines(tail) == tailLines + restLines
    ensures SplitLines(line + "\n" + tail) == [line] + tailLines + restLines
  {
    SplitLinesCons(line, tail);
  }

  lemma TerminatedConsAppend(lines: seq<string>, rest: string)
    requires lines != []
    ensures Terminated(lines) + rest == lines[0] + "\n" + (Terminated(lines[1..]) + rest)
  {
  }

  /** Concatenation is associative. */
  lemma Assoc(a: string, b: string, c: string)
    ensures a + (b + c) == a + b + c
  {
  }

  /** No line `splitlines()` returns holds a line boundary. */
  lemma {:induction false} SplitLinesNoBreak(s: string)
    ensures forall i :: 0 <= i < |SplitLines(s)| ==> NoLineBreak(SplitLines(s)[i])
    decreases |s|
  {
    if s != [] {
      var i := Span(s, 0, IsLineChar);
      SpanFacts(s, 0, IsLineChar);
      if i < |s| {
        var next := if s[i] == '\r' && i + 1 < |s| && s[i + 1] == '\n' then i + 2 else i + 1;
        SplitLinesNoBreak(s[next..]);
      }
    }
  }

  /** A character absent from the text is absent from each of its lines. */
  lemma {:induction false} SplitLinesLacks(s: string, c: char)
    requires c !in s
    ensures forall i :: 0 <= i < |SplitLines(s)| ==> c !in SplitLines(s)[i]
    decreases |s|
  {
    if s != [] {
      var i := Span(s, 0, IsLineChar);
      if i < |s| {
        var next := if s[i] == '\r' && i + 1 < |s| && s[i + 1] == '\n' then i + 2 else i + 1;
        assert forall k :: 0 <= k < |s[next..]| ==> s[next..][k] in s;
        SplitLinesLacks(s[next..], c);
        assert forall k :: 0 <= k < i ==> s[..i][k] in s;
      }
    }
  }

  /** A character other than `\n` absent from every line is absent from the terminated text. */
  lemma {:induction false} TerminatedLacks(lines: seq<string>, c: char)
    requires c != '\n' && forall i :: 0 <= i < |lines| ==> c !in lines[i]
    ensures c !in Terminated(lines)
  {
    if lines != [] {
      TerminatedLacks(lines[1..], c);
    }
  }

  /** Splitting on `\n` alone, as iterating over a file in text mode does (the final empty piece
      after a closing newline is kept; callers skip it as a blank line). */
  function SplitNewlines(s: string): (pieces: seq<string>)
    ensures |pieces| >= 1
    ensures forall i :: 0 <= i < |pieces| ==> '\n' !in pieces[i]
    decreases |s|
  {
    var i := Span(s, 0, NotNewline);
    SpanFacts(s, 0, NotNewline);
    if i == |s| then [s] else [s[..i]] + SplitNewlines(s[i + 1..])
  }

  /** Splitting on `\n` undoes terminating, with the empty piece after the final newline. */
  /** Splitting a line with no newline, a newline and the rest gives that line first. */
  lemma SplitNewlinesCons(line: string, rest: string)
    requires '\n' !in line
    ensures SplitNewlines(line + "\n" + rest) == [line] + SplitNewlines(rest)
  {
    var s := line + "\n" + rest;
    assert forall k :: 0 <= k < |line| ==> s[k] == line[k];
    assert s[|line|] == '\n';
    SpanUnique(s, 0, NotNewline, |line|);
    assert s[..|line|] == line;
    assert s[|line| + 1..] == rest;
  }

  lemma {:induction false} SplitNewlinesTerminated(lines: seq<string>)
    requires forall i :: 0 <= i < |lines| ==> '\n' !in lines[i]
    ensures SplitNewlines(Terminated(lines)) == lines + [""]
  {
    if lines != [] {
      SplitNewlinesCons(lines[0], Terminated(lines[1..]));
      SplitNewlinesTerminated(lines[1..]);
      assert lines == [lines[0]] + lines[1..];
    }
  }

}
