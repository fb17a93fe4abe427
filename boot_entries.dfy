/**
  Boot-entry extraction: `get_boot_entries` reads `grub.cfg` through `pkexec cat` and collects the
  titles of its `menuentry` lines, with fixed one-element lists for the failure and empty cases;
  the boot manager window disables the Select button of those sentinel rows.
*/
module BootEntries {
  import opened Wrappers
  import opened Text

  /** What running `pkexec cat /boot/grub/grub.cfg` yields. */
  datatype CatOutcome =
    | Output(stdout: string)   // the command succeeded
    | Cancelled                // it exited non-zero: the password prompt was cancelled
    | Failed(message: string)  // any other exception, by its message

  const CancelledEntry: string := "Authentication cancelled"
  const NoEntries: string := "No entries found (Is GRUB installed?)"
  const MenuEntry: string := "menuentry"

  predicate IsQuote(c: char) { c == '\'' || c == '"' }
  predicate NotQuote(c: char) { !IsQuote(c) }

  /** `re.search(r"^\s*menuentry\s+['\"]([^'\"]+)['\"]", line)`: the title between the quotes. */
  function MatchMenuEntry(line: string): Option<string> {
    var i := Span(line, 0, IsSpace);
    if !At(line, i, MenuEntry) then None else MatchAfterKeyword(line[i + |MenuEntry|..])
  }

  /** The rest of the pattern after the keyword: at least one blank, then the quoted title. */
  function MatchAfterKeyword(s: string): Option<string> {
    var k := Span(s, 0, IsSpace);
    if k == 0 then None else MatchQuoted(s[k..])
  }

  /** A quote, at least one non-quote character (the title), a quote. */
  function MatchQuoted(s: string): Option<string> {
    if s == [] || !IsQuote(s[0]) then None
    else
      var e := Span(s, 1, NotQuote);
      if e == 1 || e == |s| then None else Some(s[1..e])
  }

  predicate AllSpace(s: string) {
    forall k :: 0 <= k < |s| ==> IsSpace(s[k])
  }

  predicate NoQuote(s: string) {
    forall k :: 0 <= k < |s| ==> NotQuote(s[k])
  }

  /** A title is never empty and holds no quote. */
  lemma MatchMenuEntryTitle(line: string)
    requires MatchMenuEntry(line).Some?
    ensures MatchMenuEntry(line).value != [] && NoQuote(MatchMenuEntry(line).value)
  {
    var i := Span(line, 0, IsSpace);
    var s := line[i + |MenuEntry|..];
    var q := s[Span(s, 0, IsSpace)..];
    SpanFacts(q, 1, NotQuote);
  }

  /** The shape the pattern accepts: blanks, `menuentry`, at least one blank, a quote, the title,
      a quote, then anything. */
  function MenuEntryLine(indent: string, gap: string, open: char, title: string, close: char, rest: string): string {
    indent + MenuEntry + (gap + ([open] + title + [close] + rest))
  }

  lemma MatchQuotedShape(open: char, title: string, close: char, rest: string)
    requires IsQuote(open) && IsQuote(close) && title != [] && NoQuote(title)
    ensures MatchQuoted([open] + title + [close] + rest) == Some(title)
  {
    var s := [open] + title + [close] + rest;
    var e := 1 + |title|;
    assert forall k :: 1 <= k < e ==> s[k] == title[k - 1];
    SpanUnique(s, 1, NotQuote, e);
    assert s[1..e] == title;
  }

  lemma MatchAfterKeywordShape(gap: string, q: string)
    requires gap != [] && AllSpace(gap) && q != [] && !IsSpace(q[0])
    ensures MatchAfterKeyword(gap + q) == MatchQuoted(q)
  {
    var s := gap + q;
    assert forall k :: 0 <= k < |gap| ==> s[k] == gap[k];
    SpanUnique(s, 0, IsSpace, |gap|);
    assert s[|gap|..] == q;
  }

  /** Every line of that shape yields its title. */
  lemma MatchMenuEntryLine(indent: string, gap: string, open: char, title: string, close: char, rest: string)
    requires AllSpace(indent) && gap != [] && AllSpace(gap)
    requires IsQuote(open) && IsQuote(close) && title != [] && NoQuote(title)
    ensures MatchMenuEntry(MenuEntryLine(indent, gap, open, title, close, rest)) == Some(title)
  {
    var q := [open] + title + [close] + rest;
    var t := gap + q;
    var line := indent + MenuEntry + t;
    var i := |indent|;
    assert forall k :: 0 <= k < i ==> line[k] == indent[k];
    assert line[i] == 'm';
    SpanUnique(line, 0, IsSpace, i);
    assert line[i..i + |MenuEntry|] == MenuEntry;
    assert line[i + |MenuEntry|..] == t;
    MatchAfterKeywordShape(gap, q);
    MatchQuotedShape(open, title, close, rest);
  }

  lemma QuotedShapeOf(q: string) returns (open: char, close: char, rest: string)
    requires MatchQuoted(q).Some?
    ensures IsQuote(open) && IsQuote(close) && q == [open] + MatchQuoted(q).value + [close] + rest
  {
    var e := Span(q, 1, NotQuote);
    SpanFacts(q, 1, NotQuote);
    open, close, rest := q[0], q[e], q[e + 1..];
    var title := q[1..e];
    assert title == MatchQuoted(q).value;
    var w := [open] + title + [close] + rest;
    assert |w| == |q|;
    forall k | 0 <= k < |q|
      ensures w[k] == q[k]
    {
      if k == 0 {
      } else if k < e {
        assert w[k] == title[k - 1];
      } else if k == e {
      } else {
        assert w[k] == rest[k - e - 1];
      }
    }
  }

  lemma AfterKeywordShapeOf(s: string) returns (gap: string, q: string)
    requires MatchAfterKeyword(s).Some?
    ensures gap != [] && AllSpace(gap) && s == gap + q && MatchQuoted(q) == MatchAfterKeyword(s)
  {
    var k := Span(s, 0, IsSpace);
    SpanFacts(s, 0, IsSpace);
    gap, q := s[..k], s[k..];
    assert s == s[..k] + s[k..];
  }

  /** Every line that yields a title has that shape, so a line whose first word is not
      `menuentry` (a `submenu` line, say) yields nothing. */
  lemma MenuEntryLineOf(line: string) returns (indent: string, gap: string, open: char, close: char, rest: string)
    requires MatchMenuEntry(line).Some?
    ensures AllSpace(indent) && gap != [] && AllSpace(gap) && IsQuote(open) && IsQuote(close)
    ensures line == MenuEntryLine(indent, gap, open, MatchMenuEntry(line).value, close, rest)
  {
    var i := Span(line, 0, IsSpace);
    SpanFacts(line, 0, IsSpace);
    indent := line[..i];
    var s := line[i + |MenuEntry|..];
    AtSplit(line, i, MenuEntry);
    var q;
    gap, q := AfterKeywordShapeOf(s);
    open, close, rest := QuotedShapeOf(q);
  }

  lemma AtSplit(s: string, i: nat, sub: string)
    requires At(s, i, sub)
    ensures s == s[..i] + sub + s[i + |sub|..]
  {
    assert s == s[..i] + s[i..i + |sub|] + s[i + |sub|..];
  }

  /** The titles of the matching lines, in line order. */
  function Titles(lines: seq<string>): seq<string> {
    if lines == [] then []
    else
      Titles(lines[..|lines| - 1]) + TitleOf(lines[|lines| - 1])
  }

  /** The title a single line contributes, if any. */
  function TitleOf(line: string): seq<string> {
    match MatchMenuEntry(line)
    case Some(t) => [t]
    case None => []
  }

  /** The titles of two stretches of lines follow each other. */
  lemma {:induction false} TitlesAppend(a: seq<string>, b: seq<string>)
    ensures Titles(a + b) == Titles(a) + Titles(b)
    decreases |b|
  {
    if b == [] {
      assert a + b == a;
    } else {
      var b' := b[..|b| - 1];
      assert (a + b)[..|a + b| - 1] == a + b';
      TitlesAppend(a, b');
    }
  }

  /** Every matching line contributes its title. */
  lemma {:induction false} TitleOfLine(lines: seq<string>, j: nat)
    requires j < |lines| && MatchMenuEntry(lines[j]).Some?
    ensures MatchMenuEntry(lines[j]).value in Titles(lines)
    decreases |lines|
  {
    var prefix := lines[..|lines| - 1];
    if j < |prefix| {
      assert prefix[j] == lines[j];
      TitleOfLine(prefix, j);
    }
  }

  /** Every title comes from some line. */
  lemma {:induction false} TitleSource(lines: seq<string>, t: string) returns (j: nat)
    requires t in Titles(lines)
    ensures j < |lines| && MatchMenuEntry(lines[j]) == Some(t)
    decreases |lines|
  {
    var prefix := lines[..|lines| - 1];
    if t in Titles(prefix) {
      j := TitleSource(prefix, t);
      assert lines[j] == prefix[j];
    } else {
      j := |lines| - 1;
    }
  }

  /** What `get_boot_entries` returns. */
  function BootEntryList(outcome: CatOutcome): (r: seq<string>)
    ensures r != []
  {
    match outcome
    case Cancelled => [CancelledEntry]
    case Failed(message) => ["Error: " + message]
    case Output(content) =>
      var titles := Titles(SplitLines(content));
      if titles == [] then [NoEntries] else titles
  }

  /** `get_boot_entries`: the loop over the lines of the command's output. */
  method GetBootEntries(outcome: CatOutcome) returns (entries: seq<string>)
    ensures entries == BootEntryList(outcome)
  {
    match outcome
    case Cancelled =>
      return [CancelledEntry];
    case Failed(message) =>
      return ["Error: " + message];
    case Output(content) =>
      var lines := SplitLines(content);
      entries := [];
      var i := 0;
      while i < |lines|
        invariant 0 <= i <= |lines|
        invariant entries == Titles(lines[..i])
      {
        assert lines[..i + 1][..i] == lines[..i];
        var title := MatchMenuEntry(lines[i]);
        if title.Some? {
          entries := entries + [title.value];
        }
        i := i + 1;
      }
      assert lines[..i] == lines;
      if entries == [] {
        return [NoEntries];
      }
  }

  /** The Select button of an entry is disabled when the entry reads like one of the sentinels. */
  predicate ButtonDisabled(entry: string) {
    StartsWith(entry, "Error") || StartsWith(entry, "Auth") || StartsWith(entry, "No entries")
  }

  /** The rule looks only at the start of the entry: a disabled entry begins with `E`, `A` or `N`
      and at least four characters, and stays disabled whatever follows it. */
  lemma ButtonRule(entry: string, rest: string)
    ensures ButtonDisabled(entry) ==> |entry| >= 4 && (entry[0] == 'E' || entry[0] == 'A' || entry[0] == 'N')
    ensures ButtonDisabled(entry) ==> ButtonDisabled(entry + rest)
  {
    if ButtonDisabled(entry) {
      var p := if StartsWith(entry, "Error") then "Error" else if StartsWith(entry, "Auth") then "Auth" else "No entries";
      assert StartsWith(entry, p);
      assert entry[0] == entry[..|p|][0] == p[0];
      assert (entry + rest)[..|p|] == entry[..|p|];
    }
  }

  /** Every failure and the empty case produce exactly one entry, whose button is disabled. */
  lemma SentinelsDisabled(outcome: CatOutcome)
    requires !outcome.Output? || Titles(SplitLines(outcome.stdout)) == []
    ensures |BootEntryList(outcome)| == 1 && ButtonDisabled(BootEntryList(outcome)[0])
  {
    match outcome
    case Cancelled =>
      assert CancelledEntry[..4] == "Auth";
    case Failed(message) =>
      assert ("Error: " + message)[..5] == "Error";
    case Output(_) =>
      assert NoEntries[..10] == "No entries";
  }

  /** When some line matches, the result is exactly the titles, in line order. */
  lemma EntriesAreTitles(content: string, j: nat)
    requires j < |SplitLines(content)| && MatchMenuEntry(SplitLines(content)[j]).Some?
    ensures BootEntryList(Output(content)) == Titles(SplitLines(content))
  {
    TitleOfLine(SplitLines(content), j);
  }
}
