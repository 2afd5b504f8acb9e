/** Line classification of the markdown renderer: each line of the response
    is a heading, an item of an ordered or bulleted list, a blank line or a
    paragraph, tested in that priority order. The regular expressions of the
    source are written out as prefix checks and scans. */
module MarkdownLines {
  import opened Wrappers
  import opened JsStrings

  /** The renderer's `listType`: `'ol'` or `'ul'`. */
  datatype ListKind = Ordered | Bullet

  /** What one line is, with the text that remains once its marker is stripped. */
  datatype LineKind =
    | Heading(level: nat, text: string)
    | Item(kind: ListKind, text: string)
    | Blank
    | Paragraph(text: string)

  /** The marker of the heading of the given level: `"# "`, `"## "` or `"### "`. */
  function HeadingMarker(level: nat): string
    requires 1 <= level <= 3
  {
    if level == 1 then "# " else if level == 2 then "## " else "### "
  }

  /** The text of a heading line: `/^<marker>(.*$)/` matches when the line
      starts with the marker and the rest holds no line terminator (`.` does
      not match one and `$` is the end of the input); `replace` then drops
      the marker. */
  function HeadingText(line: string, marker: string): Option<string> {
    if StartsWith(line, marker) && NoLineTerminator(line[|marker|..]) then Some(line[|marker|..])
    else None
  }

  /** The length of the longest prefix of ASCII digits. */
  function DigitRun(s: string): (n: nat)
    ensures n <= |s|
    ensures forall i :: 0 <= i < n ==> IsDigit(s[i])
    ensures n < |s| ==> !IsDigit(s[n])
  {
    if |s| == 0 || !IsDigit(s[0]) then 0
    else
      var m := DigitRun(s[1..]);
      assert forall i :: 1 <= i < m + 1 ==> s[i] == s[1..][i - 1];
      m + 1
  }

  /** What follows a list marker. `\s+(.*$)` matches when `t` starts with
      whitespace and what follows its longest whitespace prefix holds no line
      terminator (taking less whitespace only moves whitespace into `.*`, so
      backtracking cannot help); `replace(/...\s+/, '')` drops that prefix. */
  function ListItemTail(t: string): Option<string> {
    var w := LeadingWhitespace(t);
    if w > 0 && NoLineTerminator(t[w..]) then Some(t[w..]) else None
  }

  /** `/^\d+\.\s+(.*$)/`, and the text left by `replace(/^\d+\.\s+/, '')`. */
  function OrderedItemText(line: string): Option<string> {
    var d := DigitRun(line);
    if 0 < d < |line| && line[d] == '.' then ListItemTail(line[d + 1..]) else None
  }

  /** `/^[\*\-]\s+(.*$)/`, and the text left by `replace(/^[\*\-]\s+/, '')`. */
  function BulletItemText(line: string): Option<string> {
    if |line| > 0 && (line[0] == '*' || line[0] == '-') then ListItemTail(line[1..]) else None
  }

  /** The classification of one line, tests in the source's order. */
  function Classify(line: string): LineKind {
    if HeadingText(line, "### ").Some? then Heading(3, HeadingText(line, "### ").value)
    else if HeadingText(line, "## ").Some? then Heading(2, HeadingText(line, "## ").value)
    else if HeadingText(line, "# ").Some? then Heading(1, HeadingText(line, "# ").value)
    else if OrderedItemText(line).Some? then Item(Ordered, OrderedItemText(line).value)
    else if BulletItemText(line).Some? then Item(Bullet, BulletItemText(line).value)
    else if Trim(line) == [] then Blank
    else Paragraph(line)
  }

  function ClassifyAll(lines: seq<string>): (kinds: seq<LineKind>)
    ensures |kinds| == |lines|
    ensures forall i :: 0 <= i < |lines| ==> kinds[i] == Classify(lines[i])
  {
    if lines == [] then [] else [Classify(lines[0])] + ClassifyAll(lines[1..])
  }

  /** An ordered-list marker: digits, a dot, and whitespace. */
  predicate IsOrderedMarker(m: string) {
    var d := DigitRun(m);
    0 < d && d + 1 < |m| && m[d] == '.' && AllWhitespace(m[d + 1..])
  }

  /** A bullet marker: `*` or `-`, then whitespace. */
  predicate IsBulletMarker(m: string) {
    |m| >= 2 && (m[0] == '*' || m[0] == '-') && AllWhitespace(m[1..])
  }

  predicate IsListMarker(kind: ListKind, m: string) {
    match kind
    case Ordered => IsOrderedMarker(m)
    case Bullet => IsBulletMarker(m)
  }

  /** The text of a list item: no line terminator, and it does not start with
      whitespace, since the marker's whitespace run is taken greedily. */
  predicate IsItemText(c: string) {
    NoLineTerminator(c) && (c == [] || !IsWhitespace(c[0]))
  }

  /** The text of an ordered item is what follows an ordered-list marker. */
  lemma OrderedItemExplainsLine(line: string, c: string)
    requires OrderedItemText(line) == Some(c)
    ensures |c| < |line| && line == line[..|line| - |c|] + c
    ensures IsOrderedMarker(line[..|line| - |c|]) && IsItemText(c)
  {
    var d := DigitRun(line);
    var t := line[d + 1..];
    var w := LeadingWhitespace(t);
    var cut := d + 1 + w;
    var m := line[..cut];
    assert c == t[w..] && |line| - |c| == cut;
    assert line == m + c;
    assert DigitRun(m) == d by {
      DigitRunOfPrefix(line, cut);
    }
    assert m[d] == '.' && d + 1 < |m|;
    assert AllWhitespace(m[d + 1..]) by {
      var r := m[d + 1..];
      forall j | 0 <= j < |r| ensures IsWhitespace(r[j]) {
        assert r[j] == t[..w][j];
      }
    }
    assert IsItemText(c) by {
      assert w < |t| ==> c[0] == t[w];
    }
  }

  /** The text of a bullet item is what follows a bullet marker. */
  lemma BulletItemExplainsLine(line: string, c: string)
    requires BulletItemText(line) == Some(c)
    ensures |c| < |line| && line == line[..|line| - |c|] + c
    ensures IsBulletMarker(line[..|line| - |c|]) && IsItemText(c)
  {
    var t := line[1..];
    var w := LeadingWhitespace(t);
    assert c == t[w..] && |line| - |c| == 1 + w;
    assert line == line[..1 + w] + c;
    assert line[..1 + w][1..] == t[..w];
  }

  // What a classification says about the line: the line is its marker
  // followed by the text, a blank line is all whitespace, and a paragraph
  // keeps the line verbatim.

  lemma ClassifyExplainsHeading(line: string)
    requires Classify(line).Heading?
    ensures var l, c := Classify(line).level, Classify(line).text;
      1 <= l <= 3 && line == HeadingMarker(l) + c && NoLineTerminator(c)
  {
    var l, c := Classify(line).level, Classify(line).text;
    assert line == line[..|HeadingMarker(l)|] + c;
  }

  lemma ClassifyExplainsItem(line: string)
    requires Classify(line).Item?
    ensures var k, c := Classify(line).kind, Classify(line).text;
      |c| < |line| && line == line[..|line| - |c|] + c
      && IsListMarker(k, line[..|line| - |c|]) && IsItemText(c)
  {
    var c := Classify(line).text;
    if Classify(line).kind == Ordered {
      OrderedItemExplainsLine(line, c);
    } else {
      BulletItemExplainsLine(line, c);
    }
  }

  lemma ClassifyExplainsBlank(line: string)
    ensures Classify(line) == Blank ==> AllWhitespace(line)
  {
  }

  lemma ClassifyExplainsParagraph(line: string)
    requires Classify(line).Paragraph?
    ensures Classify(line).text == line && !AllWhitespace(line)
  {
  }

  /** The longest digit prefix of `s` is also that of any prefix of `s` that
      reaches past it. */
  lemma {:induction false} DigitRunOfPrefix(s: string, n: nat)
    requires DigitRun(s) < n <= |s|
    ensures DigitRun(s[..n]) == DigitRun(s)
  {
    if DigitRun(s) > 0 {
      assert s[..n][1..] == s[1..][..n - 1];
      DigitRunOfPrefix(s[1..], n - 1);
    }
  }

  /** Digits followed by a non-digit keep their run whatever comes after. */
  lemma {:induction false} DigitRunOfConcat(s: string, t: string)
    requires DigitRun(s) < |s|
    ensures DigitRun(s + t) == DigitRun(s)
  {
    if DigitRun(s) > 0 {
      assert (s + t)[1..] == s[1..] + t;
      DigitRunOfConcat(s[1..], t);
    }
  }

  /** Whitespace followed by text that does not start with whitespace. */
  lemma {:induction false} LeadingWhitespaceOfConcat(w: string, c: string)
    requires AllWhitespace(w) && (c == [] || !IsWhitespace(c[0]))
    ensures LeadingWhitespace(w + c) == |w|
  {
    if w != [] {
      assert (w + c)[1..] == w[1..] + c;
      LeadingWhitespaceOfConcat(w[1..], c);
    } else {
      assert w + c == c;
    }
  }

  // Conversely, each kind of line is classified as such.

  lemma ClassifyHeadingLine(l: nat, c: string)
    requires 1 <= l <= 3 && NoLineTerminator(c)
    ensures Classify(HeadingMarker(l) + c) == Heading(l, c)
  {
    var marker := HeadingMarker(l);
    var line := marker + c;
    assert line[|marker|..] == c && line[..|marker|] == marker;
    assert HeadingText(line, marker) == Some(c);
    if l < 3 {
      assert line[l] == ' ' && "### "[l] == '#';
      assert HeadingText(line, "### ") == None;
    }
    if l < 2 {
      assert line[1] == ' ' && "## "[1] == '#';
      assert HeadingText(line, "## ") == None;
    }
  }

  /** A line that does not start with `#` is not a heading of any level. */
  lemma NoHeading(line: string)
    requires line != [] && line[0] != '#'
    ensures HeadingText(line, "### ") == None && HeadingText(line, "## ") == None
    ensures HeadingText(line, "# ") == None
  {
  }

  lemma ClassifyOrderedLine(m: string, c: string)
    requires IsOrderedMarker(m) && IsItemText(c)
    ensures Classify(m + c) == Item(Ordered, c)
  {
    var line := m + c;
    var d := DigitRun(m);
    DigitRunOfConcat(m, c);
    assert line[0] == m[0] && IsDigit(m[0]);
    NoHeading(line);
    assert line[d] == '.';
    assert line[d + 1..] == m[d + 1..] + c;
    LeadingWhitespaceOfConcat(m[d + 1..], c);
    assert line[d + 1..][|m| - d - 1..] == c;
    assert OrderedItemText(line) == Some(c);
  }

  lemma ClassifyBulletLine(m: string, c: string)
    requires IsBulletMarker(m) && IsItemText(c)
    ensures Classify(m + c) == Item(Bullet, c)
  {
    var line := m + c;
    assert line[0] == m[0] && !IsDigit(line[0]);
    NoHeading(line);
    assert OrderedItemText(line) == None;
    assert line[1..] == m[1..] + c;
    LeadingWhitespaceOfConcat(m[1..], c);
    assert line[1..][|m| - 1..] == c;
    assert BulletItemText(line) == Some(c);
  }

  lemma ClassifyBlankLine(line: string)
    requires AllWhitespace(line)
    ensures Classify(line) == Blank
  {
    if line != [] {
      assert IsWhitespace(line[0]);
    }
  }

  /** A line that does not start like a heading or a list item, and is not
      blank, is a paragraph holding the line verbatim. */
  lemma ClassifyParagraphLine(line: string)
    requires line != [] && !AllWhitespace(line)
    requires line[0] != '#' && line[0] != '*' && line[0] != '-' && !IsDigit(line[0])
    ensures Classify(line) == Paragraph(line)
  {
  }
}
