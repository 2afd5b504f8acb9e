/** The inline pass of the markdown renderer: four global regular-expression
    replacements applied in a fixed order to the whole html the structural
    pass wrote — bold, italic, inline code, then fenced code. Each of them has
    the shape `/D(C)D/g`, replaced by an opening tag, the captured text and a
    closing tag; they differ in the delimiter `D` and in what the content `C`
    may be. */
module MarkdownInline {
  import opened Wrappers
  import opened JsStrings
  import opened MarkdownTags

  /** One global replacement. `dotAll` is true when the content may hold
      line terminators (`[\s\S]` or `[^`]`) and false for `.`; `nonEmpty`
      is true for a one-or-more content (`[^`]+`). */
  datatype Pattern = Pattern(delim: string, dotAll: bool, nonEmpty: bool, open: string, close: string)

  // `/\*\*(.*?)\*\*/g` to `<strong>$1</strong>`.
  const Bold := Pattern("**", false, false, "<strong>", "</strong>")
  // `/\*(.*?)\*/g` to `<em>$1</em>`.
  const Italic := Pattern("*", false, false, "<em>", "</em>")
  // `` /`([^`]+)`/g `` to a `code` span: the greedy `[^`]+` runs to the next
  // backtick, which must not be the very next character.
  const InlineCode := Pattern("`", true, true, CodeOpen, "</code>")
  // `` /```([\s\S]*?)```/g `` to a preformatted block.
  const Fence := Pattern("```", true, false, PreOpen, "</code></pre>")

  predicate ValidPattern(p: Pattern) {
    |p.delim| > 0
  }

  /** The closing delimiter at index `k` of `t` ends a lazily matched content
      `t[..k]`: it is there, and `.` could match everything before it. */
  predicate ClosesAt(t: string, k: int, p: Pattern) {
    OccursAt(t, k, p.delim) && (p.dotAll || NoLineTerminator(t[..k]))
  }

  /** The lazy search for the closing delimiter, from index `k` of `t` on:
      the first index where it closes, or `None` when it never does. */
  function FindClose(t: string, p: Pattern, k: nat): (r: Option<nat>)
    requires ValidPattern(p) && k <= |t|
    requires forall j :: 0 <= j < k ==> !OccursAt(t, j, p.delim)
    requires p.dotAll || NoLineTerminator(t[..k])
    ensures r.Some? ==> ClosesAt(t, r.value, p) && forall j :: 0 <= j < r.value ==> !ClosesAt(t, j, p)
    ensures r.None? ==> forall j :: 0 <= j <= |t| ==> !ClosesAt(t, j, p)
    decreases |t| - k
  {
    if OccursAt(t, k, p.delim) then Some(k)
    else if k == |t| || (!p.dotAll && IsLineTerminator(t[k])) then
      assert forall j :: k < j <= |t| ==> !p.dotAll && t[..j][k] == t[k];
      None
    else
      assert t[..k + 1] == t[..k] + [t[k]];
      FindClose(t, p, k + 1)
  }

  /** The pattern matches at the start of `s` with a content of length `k`:
      the delimiter is there, the closing delimiter ends the content at `k`
      and at no earlier index (the search is lazy, and `[^`]+` runs to the
      first backtick), and a one-or-more content is not empty. */
  predicate LazyMatch(s: string, p: Pattern, k: int) {
    && StartsWith(s, p.delim) && ClosesAt(s[|p.delim|..], k, p)
    && (forall j :: 0 <= j < k ==> !ClosesAt(s[|p.delim|..], j, p))
    && (p.nonEmpty ==> k > 0)
  }

  /** The length of the content when the pattern matches at the start of
      `s`, and `None` when no match starts there. */
  function MatchAt(s: string, p: Pattern): (r: Option<nat>)
    requires ValidPattern(p)
    ensures r.Some? ==> LazyMatch(s, p, r.value)
    ensures r.Some? ==> 2 * |p.delim| + r.value <= |s|
    ensures r.None? ==> forall k :: !LazyMatch(s, p, k)
  {
    if StartsWith(s, p.delim) then
      var r := FindClose(s[|p.delim|..], p, 0);
      if r.Some? && (!p.nonEmpty || r.value > 0) then r else None
    else None
  }

  /** What the scan writes at the start of `s`: the tagged content of the
      match `m`, or the first character when no match starts there. */
  function Emitted(s: string, p: Pattern, m: Option<nat>): string
    requires s != [] && (m.Some? ==> |p.delim| + m.value <= |s|)
  {
    if m.Some? then p.open + s[|p.delim|..|p.delim| + m.value] + p.close else [s[0]]
  }

  /** How far the scan moves on: past the whole match, or by one character. */
  function Consumed(p: Pattern, m: Option<nat>): nat {
    if m.Some? then 2 * |p.delim| + m.value else 1
  }

  /** `s.replace(/D(C)D/g, open + '$1' + close)`: scanning from the left, a
      match is replaced and the scan resumes after it; where none starts, the
      character is kept and the scan moves on by one. */
  function Replace(s: string, p: Pattern): string
    requires ValidPattern(p)
    decreases |s|
  {
    if s == [] then []
    else
      var m := MatchAt(s, p);
      Emitted(s, p, m) + Replace(s[Consumed(p, m)..], p)
  }

  /** A match has one content length, the one the search finds. */
  lemma MatchIsUnique(s: string, p: Pattern, k: int)
    requires ValidPattern(p) && LazyMatch(s, p, k)
    ensures MatchAt(s, p) == Some(k)
  {
    var m := MatchAt(s, p);
    assert m.Some?;
  }

  /** At a match, the scan writes the content between the tags and resumes
      after the closing delimiter. */
  lemma ReplaceAtMatch(s: string, p: Pattern, k: nat)
    requires ValidPattern(p) && LazyMatch(s, p, k)
    ensures 2 * |p.delim| + k <= |s|
    ensures Replace(s, p) == p.open + s[|p.delim|..|p.delim| + k] + p.close + Replace(s[2 * |p.delim| + k..], p)
  {
    var d := |p.delim|;
    assert 2 * d + k <= |s| && Replace(s, p) == Emitted(s, p, Some(k)) + Replace(s[Consumed(p, Some(k))..], p) by {
      MatchIsUnique(s, p, k);
      ReplaceAtFound(s, p, k);
    }
    Reassemble(Replace(s, p), s, p, k);
  }

  /** Where no match starts, the scan keeps the character and moves on. */
  lemma ReplaceWithoutMatch(s: string, p: Pattern)
    requires ValidPattern(p) && s != [] && forall k :: !LazyMatch(s, p, k)
    ensures Replace(s, p) == [s[0]] + Replace(s[1..], p)
  {
  }

  /** The inline pass, in the source's order. */
  function InlinePass(s: string): string {
    Replace(Replace(Replace(Replace(s, Bold), Italic), InlineCode), Fence)
  }

  /** Without the delimiter's first character there is nothing to replace. */
  lemma {:induction false} ReplaceIdentity(s: string, p: Pattern)
    requires ValidPattern(p) && p.delim[0] !in s
    ensures Replace(s, p) == s
    decreases |s|
  {
    if s != [] {
      assert s[0] != p.delim[0];
      ReplaceIdentity(s[1..], p);
    }
  }

  /** A replacement introduces no character that is in neither its input nor its tags. */
  lemma {:induction false} ReplaceAvoids(s: string, p: Pattern, c: char)
    requires ValidPattern(p) && c !in s && c !in p.open && c !in p.close
    ensures c !in Replace(s, p)
    decreases |s|
  {
    if s != [] {
      var m := MatchAt(s, p);
      ReplaceAvoids(s[Consumed(p, m)..], p, c);
      if m.Some? {
        assert c !in s[|p.delim|..|p.delim| + m.value];
      }
    }
  }

  /** Input with no `*` and no backtick passes through the inline pass unchanged. */
  lemma InlinePassIdentity(s: string)
    requires '*' !in s && '`' !in s
    ensures InlinePass(s) == s
  {
    ReplaceIdentity(s, Bold);
    ReplaceIdentity(s, Italic);
    ReplaceIdentity(s, InlineCode);
    ReplaceIdentity(s, Fence);
  }

  /** The last three passes leave alone a text with no `*` and no backtick. */
  lemma InlinePassIdentityFrom(r: string)
    requires '*' !in r && '`' !in r
    ensures Replace(Replace(Replace(r, Italic), InlineCode), Fence) == r
  {
    ReplaceIdentity(r, Italic);
    ReplaceIdentity(r, InlineCode);
    ReplaceIdentity(r, Fence);
  }

  /** The inline pass introduces no character absent from its input and from
      all of its tags; a newline in particular. */
  lemma InlinePassAvoids(s: string, c: char)
    requires c !in s
    requires c !in Bold.open && c !in Bold.close && c !in Italic.open && c !in Italic.close
    requires c !in InlineCode.open && c !in InlineCode.close && c !in Fence.open && c !in Fence.close
    ensures c !in InlinePass(s)
  {
    ReplaceAvoids(s, Bold, c);
    ReplaceAvoids(Replace(s, Bold), Italic, c);
    ReplaceAvoids(Replace(Replace(s, Bold), Italic), InlineCode, c);
    ReplaceAvoids(Replace(Replace(Replace(s, Bold), Italic), InlineCode), Fence, c);
  }

  /** No tag of the inline pass holds a newline. */
  lemma PatternTagsHaveNoNewline()
    ensures '\n' !in Bold.open && '\n' !in Bold.close && '\n' !in Italic.open && '\n' !in Italic.close
    ensures '\n' !in InlineCode.open && '\n' !in InlineCode.close && '\n' !in Fence.open && '\n' !in Fence.close
  {
    CodeOpenIsPlain();
    PreOpenIsPlain();
    InlineTagsArePlain();
    PlainExcludes(CodeOpen);
    PlainExcludes(PreOpen);
    PlainExcludes("<strong>");
    PlainExcludes("</strong>");
    PlainExcludes("<em>");
    PlainExcludes("</em>");
    PlainExcludes("</code>");
    PlainExcludes("</code></pre>");
  }

  // Undoing a replacement.

  /** The tags of a pattern are markup: they start with `<`, and the closing
      tag differs from the opening one at its second character. */
  predicate TaggedPattern(p: Pattern) {
    && ValidPattern(p) && |p.open| >= 2 && |p.close| >= 2
    && p.open[0] == '<' && p.close[0] == '<' && p.open[1] != p.close[1]
  }

  /** Each opening or closing tag of the pattern turned back into its delimiter. */
  function Restore(x: string, p: Pattern): string
    requires TaggedPattern(p)
    decreases |x|
  {
    if x == [] then []
    else if StartsWith(x, p.open) then p.delim + Restore(x[|p.open|..], p)
    else if StartsWith(x, p.close) then p.delim + Restore(x[|p.close|..], p)
    else [x[0]] + Restore(x[1..], p)
  }

  lemma {:induction false} RestorePlain(a: string, y: string, p: Pattern)
    requires TaggedPattern(p) && '<' !in a
    ensures Restore(a + y, p) == a + Restore(y, p)
    decreases |a|
  {
    if a == [] {
      assert a + y == y;
    } else {
      assert (a + y)[0] == a[0] && (a + y)[1..] == a[1..] + y;
      RestorePlain(a[1..], y, p);
      AppendAssoc([a[0]], a[1..], Restore(y, p));
      assert [a[0]] + a[1..] == a;
    }
  }

  lemma RestoreOpen(z: string, p: Pattern)
    requires TaggedPattern(p)
    ensures Restore(p.open + z, p) == p.delim + Restore(z, p)
  {
    assert (p.open + z)[..|p.open|] == p.open && (p.open + z)[|p.open|..] == z;
  }

  lemma RestoreClose(z: string, p: Pattern)
    requires TaggedPattern(p)
    ensures Restore(p.close + z, p) == p.delim + Restore(z, p)
  {
    var x := p.close + z;
    assert x[1] == p.close[1];
    assert x[..|p.close|] == p.close && x[|p.close|..] == z;
  }

  /** A match splits the text into the delimiter, the content, the
      delimiter again and the rest. */
  lemma MatchSplits(s: string, p: Pattern, k: nat)
    requires StartsWith(s, p.delim) && ClosesAt(s[|p.delim|..], k, p)
    ensures s == p.delim + s[|p.delim|..|p.delim| + k] + p.delim + s[2 * |p.delim| + k..]
  {
    var d := |p.delim|;
    assert s[d..][k..k + d] == s[d + k..2 * d + k];
    assert s == s[..d] + s[d..d + k] + s[d + k..2 * d + k] + s[2 * d + k..];
  }

  /** Tags around a content without `<` turn back into the delimiters. */
  lemma WrapRoundTrip(content: string, replaced: string, p: Pattern)
    requires TaggedPattern(p) && '<' !in content
    ensures Restore(p.open + content + p.close + replaced, p) == p.delim + content + p.delim + Restore(replaced, p)
  {
    calc {
      Restore(p.open + content + p.close + replaced, p);
      { AppendAssoc(p.open + content, p.close, replaced);
        AppendAssoc(p.open, content, p.close + replaced); }
      Restore(p.open + (content + (p.close + replaced)), p);
      { RestoreOpen(content + (p.close + replaced), p); }
      p.delim + Restore(content + (p.close + replaced), p);
      { RestorePlain(content, p.close + replaced, p); }
      p.delim + (content + Restore(p.close + replaced, p));
      { RestoreClose(replaced, p); }
      p.delim + (content + (p.delim + Restore(replaced, p)));
      { AppendAssoc(p.delim, content, p.delim + Restore(replaced, p));
        AppendAssoc(p.delim + content, p.delim, Restore(replaced, p)); }
      p.delim + content + p.delim + Restore(replaced, p);
    }
  }

  /** One position of the scan round-trips, given that what follows it does. */
  lemma StepRoundTrip(s: string, p: Pattern, m: Option<nat>, r: string)
    requires TaggedPattern(p) && s != [] && '<' !in s
    requires m.Some? ==> StartsWith(s, p.delim) && ClosesAt(s[|p.delim|..], m.value, p)
    requires m.Some? ==> 2 * |p.delim| + m.value <= |s|
    requires Restore(r, p) == s[Consumed(p, m)..]
    ensures Restore(Emitted(s, p, m) + r, p) == s
  {
    if m.Some? {
      var d, k := |p.delim|, m.value;
      var content := s[d..d + k];
      assert Emitted(s, p, m) == p.open + content + p.close;
      assert Restore(r, p) == s[2 * d + k..];
      assert Restore(p.open + content + p.close + r, p) == p.delim + content + p.delim + Restore(r, p) by {
        assert '<' !in content;
        WrapRoundTrip(content, r, p);
      }
      MatchSplits(s, p, k);
    } else {
      RestorePlain([s[0]], r, p);
      assert [s[0]] + s[1..] == s;
    }
  }

  /** On text holding no `<`, a replacement only wraps matched contents in
      its tags and drops their delimiters: turning the tags back into
      delimiters gives the input again. */
  lemma {:induction false} ReplaceRoundTrip(s: string, p: Pattern)
    requires TaggedPattern(p) && '<' !in s
    ensures Restore(Replace(s, p), p) == s
    decreases |s|
  {
    if s != [] {
      var m := MatchAt(s, p);
      var rest := s[Consumed(p, m)..];
      assert '<' !in rest;
      ReplaceRoundTrip(rest, p);
      StepRoundTrip(s, p, m, Replace(rest, p));
    }
  }

  /** `**a**` is matched with the one-character content `a`. */
  lemma BoldMatchExample()
    ensures LazyMatch("**a**", Bold, 1)
  {
    var t := "**a**"[2..];
    assert t == "a**";
    assert !ClosesAt(t, 0, Bold) by {
      assert t[0..2][0] == 'a';
    }
    assert ClosesAt(t, 1, Bold) by {
      assert t[1..3] == "**" && t[..1] == "a";
    }
  }

  /** `**a**` becomes `<strong>a</strong>`. */
  lemma BoldExample()
    ensures Replace("**a**", Bold) == Bold.open + "a" + Bold.close
  {
    var s := "**a**";
    BoldMatchExample();
    ReplaceAtMatch(s, Bold, 1);
    assert s[2..3] == "a" && s[5..] == [];
    assert Replace([], Bold) == [];
  }

  /** The later passes leave the bold span alone: the whole inline pass
      turns `**a**` into `<strong>a</strong>`. */
  lemma InlinePassBoldExample()
    ensures InlinePass("**a**") == Bold.open + "a" + Bold.close
  {
    var r := Bold.open + "a" + Bold.close;
    BoldExample();
    assert '*' !in r && '`' !in r by {
      InlineTagsArePlain();
      assert Plain("a");
      PlainConcat(Bold.open, "a");
      PlainConcat(Bold.open + "a", Bold.close);
      PlainExcludes(r);
    }
    InlinePassIdentityFrom(r);
  }

  /** All four patterns of the inline pass are tagged. */
  lemma InlinePatternsTagged()
    ensures TaggedPattern(Bold) && TaggedPattern(Italic)
    ensures TaggedPattern(InlineCode) && TaggedPattern(Fence)
  {
    assert Bold.open[1] == 's' && Bold.close[1] == '/';
    assert Italic.open[1] == 'e' && Italic.close[1] == '/';
    InlineTagsStart();
    assert InlineCode.close[1] == '/';
    assert Fence.close[1] == '/';
  }

  // Proof steps used by the lemmas above.

  /** The scan's step at a match of length `k`, written out. */
  lemma Reassemble(x: string, s: string, p: Pattern, k: nat)
    requires ValidPattern(p) && 2 * |p.delim| + k <= |s|
    requires x == Emitted(s, p, Some(k)) + Replace(s[Consumed(p, Some(k))..], p)
    ensures x == p.open + s[|p.delim|..|p.delim| + k] + p.close + Replace(s[2 * |p.delim| + k..], p)
  {
    assert Consumed(p, Some(k)) == 2 * |p.delim| + k;
  }

  lemma ReplaceAtFound(s: string, p: Pattern, k: nat)
    requires ValidPattern(p) && MatchAt(s, p) == Some(k)
    ensures Replace(s, p) == Emitted(s, p, Some(k)) + Replace(s[Consumed(p, Some(k))..], p)
  {
    ReplaceUnfold(s, p);
  }

  /** One step of the scan. */
  lemma ReplaceUnfold(s: string, p: Pattern)
    requires ValidPattern(p) && s != []
    ensures Replace(s, p) == Emitted(s, p, MatchAt(s, p)) + Replace(s[Consumed(p, MatchAt(s, p))..], p)
  {
  }
}
