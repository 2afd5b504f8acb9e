/** The markdown renderer as a whole: the coercion of a non-string input,
    the split into lines, the structural loop and the inline pass.

    `RenderLines` is the loop itself, written as the source writes it, and
    `Render` wraps it with the coercion and the inline pass. Both are proved
    to compute their specification: `RenderSpec`, the composition of the
    specification functions of the stages, and the block view of the
    structure. */
module MarkdownRender {
  import opened Wrappers
  import opened JsValues
  import opened JsStrings
  import opened MarkdownLines
  import opened MarkdownStructure
  import opened MarkdownTags
  import opened MarkdownInline

  /** The text rendered in place of a falsy non-string input. */
  const NoContent := "No response content"

  /** `String(text || 'No response content')` for an input that is not a
      string; a string is used as it is. `stringOf` is `String` on the
      values that are not strings. */
  function Coerce(text: Value, stringOf: Value -> string): string {
    if text.Str? then text.sval
    else if Truthy(text) then stringOf(text)
    else NoContent
  }

  /** What the renderer returns for `text`. */
  function RenderSpec(text: Value, stringOf: Value -> string): string {
    InlinePass(Structure(Split(Coerce(text, stringOf))))
  }

  /** The renderer: one pass over the lines of the coerced text that
      updates `html`, `inList` and `listType`, the closing of a list left
      open, then the four inline replacements. */
  method Render(text: Value, stringOf: Value -> string) returns (html: string)
    ensures html == RenderSpec(text, stringOf)
    ensures html == InlinePass(Serialize(Group(ClassifyAll(Split(Coerce(text, stringOf))))))
  {
    var s := Coerce(text, stringOf);
    var lines := Split(s);
    var out := RenderLines(lines);
    html := InlinePass(out);
    StructureIsBlocks(lines);
  }

  /** The loop over the lines and the closing of a list left open. */
  method RenderLines(lines: seq<string>) returns (out: string)
    ensures out == Structure(lines)
    ensures out == Serialize(Group(ClassifyAll(lines)))
  {
    ghost var ks := ClassifyAll(lines);
    out := "";
    var inList := false;
    var listType: Option<ListKind> := None;
    assert PassState(out, inList, listType) == Start && ks[0..] == ks;
    for i := 0 to |lines|
      invariant PassFrom(PassState(out, inList, listType), ks[i..]) == Structure(lines)
    {
      ghost var st := PassState(out, inList, listType);
      out, inList, listType := RenderLine(out, inList, listType, lines[i]);
      LoopStep(st, PassState(out, inList, listType), lines, i);
    }
    assert Finish(PassState(out, inList, listType)) == Structure(lines) by {
      assert ks[|lines|..] == [];
    }
    if inList {
      out := out + ListClose;
    }
    StructureIsBlocks(lines);
  }

  /** The loop's step on line `i` is the pass's step on its classification. */
  lemma LoopStep(st: PassState, st': PassState, lines: seq<string>, i: nat)
    requires i < |lines| && st' == Step(st, Classify(lines[i]))
    ensures PassFrom(st, ClassifyAll(lines)[i..]) == PassFrom(st', ClassifyAll(lines)[i + 1..])
  {
    var ks := ClassifyAll(lines);
    PassFromStep(st, ks[i..]);
    assert ks[i..][0] == Classify(lines[i]) && ks[i..][1..] == ks[i + 1..];
  }

  /** The body of the loop for one line: the same flags and html as one
      `Step` on the line's classification. */
  method RenderLine(html: string, inList: bool, listType: Option<ListKind>, line: string)
    returns (html': string, inList': bool, listType': Option<ListKind>)
    ensures PassState(html', inList', listType') == Step(PassState(html, inList, listType), Classify(line))
  {
    var out := html;
    inList', listType' := inList, listType;
    var h3, h2, h1 := HeadingText(line, "### "), HeadingText(line, "## "), HeadingText(line, "# ");
    var ordered, bullet := OrderedItemText(line), BulletItemText(line);
    if h3.Some? || h2.Some? || h1.Some? {
      if inList' {
        out := out + ListClose;
        inList' := false;
      }
      if h3.Some? {
        out := out + HeadingHtml(3, h3.value);
      } else if h2.Some? {
        out := out + HeadingHtml(2, h2.value);
      } else {
        out := out + HeadingHtml(1, h1.value);
      }
    } else if ordered.Some? || bullet.Some? {
      var kind := if ordered.Some? then Ordered else Bullet;
      if !inList' || listType' != Some(kind) {
        if inList' {
          out := out + ListClose;
        }
        out := out + ListOpen(kind);
        inList' := true;
        listType' := Some(kind);
      }
      out := out + ItemHtml(if ordered.Some? then ordered.value else bullet.value);
    } else if Trim(line) == [] {
      if inList' {
        out := out + ListClose;
        inList' := false;
        listType' := None;
      }
    } else {
      if inList' {
        out := out + ListClose;
        inList' := false;
        listType' := None;
      }
      out := out + ParagraphHtml(line);
    }
    html' := out;
  }

  /** A line with no `*`, backtick or newline that is classified as a
      paragraph renders as one paragraph holding it. */
  lemma PlainLineRendersParagraph(line: string)
    requires Plain(line) && Classify(line).Paragraph?
    ensures InlinePass(Structure(Split(line))) == ParagraphHtml(line)
  {
    PlainExcludes(line);
    OneLineStructure(line);
    ClosingTagsArePlain();
    PlainExcludes(ParagraphOpen);
    PlainExcludes("</p>");
    InlinePassIdentity(ParagraphHtml(line));
  }

  /** A line that starts with a character that is neither whitespace nor
      the first character of a marker is a paragraph. */
  lemma MarkerFreeLineIsParagraph(line: string)
    requires line != [] && !IsWhitespace(line[0])
    requires line[0] != '#' && line[0] != '*' && line[0] != '-' && !IsDigit(line[0])
    ensures Classify(line).Paragraph?
  {
    assert !AllWhitespace(line);
    ClassifyParagraphLine(line);
  }

  /** A text of one line that is classified as a paragraph: the
      structural pass writes it as one paragraph. */
  lemma OneLineStructure(line: string)
    requires '\n' !in line && Classify(line).Paragraph?
    ensures Structure(Split(line)) == ParagraphHtml(line)
  {
    SplitOfJoin([line]);
    assert JoinLines([line]) == line;
    assert Classify(line) == Paragraph(line);
    var ks := ClassifyAll([line]);
    assert ks == [Paragraph(line)];
    assert Step(Start, ks[0]) == PassState(ParagraphHtml(line), false, None);
    assert ks[1..] == [];
    PassFromStep(Start, ks);
    assert Split(line) == [line];
  }

  /** A falsy value that is not a string renders as one paragraph holding
      the fallback text. */
  lemma FalsyInputRendersFallback(text: Value, stringOf: Value -> string)
    requires !text.Str? && !Truthy(text)
    ensures RenderSpec(text, stringOf) == ParagraphHtml(NoContent)
  {
    assert Plain(NoContent);
    MarkerFreeLineIsParagraph(NoContent);
    PlainLineRendersParagraph(NoContent);
  }

  /** The empty string is one blank line, and renders as nothing. */
  lemma EmptyTextRendersNothing(stringOf: Value -> string)
    ensures RenderSpec(Str(""), stringOf) == ""
  {
    SplitOfJoin([""]);
    ClassifyBlankLine("");
    assert ClassifyAll([""]) == [Blank];
  }

  /** Text with no `*` and no backtick is left alone by the inline pass:
      the output is exactly the block view of its lines. */
  lemma PlainTextIsStructural(text: Value, stringOf: Value -> string)
    requires '*' !in Coerce(text, stringOf) && '`' !in Coerce(text, stringOf)
    ensures RenderSpec(text, stringOf) == Serialize(Group(ClassifyAll(Split(Coerce(text, stringOf)))))
  {
    var lines := Split(Coerce(text, stringOf));
    SplitKeepsAbsence(Coerce(text, stringOf), '*');
    SplitKeepsAbsence(Coerce(text, stringOf), '`');
    MarkupIsPlain();
    StructureAvoids(lines, '*');
    StructureAvoids(lines, '`');
    InlinePassIdentity(Structure(lines));
    StructureIsBlocks(lines);
  }

  /** The output is one line: a newline of the text only ever separates
      lines, and no markup holds one. */
  lemma OutputHasNoNewline(text: Value, stringOf: Value -> string)
    ensures '\n' !in RenderSpec(text, stringOf)
  {
    var lines := Split(Coerce(text, stringOf));
    MarkupIsPlain();
    PatternTagsHaveNoNewline();
    StructureAvoids(lines, '\n');
    InlinePassAvoids(Structure(lines), '\n');
  }

  // Proof steps used by the lemmas above.

  /** One line of the pass. */
  lemma PassFromStep(st: PassState, ks: seq<LineKind>)
    requires ks != []
    ensures PassFrom(st, ks) == PassFrom(Step(st, ks[0]), ks[1..])
  {
  }
}
